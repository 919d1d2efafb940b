/** Base64 with padding (RFC 4648 section 4) and lower-case base16 (section 8), between bytes and text. */
module Encoding {
  import opened Wrappers

  newtype Byte = x: int | 0 <= x < 256

  // ---- Base 16 ----

  function HexDigit(d: int): char
    requires 0 <= d < 16
  {
    if d < 10 then (d + '0' as int) as char else (d - 10 + 'a' as int) as char
  }

  function HexValue(c: char): (r: Option<int>)
    ensures r.Some? ==> 0 <= r.value < 16 && HexDigit(r.value) == c
  {
    if '0' <= c <= '9' then Some(c as int - '0' as int)
    else if 'a' <= c <= 'f' then Some(c as int - 'a' as int + 10)
    else None
  }

  function HexEncode(bytes: seq<Byte>): (s: string)
    ensures |s| == 2 * |bytes| && forall c :: c in s ==> HexValue(c).Some?
  {
    if bytes == [] then ""
    else [HexDigit(bytes[0] as int / 16), HexDigit(bytes[0] as int % 16)] + HexEncode(bytes[1..])
  }

  function HexDecode(s: string): Option<seq<Byte>> {
    if s == "" then Some([])
    else if |s| == 1 then None
    else
      var high, low, rest := HexValue(s[0]), HexValue(s[1]), HexDecode(s[2..]);
      if high.None? || low.None? || rest.None? then None
      else Some([(high.value * 16 + low.value) as Byte] + rest.value)
  }

  lemma HexDigitIsRead(d: int)
    requires 0 <= d < 16
    ensures HexValue(HexDigit(d)) == Some(d)
  {
  }

  lemma {:induction false} HexRoundTrip(bytes: seq<Byte>)
    ensures HexDecode(HexEncode(bytes)) == Some(bytes)
  {
    if bytes != [] {
      HexDigitIsRead(bytes[0] as int / 16);
      HexDigitIsRead(bytes[0] as int % 16);
      HexRoundTrip(bytes[1..]);
      assert HexEncode(bytes)[2..] == HexEncode(bytes[1..]);
      assert [bytes[0]] + bytes[1..] == bytes;
    }
  }

  // ---- Base 64 ----

  /** A sextet's letter in the standard alphabet. */
  function Letter(d: int): char
    requires 0 <= d < 64
  {
    if d < 26 then (d + 'A' as int) as char
    else if d < 52 then (d - 26 + 'a' as int) as char
    else if d < 62 then (d - 52 + '0' as int) as char
    else if d == 62 then '+' else '/'
  }

  function Sextet(c: char): (r: Option<int>)
    ensures r.Some? ==> 0 <= r.value < 64 && Letter(r.value) == c
  {
    if 'A' <= c <= 'Z' then Some(c as int - 'A' as int)
    else if 'a' <= c <= 'z' then Some(c as int - 'a' as int + 26)
    else if '0' <= c <= '9' then Some(c as int - '0' as int + 52)
    else if c == '+' then Some(62) else if c == '/' then Some(63) else None
  }

  lemma SextetOfLetter(d: int)
    requires 0 <= d < 64
    ensures Sextet(Letter(d)) == Some(d) && Letter(d) != '=' && Letter(d) != '\r' && Letter(d) != '\n'
  {
  }

  /** The decoder ignores line breaks wherever they stand. */
  function WithoutBreaks(s: string): string {
    if s == "" then ""
    else if s[0] == '\r' || s[0] == '\n' then WithoutBreaks(s[1..])
    else [s[0]] + WithoutBreaks(s[1..])
  }

  /** The three bytes of four sextets. */
  function Bytes3(a: int, b: int, c: int, d: int): seq<Byte>
    requires 0 <= a < 64 && 0 <= b < 64 && 0 <= c < 64 && 0 <= d < 64
  {
    [(a * 4 + b / 16) as Byte, (b % 16 * 16 + c / 4) as Byte, (c % 4 * 64 + d) as Byte]
  }

  /** One final group of four characters, padded or not; the bits that padding cuts off are not looked at. */
  function Group(s: string): Option<seq<Byte>>
    requires |s| == 4
  {
    var a, b, c, d := Sextet(s[0]), Sextet(s[1]), Sextet(s[2]), Sextet(s[3]);
    if a.None? || b.None? then None
    else if s[2] == '=' && s[3] == '=' then Some(Bytes3(a.value, b.value, 0, 0)[..1])
    else if c.None? then None
    else if s[3] == '=' then Some(Bytes3(a.value, b.value, c.value, 0)[..2])
    else if d.None? then None
    else Some(Bytes3(a.value, b.value, c.value, d.value))
  }

  /** Whole groups, of which only the last may be padded. */
  function Groups(s: string): Option<seq<Byte>> {
    if s == "" then Some([])
    else if |s| < 4 then None
    else
      var first := Group(s[..4]);
      if first.None? then None
      else if |s| == 4 then first
      else if |first.value| < 3 then None
      else
        var rest := Groups(s[4..]);
        if rest.None? then None else Some(first.value + rest.value)
  }

  function Base64Decode(s: string): Option<seq<Byte>> {
    Groups(WithoutBreaks(s))
  }

  /** The encoding of one to three bytes. */
  function EncodeGroup(b: seq<Byte>): string
    requires 1 <= |b| <= 3
  {
    var x := b[0] as int;
    var y := if |b| > 1 then b[1] as int else 0;
    var z := if |b| > 2 then b[2] as int else 0;
    [Letter(x / 4), Letter(x % 4 * 16 + y / 16),
     if |b| > 1 then Letter(y % 16 * 4 + z / 64) else '=',
     if |b| > 2 then Letter(z % 64) else '=']
  }

  function Base64Encode(bytes: seq<Byte>): string {
    if bytes == [] then ""
    else if |bytes| <= 3 then EncodeGroup(bytes)
    else EncodeGroup(bytes[..3]) + Base64Encode(bytes[3..])
  }

  /** The letters of four sextets, of which the padding stands for the zero ones at the end. */
  lemma GroupOfSextets(a: int, b: int, c: int, d: int, n: nat)
    requires 0 <= a < 64 && 0 <= b < 64 && 0 <= c < 64 && 0 <= d < 64 && 1 <= n <= 3
    requires (n <= 1 ==> c == 0) && (n <= 2 ==> d == 0)
    ensures Group([Letter(a), Letter(b), if n > 1 then Letter(c) else '=', if n > 2 then Letter(d) else '=']) ==
      Some(Bytes3(a, b, c, d)[..n])
  {
    SextetOfLetter(a);
    SextetOfLetter(b);
    SextetOfLetter(c);
    SextetOfLetter(d);
    assert Bytes3(a, b, c, d)[..3] == Bytes3(a, b, c, d);
  }

  lemma SextetsFit(x: int, y: int, z: int)
    requires 0 <= x < 256 && 0 <= y < 256 && 0 <= z < 256
    ensures 0 <= x / 4 < 64 && 0 <= x % 4 * 16 + y / 16 < 64 && 0 <= y % 16 * 4 + z / 64 < 64 && 0 <= z % 64 < 64
    ensures (y == 0 && z == 0 ==> y % 16 * 4 + z / 64 == 0) && (z == 0 ==> z % 64 == 0)
  {
  }

  /** The three numbers of a group, zero where it has no byte. */
  predicate NumbersOf(b: seq<Byte>, x: int, y: int, z: int)
    requires 1 <= |b| <= 3
  {
    x == b[0] as int && y == (if |b| > 1 then b[1] as int else 0) && z == (if |b| > 2 then b[2] as int else 0)
  }

  lemma FirstBytes(b: seq<Byte>, x: int, y: int, z: int)
    requires 1 <= |b| <= 3 && NumbersOf(b, x, y, z)
    ensures 0 <= x < 256 && 0 <= y < 256 && 0 <= z < 256 && [x as Byte, y as Byte, z as Byte][..|b|] == b
  {
  }

  lemma LettersOf(b: seq<Byte>, x: int, y: int, z: int)
    requires 1 <= |b| <= 3 && NumbersOf(b, x, y, z)
    ensures 0 <= x / 4 < 64 && 0 <= x % 4 * 16 + y / 16 < 64 && 0 <= y % 16 * 4 + z / 64 < 64 && 0 <= z % 64 < 64
    ensures EncodeGroup(b) == [Letter(x / 4), Letter(x % 4 * 16 + y / 16),
      if |b| > 1 then Letter(y % 16 * 4 + z / 64) else '=', if |b| > 2 then Letter(z % 64) else '=']
  {
    SextetsFit(x, y, z);
  }

  lemma GroupOfEncoded(b: seq<Byte>)
    requires 1 <= |b| <= 3
    ensures Group(EncodeGroup(b)) == Some(b)
  {
    var x := b[0] as int;
    var y := if |b| > 1 then b[1] as int else 0;
    var z := if |b| > 2 then b[2] as int else 0;
    FirstBytes(b, x, y, z);
    LettersOf(b, x, y, z);
    SextetsFit(x, y, z);
    GroupOfSextets(x / 4, x % 4 * 16 + y / 16, y % 16 * 4 + z / 64, z % 64, |b|);
    Regrouped(x, y, z);
  }

  lemma Regrouped(x: int, y: int, z: int)
    requires 0 <= x < 256 && 0 <= y < 256 && 0 <= z < 256
    ensures Bytes3(x / 4, x % 4 * 16 + y / 16, y % 16 * 4 + z / 64, z % 64) == [x as Byte, y as Byte, z as Byte]
  {
    assert (x % 4 * 16 + y / 16) / 16 == x % 4 && (x % 4 * 16 + y / 16) % 16 == y / 16;
    assert (y % 16 * 4 + z / 64) / 4 == y % 16 && (y % 16 * 4 + z / 64) % 4 == z / 64;
  }

  lemma {:induction false} EncodedHasNoBreaks(bytes: seq<Byte>)
    ensures WithoutBreaks(Base64Encode(bytes)) == Base64Encode(bytes)
  {
    if bytes != [] {
      var group := EncodeGroup(if |bytes| <= 3 then bytes else bytes[..3]);
      forall c | c in group ensures c != '\r' && c != '\n' {}
      NoBreaks(group);
      if |bytes| > 3 {
        EncodedHasNoBreaks(bytes[3..]);
        BreaksOfSum(group, Base64Encode(bytes[3..]));
      }
    }
  }

  lemma {:induction false} NoBreaks(s: string)
    requires '\r' !in s && '\n' !in s
    ensures WithoutBreaks(s) == s
  {
    if s != "" {
      NoBreaks(s[1..]);
    }
  }

  lemma Prepended(c: char, x: string, y: string)
    ensures [c] + (x + y) == [c] + x + y
  {
  }

  lemma {:induction false} BreaksOfSum(a: string, b: string)
    ensures WithoutBreaks(a + b) == WithoutBreaks(a) + WithoutBreaks(b)
  {
    if a == "" {
      assert a + b == b;
    } else {
      var sum := a + b;
      BreaksOfSum(a[1..], b);
      assert sum[0] == a[0] && sum[1..] == a[1..] + b;
      Prepended(a[0], WithoutBreaks(a[1..]), WithoutBreaks(b));
    }
  }

  /** Decoding undoes encoding, for byte strings of every length. */
  lemma {:induction false} Base64RoundTrip(bytes: seq<Byte>)
    ensures Base64Decode(Base64Encode(bytes)) == Some(bytes)
  {
    EncodedHasNoBreaks(bytes);
    GroupsOfEncoded(bytes);
  }

  lemma {:induction false} GroupsOfEncoded(bytes: seq<Byte>)
    ensures Groups(Base64Encode(bytes)) == Some(bytes)
  {
    if bytes != [] {
      if |bytes| <= 3 {
        GroupOfEncoded(bytes);
        assert EncodeGroup(bytes)[..4] == EncodeGroup(bytes);
      } else {
        GroupOfEncoded(bytes[..3]);
        GroupsOfEncoded(bytes[3..]);
        var s := Base64Encode(bytes);
        assert s[..4] == EncodeGroup(bytes[..3]) && s[4..] == Base64Encode(bytes[3..]);
        assert bytes[..3] + bytes[3..] == bytes;
      }
    }
  }

  // ---- Which texts are base64 ----

  /** Letters of the alphabet, and then p equals signs. */
  predicate PaddedBy(s: string, p: nat) {
    && p <= |s|
    && (forall i :: 0 <= i < |s| - p ==> Sextet(s[i]).Some?)
    && forall i :: |s| - p <= i < |s| ==> s[i] == '='
  }

  /** Whole groups of four, the last of which may end in one or two equals signs. */
  predicate IsBase64(s: string) {
    |s| % 4 == 0 && (PaddedBy(s, 0) || (s != "" && (PaddedBy(s, 1) || PaddedBy(s, 2))))
  }

  lemma OneGroup(s: string)
    requires |s| == 4
    ensures Group(s).Some? <==> PaddedBy(s, 0) || PaddedBy(s, 1) || PaddedBy(s, 2)
    ensures Group(s).Some? ==> (|Group(s).value| == 3 <==> PaddedBy(s, 0))
  {
    assert Sextet('=').None?;
  }

  lemma GroupInFront(first: string, rest: string, p: nat)
    requires p <= |rest|
    ensures PaddedBy(first + rest, p) <==> PaddedBy(first, 0) && PaddedBy(rest, p)
  {
    var s := first + rest;
    assert forall i :: 0 <= i < |first| ==> s[i] == first[i];
    assert forall i :: 0 <= i < |rest| ==> s[|first| + i] == rest[i];
  }

  lemma {:induction false} GroupsExactly(s: string)
    ensures Groups(s).Some? <==> IsBase64(s)
  {
    if |s| >= 4 {
      OneGroup(s[..4]);
      if |s| == 4 {
        assert s[..4] == s;
      } else {
        GroupsExactly(s[4..]);
        assert s == s[..4] + s[4..] && |s| % 4 == |s[4..]| % 4;
        if |s| >= 8 {
          GroupInFront(s[..4], s[4..], 0);
          GroupInFront(s[..4], s[4..], 1);
          GroupInFront(s[..4], s[4..], 2);
        }
      }
    }
  }

  /** The texts that are decoded are exactly those that are base64 once their line breaks are left out. */
  lemma DecodedExactly(s: string)
    ensures Base64Decode(s).Some? <==> IsBase64(WithoutBreaks(s))
  {
    GroupsExactly(WithoutBreaks(s));
  }
}
