/** Strings as the standard library of the sources treats them: lines, trimming, lists and numbers. */
module Text {
  import opened Wrappers

  // ---- Searching and lines ----

  /** The first position of a character. */
  function IndexOf(s: string, c: char): (r: Option<nat>)
    ensures r.Some? ==> r.value < |s| && s[r.value] == c && c !in s[..r.value]
    ensures r.None? ==> c !in s
  {
    if s == "" then None
    else if s[0] == c then Some(0)
    else
      var r := IndexOf(s[1..], c);
      assert s == [s[0]] + s[1..];
      if r.None? then None else
      assert s[..r.value + 1] == [s[0]] + s[1..][..r.value];
      Some(r.value + 1)
  }

  lemma {:induction false} IndexOfFirst(a: string, c: char, b: string)
    requires c !in a
    ensures IndexOf(a + [c] + b, c) == Some(|a|)
  {
    if a != "" {
      IndexOfFirst(a[1..], c, b);
      assert (a + [c] + b)[1..] == a[1..] + [c] + b;
    }
  }

  // ---- Sizes ----

  /** The bytes of a character in UTF-8. */
  function CharSize(c: char): (n: nat)
    ensures 1 <= n <= 4
    ensures (n >= 2 <==> c as int > 127) && (n >= 3 <==> c as int > 2047) && (n == 4 <==> c as int > 65535)
  {
    if c as int < 0x80 then 1 else if c as int < 0x800 then 2 else if c as int < 0x1_0000 then 3 else 4
  }

  function Size(s: string): (n: nat)
    ensures |s| <= n <= 4 * |s|
  {
    if s == "" then 0 else Size(s[..|s| - 1]) + CharSize(s[|s| - 1])
  }

  lemma {:induction false} SizeOfSum(a: string, b: string)
    ensures Size(a + b) == Size(a) + Size(b)
  {
    if b == "" {
      assert a + b == a;
    } else {
      SizeOfSum(a, b[..|b| - 1]);
      assert (a + b)[..|a + b| - 1] == a + b[..|b| - 1];
    }
  }

  lemma {:induction false} SizeOfAscii(s: string)
    requires forall i :: 0 <= i < |s| ==> s[i] as int < 0x80
    ensures Size(s) == |s|
  {
    if s != "" {
      SizeOfAscii(s[..|s| - 1]);
    }
  }

  lemma SizeOfMiddle(a: string, b: string, c: string)
    ensures Size(b) <= Size(a + b + c)
  {
    SizeOfSum(a + b, c);
    SizeOfSum(a, b);
  }

  lemma ThreeParts(s: string, i: nat, j: nat)
    requires i <= j <= |s|
    ensures s == s[..i] + s[i..j] + s[j..]
  {
  }

  lemma SizeOfSlice(s: string, i: nat, j: nat)
    requires i <= j <= |s|
    ensures Size(s[i..j]) <= Size(s)
  {
    SizeOfMiddle(s[..i], s[i..j], s[j..]);
    ThreeParts(s, i, j);
  }

  // ---- Lines ----

  /** The first raw line, without its newline, and what follows it. */
  function FirstLine(text: string): (line: string)
    ensures '\n' !in line && |line| <= |text|
  {
    var i := IndexOf(text, '\n');
    if i.None? then text else text[..i.value]
  }

  function AfterLine(text: string): (rest: string)
    requires text != ""
    ensures |rest| < |text|
  {
    var i := IndexOf(text, '\n');
    if i.None? then "" else text[i.value + 1..]
  }

  /** A line scanner drops one carriage return at the end of each line. */
  function DropCr(line: string): string {
    if line != "" && line[|line| - 1] == '\r' then line[..|line| - 1] else line
  }

  /** The lines of a text; a last line needs no newline, and an empty rest is no line. */
  function Lines(text: string): seq<string>
    decreases |text|
  {
    if text == "" then [] else [DropCr(FirstLine(text))] + Lines(AfterLine(text))
  }

  /** A scanner's buffer holds this many bytes, a line's newline or the end of the text included. */
  const MAX_LINE: nat := 65536

  /** Every line fits the scanner's buffer. */
  predicate Scannable(text: string)
    decreases |text|
  {
    text != "" ==> Size(FirstLine(text)) < MAX_LINE && Scannable(AfterLine(text))
  }

  /** The lines that a scanner delivers: it stops with an error at the first that does not fit. */
  function Scanned(text: string): seq<string>
    decreases |text|
  {
    if text == "" || Size(FirstLine(text)) >= MAX_LINE then []
    else [DropCr(FirstLine(text))] + Scanned(AfterLine(text))
  }

  lemma {:induction false} ScannableIsScanned(text: string)
    requires Scannable(text)
    ensures Scanned(text) == Lines(text)
    decreases |text|
  {
    if text != "" {
      ScannableIsScanned(AfterLine(text));
    }
  }

  lemma FirstOfLines(line: string, rest: string)
    requires '\n' !in line
    ensures FirstLine(line + "\n" + rest) == line && AfterLine(line + "\n" + rest) == rest
  {
    var text := line + "\n" + rest;
    assert text == line + ['\n'] + rest;
    IndexOfFirst(line, '\n', rest);
    assert text[..|line|] == line && text[|line| + 1..] == rest;
  }

  lemma LinesOfLine(line: string, rest: string)
    requires '\n' !in line
    ensures Lines(line + "\n" + rest) == [DropCr(line)] + Lines(rest)
    ensures Scannable(line + "\n" + rest) <==> Size(line) < 65536 && Scannable(rest)
  {
    FirstOfLines(line, rest);
  }

  lemma DroppedPart(line: string)
    ensures Size(DropCr(line)) <= Size(line)
    ensures forall c :: c !in line ==> c !in DropCr(line)
  {
    if DropCr(line) != line {
      SizeOfSlice(line, 0, |line| - 1);
      assert line[0..|line| - 1] == DropCr(line);
    }
  }

  /** Lines hold no newline, and those that a scanner delivers fit its buffer. */
  lemma {:induction false} LinesHoldNoNewline(text: string)
    ensures forall i :: 0 <= i < |Lines(text)| ==> '\n' !in Lines(text)[i]
    decreases |text|
  {
    if text != "" {
      DroppedPart(FirstLine(text));
      LinesHoldNoNewline(AfterLine(text));
    }
  }

  lemma {:induction false} ScannedLinesFit(text: string)
    ensures forall i :: 0 <= i < |Scanned(text)| ==> '\n' !in Scanned(text)[i] && Size(Scanned(text)[i]) < MAX_LINE
    decreases |text|
  {
    if text != "" && Size(FirstLine(text)) < MAX_LINE {
      DroppedPart(FirstLine(text));
      ScannedLinesFit(AfterLine(text));
    }
  }

  // ---- Keys and values ----

  type Pair = (string, string)

  /** A line split at its first equals sign. */
  function SplitPair(line: string): Option<Pair> {
    var i := IndexOf(line, '=');
    if i.None? then None else Some((line[..i.value], line[i.value + 1..]))
  }

  /** Every line with an equals sign, split; the other lines are skipped. */
  function Pairs(lines: seq<string>): seq<Pair> {
    if lines == [] then []
    else if SplitPair(lines[0]).Some? then [SplitPair(lines[0]).value] + Pairs(lines[1..])
    else Pairs(lines[1..])
  }

  function PairLine(p: Pair): string {
    p.0 + "=" + p.1 + "\n"
  }

  function PairText(ps: seq<Pair>): string {
    if ps == [] then "" else PairLine(ps[0]) + PairText(ps[1..])
  }

  lemma {:induction false} PairTextOfSum(a: seq<Pair>, b: seq<Pair>)
    ensures PairText(a + b) == PairText(a) + PairText(b)
  {
    if a == [] {
      assert a + b == b;
    } else {
      PairTextOfSum(a[1..], b);
      assert (a + b)[1..] == a[1..] + b;
    }
  }

  /** One line more on the text. */
  function Put(b: string, key: string, val: string): string {
    b + key + "=" + val + "\n"
  }

  lemma PutAppends(start: string, ps: seq<Pair>, key: string, val: string)
    ensures Put(start + PairText(ps), key, val) == start + PairText(ps + [(key, val)])
  {
    PairTextOfSum(ps, [(key, val)]);
    assert [(key, val)][1..] == [];
    assert PairText([(key, val)]) == key + "=" + val + "\n";
  }

  lemma Appended(start: string, a: seq<Pair>, c: seq<Pair>)
    ensures start + PairText(a) + PairText(c) == start + PairText(a + c)
  {
    PairTextOfSum(a, c);
    assert start + PairText(a) + PairText(c) == start + (PairText(a) + PairText(c));
  }

  /** A pair that makes one line: nothing in it is mistaken for the end of the key or of the line. */
  predicate OneLine(p: Pair) {
    '=' !in p.0 && '\n' !in p.0 && '\n' !in p.1
  }

  /** A pair that comes back as it is: its line does not end in a carriage return either. */
  predicate Carried(p: Pair) {
    OneLine(p) && DropCr(p.1) == p.1
  }

  lemma LineOfPair(p: Pair)
    requires OneLine(p)
    ensures '\n' !in p.0 + "=" + p.1
    ensures DropCr(p.0 + "=" + p.1) == p.0 + "=" + DropCr(p.1)
    ensures SplitPair(DropCr(p.0 + "=" + p.1)) == Some((p.0, DropCr(p.1)))
  {
    var line := p.0 + "=" + p.1;
    var read := p.0 + "=" + DropCr(p.1);
    assert line[|line| - 1] == if p.1 == "" then '=' else p.1[|p.1| - 1];
    assert DropCr(line) == read;
    assert read == p.0 + ['='] + DropCr(p.1);
    IndexOfFirst(p.0, '=', DropCr(p.1));
    assert read[..|p.0|] == p.0 && read[|p.0| + 1..] == DropCr(p.1);
  }

  function AsRead(ps: seq<Pair>): (rs: seq<Pair>)
    ensures |rs| == |ps| && forall i :: 0 <= i < |ps| ==> rs[i] == (ps[i].0, DropCr(ps[i].1))
  {
    if ps == [] then [] else [(ps[0].0, DropCr(ps[0].1))] + AsRead(ps[1..])
  }

  /** The pair's line fits a scanner's buffer. */
  predicate PairFits(p: Pair) {
    Size(p.0 + "=" + p.1) < MAX_LINE
  }

  /** Reading a written list of pairs gives the list back, less one carriage return at the end of each line. */
  lemma {:induction false} PairsOfPairText(ps: seq<Pair>)
    requires forall i :: 0 <= i < |ps| ==> OneLine(ps[i])
    ensures Pairs(Lines(PairText(ps))) == AsRead(ps)
    ensures Scannable(PairText(ps)) <==> forall i :: 0 <= i < |ps| ==> PairFits(ps[i])
  {
    if ps != [] {
      var line, text := ps[0].0 + "=" + ps[0].1, PairText(ps[1..]);
      LineOfPair(ps[0]);
      assert PairText(ps) == line + "\n" + text;
      LinesOfLine(line, text);
      PairsOfPairText(ps[1..]);
      assert Lines(PairText(ps))[1..] == Lines(text);
    }
  }

  lemma CarriedPairs(ps: seq<Pair>)
    requires forall p :: p in ps ==> Carried(p)
    ensures Pairs(Lines(PairText(ps))) == ps
  {
    forall i | 0 <= i < |ps| ensures Carried(ps[i]) {
      assert ps[i] in ps;
    }
    PairsOfPairText(ps);
    assert AsRead(ps) == ps;
  }

  /** No value that is read holds a newline. */
  lemma {:induction false} ReadValues(lines: seq<string>)
    requires forall i :: 0 <= i < |lines| ==> '\n' !in lines[i]
    ensures forall p :: p in Pairs(lines) ==> '\n' !in p.1
  {
    if lines != [] {
      ReadValues(lines[1..]);
    }
  }

  // ---- Trimming, lists, case ----

  /** White space in the sense of Unicode, as the trimming function understands it. */
  predicate IsSpace(c: char) {
    || '\t' <= c <= '\r' || c == ' ' || c == '\U{0085}' || c == '\U{00A0}' || c == '\U{1680}'
    || '\U{2000}' <= c <= '\U{200A}' || c == '\U{2028}' || c == '\U{2029}' || c == '\U{202F}'
    || c == '\U{205F}' || c == '\U{3000}'
  }

  /** Its code points: the ASCII controls and space, next line, and the spaces and separators of Unicode. */
  lemma SpaceExactly(c: char)
    ensures var n := c as int;
      IsSpace(c) <==>
        || 9 <= n <= 13 || n == 32 || n == 133 || n == 160 || n == 5760 || 8192 <= n <= 8202
        || n == 8232 || n == 8233 || n == 8239 || n == 8287 || n == 12288
  {
  }

  function TrimLeft(s: string): string {
    if s != "" && IsSpace(s[0]) then TrimLeft(s[1..]) else s
  }

  function TrimRight(s: string): string {
    if s != "" && IsSpace(s[|s| - 1]) then TrimRight(s[..|s| - 1]) else s
  }

  function Trim(s: string): string {
    TrimRight(TrimLeft(s))
  }

  /** No white space at either end. */
  predicate Trimmed(s: string) {
    s != "" ==> !IsSpace(s[0]) && !IsSpace(s[|s| - 1])
  }

  lemma {:induction false} TrimLeftIsSuffix(s: string)
    ensures exists i :: 0 <= i <= |s| && TrimLeft(s) == s[i..]
    ensures TrimLeft(s) != "" ==> !IsSpace(TrimLeft(s)[0])
  {
    if s != "" && IsSpace(s[0]) {
      TrimLeftIsSuffix(s[1..]);
      var i :| 0 <= i <= |s[1..]| && TrimLeft(s[1..]) == s[1..][i..];
      assert s[1..][i..] == s[i + 1..];
    } else {
      assert s == s[0..];
    }
  }

  lemma {:induction false} TrimRightIsPrefix(s: string)
    ensures exists i :: 0 <= i <= |s| && TrimRight(s) == s[..i]
    ensures TrimRight(s) != "" ==> !IsSpace(TrimRight(s)[|TrimRight(s)| - 1])
  {
    if s != "" && IsSpace(s[|s| - 1]) {
      var t := s[..|s| - 1];
      TrimRightIsPrefix(t);
      var i :| 0 <= i <= |t| && TrimRight(t) == t[..i];
      assert t[..i] == s[..i];
    } else {
      assert s == s[..|s|];
    }
  }

  lemma TrimIsSlice(s: string)
    ensures exists i, j :: 0 <= i <= j <= |s| && Trim(s) == s[i..j]
  {
    TrimLeftIsSuffix(s);
    TrimRightIsPrefix(TrimLeft(s));
    var left := TrimLeft(s);
    var i :| 0 <= i <= |s| && left == s[i..];
    var j :| 0 <= j <= |left| && TrimRight(left) == left[..j];
    assert s[i..i + j] == left[..j];
  }

  lemma TrimmedSize(s: string)
    ensures Size(Trim(s)) <= Size(s)
  {
    TrimIsSlice(s);
    var i, j :| 0 <= i <= j <= |s| && Trim(s) == s[i..j];
    SizeOfSlice(s, i, j);
  }

  /** Trimming leaves a trimmed part of the string, and a trimmed string as it is. */
  lemma TrimTrims(s: string)
    ensures Trimmed(Trim(s))
    ensures forall c :: c in Trim(s) ==> c in s
    ensures Trimmed(s) ==> Trim(s) == s
  {
    TrimLeftIsSuffix(s);
    TrimRightIsPrefix(TrimLeft(s));
  }

  /** Splitting at commas; the parts are trimmed and empty ones are dropped. */
  function SplitList(s: string): seq<string>
    decreases |s|
  {
    var i := IndexOf(s, ',');
    var part := Trim(if i.None? then s else s[..i.value]);
    (if part == "" then [] else [part]) + (if i.None? then [] else SplitList(s[i.value + 1..]))
  }

  predicate PartOf(part: string, whole: string) {
    part != "" && Trimmed(part) && Size(part) <= Size(whole) && forall c :: c in part ==> c in whole && c != ','
  }

  lemma TrimmedPart(part: string, whole: string)
    requires Trim(part) != "" && ',' !in part && Size(part) <= Size(whole) && forall c :: c in part ==> c in whole
    ensures PartOf(Trim(part), whole)
  {
    TrimTrims(part);
    TrimmedSize(part);
  }

  lemma {:induction false} ListParts(s: string)
    ensures forall part :: part in SplitList(s) ==> PartOf(part, s)
    decreases |s|
  {
    var i := IndexOf(s, ',');
    var first := if i.None? then s else s[..i.value];
    if Trim(first) != "" {
      SizeOfSlice(s, 0, |first|);
      assert s[0..|first|] == first;
      TrimmedPart(first, s);
    }
    if i.Some? {
      var rest := s[i.value + 1..];
      SizeOfSlice(s, i.value + 1, |s|);
      assert s[i.value + 1..|s|] == rest;
      ListParts(rest);
      forall part | part in SplitList(rest) ensures PartOf(part, s) {
        assert PartOf(part, rest);
      }
    }
  }

  /**
   * Lower case, exactly for deciding whether the result is an ASCII word: besides the ASCII letters,
   * only the Kelvin sign and the dotted capital I are lowered into ASCII.
   */
  function LowerChar(c: char): char {
    if 'A' <= c <= 'Z' then (c as int + 32) as char
    else if c == '\U{212A}' then 'k'
    else if c == '\U{0130}' then 'i'
    else c
  }

  lemma LowerCharExactly(c: char)
    ensures var n, l := c as int, LowerChar(c) as int;
      l == if 65 <= n <= 90 then n + 32 else if n == 8490 then 107 else if n == 304 then 105 else n
  {
  }

  function Lower(s: string): (r: string)
    ensures |r| == |s|
  {
    if s == "" then "" else [LowerChar(s[0])] + Lower(s[1..])
  }

  // ---- Numbers ----

  function Digit(d: nat): char
    requires d < 10
  {
    (d + '0' as int) as char
  }

  /** The decimal numeral of a natural number. */
  function Decimal(n: nat): (s: string)
    ensures s != "" && forall c :: c in s ==> '0' <= c <= '9'
  {
    if n < 10 then [Digit(n)] else Decimal(n / 10) + [Digit(n % 10)]
  }

  function SignedDecimal(n: int): (s: string)
    ensures s != "" && (s[0] == '-' <==> n < 0)
  {
    if n < 0 then "-" + Decimal(-n)
    else
      assert Decimal(n)[0] in Decimal(n);
      Decimal(n)
  }

  function DigitValue(c: char, base: nat): Option<nat>
    requires base == 10 || base == 16
  {
    var d := if '0' <= c <= '9' then c as int - '0' as int
             else if 'a' <= c <= 'f' then c as int - 'a' as int + 10
             else if 'A' <= c <= 'F' then c as int - 'A' as int + 10
             else 16;
    if d < base then Some(d) else None
  }

  /** A numeral's value; None when it is empty or holds anything but digits. */
  function Numeral(s: string, base: nat): Option<nat>
    requires base == 10 || base == 16
  {
    if s == "" then None
    else
      var last := DigitValue(s[|s| - 1], base);
      if last.None? then None
      else if |s| == 1 then last
      else
        var rest := Numeral(s[..|s| - 1], base);
        if rest.None? then None else Some(rest.value * base + last.value)
  }

  function Pow10(k: nat): nat {
    if k == 0 then 1 else 10 * Pow10(k - 1)
  }

  lemma {:induction false} DecimalLength(n: nat, k: nat)
    requires k > 0 && n < Pow10(k)
    ensures |Decimal(n)| <= k
  {
    if n >= 10 {
      assert k > 1 && n / 10 < Pow10(k - 1);
      DecimalLength(n / 10, k - 1);
    }
  }

  /** The numeral of a 64-bit number is short. */
  lemma SignedDecimalIsShort(n: int)
    requires -TWO_63 <= n < 2 * TWO_63
    ensures Size(SignedDecimal(n)) <= 80
  {
    assert Pow10(4) == 10000;
    assert Pow10(8) == 10000 * Pow10(4);
    assert Pow10(12) == 10000 * Pow10(8);
    assert Pow10(16) == 10000 * Pow10(12);
    assert Pow10(20) == 10000 * Pow10(16);
    DecimalLength(if n < 0 then -n else n, 20);
  }

  lemma {:induction false} NumeralOfDecimal(n: nat)
    ensures Numeral(Decimal(n), 10) == Some(n)
  {
    if n >= 10 {
      NumeralOfDecimal(n / 10);
      var s := Decimal(n);
      assert s[..|s| - 1] == Decimal(n / 10) && s[|s| - 1] == Digit(n % 10);
    }
  }

  const TWO_32: int := 0x1_0000_0000
  const TWO_63: int := 0x8000_0000_0000_0000

  /** An unsigned 32-bit number: digits only, in range. */
  function ParseUint32(s: string, base: nat): Option<nat>
    requires base == 10 || base == 16
  {
    var n := Numeral(s, base);
    if n.Some? && n.value < TWO_32 then n else None
  }

  /** A signed 64-bit number: one optional sign, then decimal digits, in range. */
  function ParseInt64(s: string): (r: Option<int>)
    ensures r.Some? ==> -TWO_63 <= r.value < TWO_63
  {
    if s == "" then None
    else
      var n := Numeral(if s[0] == '-' || s[0] == '+' then s[1..] else s, 10);
      if n.None? then None
      else
        var magnitude: int := n.value;
        var v := if s[0] == '-' then -magnitude else magnitude;
        if -TWO_63 <= v < TWO_63 then Some(v) else None
  }

  /** Printing and parsing a signed 64-bit number. */
  lemma ParseInt64OfSigned(n: int)
    requires -TWO_63 <= n < TWO_63
    ensures ParseInt64(SignedDecimal(n)) == Some(n)
  {
    if n < 0 {
      NumeralOfDecimal(-n);
      assert SignedDecimal(n)[1..] == Decimal(-n);
    } else {
      NumeralOfDecimal(n);
      assert Decimal(n)[0] in Decimal(n);
    }
  }

  // ---- Which texts are numbers ----

  predicate Digits(s: string) {
    s != "" && forall i :: 0 <= i < |s| ==> '0' <= s[i] <= '9'
  }

  lemma {:induction false} NumeralExactly(s: string)
    ensures Numeral(s, 10).Some? <==> Digits(s)
  {
    if |s| > 1 {
      var front := s[..|s| - 1];
      NumeralExactly(front);
      assert s == front + [s[|s| - 1]];
    }
  }

  predicate Zeros(s: string) {
    forall i :: 0 <= i < |s| ==> s[i] == '0'
  }

  lemma {:induction false} ZerosAreZero(zeros: string)
    requires Zeros(zeros) && zeros != ""
    ensures Numeral(zeros, 10) == Some(0)
  {
    if |zeros| > 1 {
      ZerosAreZero(zeros[..|zeros| - 1]);
    }
  }

  /** Zeros in front do not change a numeral's value. */
  lemma {:induction false} NumeralOfPadded(zeros: string, n: nat)
    requires Zeros(zeros)
    ensures Numeral(zeros + Decimal(n), 10) == Some(n)
    decreases n
  {
    var s, d := zeros + Decimal(n), Decimal(n);
    assert s[|s| - 1] == d[|d| - 1] == Digit(n % 10);
    if n >= 10 {
      NumeralOfPadded(zeros, n / 10);
      assert s[..|s| - 1] == zeros + Decimal(n / 10);
    } else if zeros != "" {
      ZerosAreZero(zeros);
      assert s[..|s| - 1] == zeros;
    }
  }

  /** A number is one optional sign and then digits, and nothing else. */
  lemma NotANumber(s: string)
    ensures ParseInt64(s).Some? ==> Digits(s) || (s != "" && (s[0] == '-' || s[0] == '+') && Digits(s[1..]))
  {
    NumeralExactly(s);
    if s != "" {
      NumeralExactly(s[1..]);
    }
  }

  function IfItFits(v: int): Option<int> {
    if -9223372036854775808 <= v <= 9223372036854775807 then Some(v) else None
  }

  lemma UnsignedForm(s: string, n: nat)
    requires Numeral(s, 10) == Some(n) && s != "" && '0' <= s[0] <= '9'
    ensures ParseInt64(s) == IfItFits(n)
  {
  }

  lemma SignedForm(sign: char, digits: string, s: string, n: nat)
    requires Numeral(digits, 10) == Some(n) && s == [sign] + digits && (sign == '+' || sign == '-')
    ensures ParseInt64(s) == IfItFits(if sign == '-' then 0 - n else n)
  {
    assert s[1..] == digits;
  }

  /** Its value, with zeros in front or not: as its sign and digits say, when that fits 64 bits. */
  lemma ParseInt64Exactly(zeros: string, n: nat, s: string)
    requires Zeros(zeros) && s == zeros + Decimal(n)
    ensures ParseInt64(s) == IfItFits(n) && ParseInt64("+" + s) == IfItFits(n) && ParseInt64("-" + s) == IfItFits(0 - n)
  {
    NumeralOfPadded(zeros, n);
    FirstIsDigit(zeros, Decimal(n));
    UnsignedForm(s, n);
    SignedForm('+', s, "+" + s, n);
    SignedForm('-', s, "-" + s, n);
  }

  lemma FirstIsDigit(zeros: string, digits: string)
    requires Zeros(zeros) && digits != "" && forall c :: c in digits ==> '0' <= c <= '9'
    ensures '0' <= (zeros + digits)[0] <= '9'
  {
    assert digits[0] in digits;
  }
}
