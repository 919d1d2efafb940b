/** The duplicate-name check of the request router, over the token stream of a JSON decoder. */
module Json {
  import opened Wrappers

  /** Commas and colons are not tokens; Scalar is a number, a boolean or null. */
  datatype Token = BeginObject | EndObject | BeginArray | EndArray | Text(s: string) | Scalar(n: int)

  datatype Value =
    | Object(members: seq<Member>)
    | Array(elements: seq<Value>)
    | String(s: string)
    | Literal(n: int)

  datatype Member = Member(name: string, value: Value)

  predicate Opens(t: Token) {
    t.BeginObject? || t.BeginArray?
  }

  predicate Closes(t: Token) {
    t.EndObject? || t.EndArray?
  }

  // ---- The token stream of a value ----

  function Tokens(v: Value): (ts: seq<Token>)
    ensures ts != []
  {
    match v
    case Object(ms) => [BeginObject] + MemberTokens(ms) + [EndObject]
    case Array(vs) => [BeginArray] + ElementTokens(vs) + [EndArray]
    case String(s) => [Text(s)]
    case Literal(n) => [Scalar(n)]
  }

  function MemberTokens(ms: seq<Member>): seq<Token> {
    if ms == [] then [] else [Text(ms[0].name)] + Tokens(ms[0].value) + MemberTokens(ms[1..])
  }

  function ElementTokens(vs: seq<Value>): seq<Token> {
    if vs == [] then [] else Tokens(vs[0]) + ElementTokens(vs[1..])
  }

  // ---- What the two loops compute, on any stream ----

  /** The rest of the stream after the delimiters that are open have been closed. */
  function SkipOpen(ts: seq<Token>, depth: nat): (r: Option<seq<Token>>)
    ensures r.Some? ==> |r.value| <= |ts|
    decreases |ts|
  {
    if depth == 0 then Some(ts)
    else if ts == [] then None
    else SkipOpen(ts[1..], if Opens(ts[0]) then depth + 1 else if Closes(ts[0]) then depth - 1 else depth)
  }

  /** The rest of the stream after one value. */
  function Skip(ts: seq<Token>): (r: Option<seq<Token>>)
    ensures r.Some? ==> |r.value| < |ts|
  {
    if ts == [] then None else if Opens(ts[0]) then SkipOpen(ts[1..], 1) else Some(ts[1..])
  }

  /** The decoder sees another element of what it is in. */
  predicate More(ts: seq<Token>) {
    ts != [] && !Closes(ts[0])
  }

  datatype Verdict = Unique(rest: seq<Token>, depth: nat) | Duplicate(name: string) | Unreadable | NotAnObject

  function Scan(ts: seq<Token>, depth: nat, seen: set<string>): Verdict
    decreases |ts|
  {
    if !More(ts) && depth == 0 then Unique(ts, depth)
    else if ts == [] then Unreadable
    else if Opens(ts[0]) then Scan(ts[1..], depth + 1, seen)
    else if Closes(ts[0]) then Scan(ts[1..], depth - 1, seen)
    else if ts[0].Text? && depth == 0 then
      if ts[0].s in seen then Duplicate(ts[0].s)
      else
        var rest := Skip(ts[1..]);
        if rest.None? then Unreadable else Scan(rest.value, depth, seen + {ts[0].s})
    else Scan(ts[1..], depth, seen)
  }

  function Check(ts: seq<Token>): Verdict {
    if ts == [] then Unreadable
    else if ts[0] != BeginObject then NotAnObject
    else Scan(ts[1..], 0, {})
  }

  // ---- The code ----

  class Decoder {
    var rest: seq<Token>

    constructor (tokens: seq<Token>)
      ensures rest == tokens
    {
      rest := tokens;
    }

    method Next() returns (t: Option<Token>)
      modifies this
      ensures t == if old(rest) == [] then None else Some(old(rest)[0])
      ensures rest == if old(rest) == [] then [] else old(rest)[1..]
    {
      if rest == [] {
        return None;
      }
      t := Some(rest[0]);
      rest := rest[1..];
    }
  }

  /** skipValue: one token, or everything up to the closing delimiter that matches it. */
  method SkipValue(dec: Decoder) returns (ok: bool)
    modifies dec
    ensures ok <==> Skip(old(dec.rest)).Some?
    ensures ok ==> dec.rest == Skip(old(dec.rest)).value
    ensures |dec.rest| <= |old(dec.rest)|
  {
    var t := dec.Next();
    if t.None? {
      return false;
    }
    if Opens(t.value) {
      var depth := 1;
      while depth > 0
        invariant depth >= 0 && |dec.rest| < |old(dec.rest)|
        invariant SkipOpen(dec.rest, depth) == Skip(old(dec.rest))
        decreases |dec.rest| + (if depth > 0 then 1 else 0)
      {
        var u := dec.Next();
        if u.None? {
          return false;
        }
        if Opens(u.value) {
          depth := depth + 1;
        } else if Closes(u.value) {
          depth := depth - 1;
        }
      }
    }
    ok := true;
  }

  /** rejectDuplicateKeys, with the depth counter it ends with. */
  method RejectDuplicateKeys(dec: Decoder) returns (v: Verdict)
    modifies dec
    ensures v == Check(old(dec.rest))
  {
    var first := dec.Next();
    if first.None? {
      return Unreadable;
    }
    if first.value != BeginObject {
      return NotAnObject;
    }
    var seen := {};
    var depth := 0;
    while More(dec.rest) || depth > 0
      invariant depth >= 0
      invariant Scan(dec.rest, depth, seen) == Check(old(dec.rest))
      decreases |dec.rest|
    {
      var t := dec.Next();
      if t.None? {
        return Unreadable;
      }
      if Opens(t.value) {
        depth := depth + 1;
        continue;
      }
      if Closes(t.value) {
        depth := depth - 1;
        continue;
      }
      if t.value.Text? && depth == 0 {
        if t.value.s in seen {
          return Duplicate(t.value.s);
        }
        seen := seen + {t.value.s};
        var ok := SkipValue(dec);
        if !ok {
          return Unreadable;
        }
      }
    }
    v := Unique(dec.rest, depth);
  }

  // ---- Values and names ----

  /** Inside open delimiters, a whole value does not change the depth, however deeply it nests. */
  lemma {:induction false} ValueKeepsDepth(v: Value, rest: seq<Token>, depth: nat)
    requires depth > 0
    ensures SkipOpen(Tokens(v) + rest, depth) == SkipOpen(rest, depth)
    decreases v
  {
    var ts := Tokens(v) + rest;
    match v
    case Object(ms) =>
      assert ts[1..] == MemberTokens(ms) + ([EndObject] + rest);
      MembersKeepDepth(ms, [EndObject] + rest, depth + 1);
      assert ([EndObject] + rest)[1..] == rest;
    case Array(vs) =>
      assert ts[1..] == ElementTokens(vs) + ([EndArray] + rest);
      ElementsKeepDepth(vs, [EndArray] + rest, depth + 1);
      assert ([EndArray] + rest)[1..] == rest;
    case String(_) =>
      assert ts[1..] == rest;
    case Literal(_) =>
      assert ts[1..] == rest;
  }

  lemma {:induction false} MembersKeepDepth(ms: seq<Member>, rest: seq<Token>, depth: nat)
    requires depth > 0
    ensures SkipOpen(MemberTokens(ms) + rest, depth) == SkipOpen(rest, depth)
    decreases ms
  {
    if ms == [] {
      assert [] + rest == rest;
    } else {
      var tail := MemberTokens(ms[1..]) + rest;
      assert MemberTokens(ms) + rest == [Text(ms[0].name)] + (Tokens(ms[0].value) + tail);
      assert (MemberTokens(ms) + rest)[1..] == Tokens(ms[0].value) + tail;
      ValueKeepsDepth(ms[0].value, tail, depth);
      MembersKeepDepth(ms[1..], rest, depth);
    }
  }

  lemma {:induction false} ElementsKeepDepth(vs: seq<Value>, rest: seq<Token>, depth: nat)
    requires depth > 0
    ensures SkipOpen(ElementTokens(vs) + rest, depth) == SkipOpen(rest, depth)
    decreases vs
  {
    if vs == [] {
      assert [] + rest == rest;
    } else {
      var tail := ElementTokens(vs[1..]) + rest;
      assert ElementTokens(vs) + rest == Tokens(vs[0]) + tail;
      ValueKeepsDepth(vs[0], tail, depth);
      ElementsKeepDepth(vs[1..], rest, depth);
    }
  }

  /** skipValue consumes exactly one value. */
  lemma SkipsOneValue(v: Value, rest: seq<Token>)
    ensures Skip(Tokens(v) + rest) == Some(rest)
  {
    var ts := Tokens(v) + rest;
    match v
    case Object(ms) =>
      assert ts[1..] == MemberTokens(ms) + ([EndObject] + rest);
      MembersKeepDepth(ms, [EndObject] + rest, 1);
      assert ([EndObject] + rest)[1..] == rest;
    case Array(vs) =>
      assert ts[1..] == ElementTokens(vs) + ([EndArray] + rest);
      ElementsKeepDepth(vs, [EndArray] + rest, 1);
      assert ([EndArray] + rest)[1..] == rest;
    case String(_) =>
      assert ts[1..] == rest;
    case Literal(_) =>
      assert ts[1..] == rest;
  }

  /** The first name that was seen before. */
  function FirstRepeat(ms: seq<Member>, seen: set<string>): Option<string> {
    if ms == [] then None
    else if ms[0].name in seen then Some(ms[0].name)
    else FirstRepeat(ms[1..], seen + {ms[0].name})
  }

  predicate Distinct(ms: seq<Member>) {
    forall i, j :: 0 <= i < j < |ms| ==> ms[i].name != ms[j].name
  }

  lemma {:induction false} NoRepeat(ms: seq<Member>, seen: set<string>)
    ensures FirstRepeat(ms, seen).None? <==> Distinct(ms) && forall i :: 0 <= i < |ms| ==> ms[i].name !in seen
  {
    if ms != [] && ms[0].name !in seen {
      var rest, more := ms[1..], seen + {ms[0].name};
      NoRepeat(rest, more);
      if FirstRepeat(ms, seen).None? {
        forall i, j | 0 <= i < j < |ms| ensures ms[i].name != ms[j].name {
          assert ms[j] == rest[j - 1];
          if i > 0 {
            assert ms[i] == rest[i - 1];
          }
        }
        forall i | 0 <= i < |ms| ensures ms[i].name !in seen {
          if i > 0 {
            assert ms[i] == rest[i - 1];
          }
        }
      }
    }
  }

  lemma {:induction false} ScanMembers(ms: seq<Member>, rest: seq<Token>, seen: set<string>)
    ensures Scan(MemberTokens(ms) + [EndObject] + rest, 0, seen) ==
      match FirstRepeat(ms, seen)
      case None => Unique([EndObject] + rest, 0)
      case Some(name) => Duplicate(name)
  {
    var ts := MemberTokens(ms) + [EndObject] + rest;
    if ms == [] {
      assert ts == [EndObject] + rest;
    } else {
      var tail := MemberTokens(ms[1..]) + [EndObject] + rest;
      assert ts == [Text(ms[0].name)] + (Tokens(ms[0].value) + tail);
      assert ts[1..] == Tokens(ms[0].value) + tail;
      SkipsOneValue(ms[0].value, tail);
      if ms[0].name !in seen {
        ScanMembers(ms[1..], rest, seen + {ms[0].name});
      }
    }
  }

  /**
   * Duplicate names are decided exactly: on the stream of an object, whatever follows it, the check
   * succeeds if and only if the object's own names differ pairwise. It then stops before the
   * closing brace, with the depth still 0, and otherwise it names the first repetition.
   */
  lemma DuplicatesDecided(ms: seq<Member>, rest: seq<Token>)
    ensures Check(Tokens(Object(ms)) + rest).Unique? <==> Distinct(ms)
    ensures Distinct(ms) ==> Check(Tokens(Object(ms)) + rest) == Unique([EndObject] + rest, 0)
    ensures !Distinct(ms) ==>
      FirstRepeat(ms, {}).Some? && Check(Tokens(Object(ms)) + rest) == Duplicate(FirstRepeat(ms, {}).value)
  {
    var ts := Tokens(Object(ms)) + rest;
    assert ts[1..] == MemberTokens(ms) + [EndObject] + rest;
    ScanMembers(ms, rest, {});
    NoRepeat(ms, {});
  }

  /** Any other value is refused. */
  lemma OnlyObjects(v: Value, rest: seq<Token>)
    requires !v.Object?
    ensures Check(Tokens(v) + rest) == NotAnObject
  {
  }

  /** A stream that ends after a complete member is accepted: completeness is left to the decoding that follows. */
  lemma TruncationPasses(ms: seq<Member>)
    requires Distinct(ms)
    ensures Check([BeginObject] + MemberTokens(ms)) == Unique([], 0)
  {
    var ts := [BeginObject] + MemberTokens(ms);
    assert ts[1..] == MemberTokens(ms);
    ScanTruncated(ms, {});
    NoRepeat(ms, {});
  }

  lemma {:induction false} ScanTruncated(ms: seq<Member>, seen: set<string>)
    ensures FirstRepeat(ms, seen).None? ==> Scan(MemberTokens(ms), 0, seen) == Unique([], 0)
  {
    if ms != [] {
      var ts, tail := MemberTokens(ms), MemberTokens(ms[1..]);
      assert ts[1..] == Tokens(ms[0].value) + tail;
      SkipsOneValue(ms[0].value, tail);
      if ms[0].name !in seen {
        ScanTruncated(ms[1..], seen + {ms[0].name});
      }
    }
  }

  // ---- Where a stream may end ----

  /** A stream that ends before the open delimiters have been closed cannot be skipped. */
  lemma {:induction false} SkipOpenCut(ts: seq<Token>, depth: nat, n: nat)
    requires SkipOpen(ts, depth).Some? && n < |ts| - |SkipOpen(ts, depth).value|
    ensures SkipOpen(ts[..n], depth).None?
    decreases |ts|
  {
    if n > 0 {
      assert ts[..n][1..] == ts[1..][..n - 1];
      SkipOpenCut(ts[1..], if Opens(ts[0]) then depth + 1 else if Closes(ts[0]) then depth - 1 else depth, n - 1);
    }
  }

  /** No proper beginning of a value's tokens is skipped as a value. */
  lemma ValueCut(v: Value, n: nat)
    requires n < |Tokens(v)|
    ensures Skip(Tokens(v)[..n]).None?
  {
    var ts := Tokens(v);
    assert ts + [] == ts;
    SkipsOneValue(v, []);
    if n > 0 {
      assert ts[..n][1..] == ts[1..][..n - 1];
      if Opens(ts[0]) {
        SkipOpenCut(ts[1..], 1, n - 1);
      }
    }
  }

  /** The first n tokens of the members are some of the members, complete. */
  ghost predicate AfterMember(ms: seq<Member>, n: nat) {
    exists i :: 0 <= i <= |ms| && n == |MemberTokens(ms[..i])|
  }

  lemma AfterNext(ms: seq<Member>, n: nat)
    requires ms != [] && n > 0
    ensures var next := 1 + |Tokens(ms[0].value)|;
      AfterMember(ms, n) <==> n >= next && AfterMember(ms[1..], n - next)
  {
    var next := 1 + |Tokens(ms[0].value)|;
    forall i | 0 < i <= |ms| ensures |MemberTokens(ms[..i])| == next + |MemberTokens(ms[1..][..i - 1])| {
      assert ms[..i][0] == ms[0] && ms[..i][1..] == ms[1..][..i - 1];
    }
    if n >= next && AfterMember(ms[1..], n - next) {
      var i :| 0 <= i <= |ms[1..]| && n - next == |MemberTokens(ms[1..][..i])|;
      assert n == |MemberTokens(ms[..i + 1])|;
    }
    assert ms[..0] == [];
  }

  lemma {:induction false} ScanCut(ms: seq<Member>, n: nat, seen: set<string>)
    requires FirstRepeat(ms, seen).None? && n <= |MemberTokens(ms)|
    ensures Scan(MemberTokens(ms)[..n], 0, seen) == if AfterMember(ms, n) then Unique([], 0) else Unreadable
  {
    if n == 0 {
      assert n == |MemberTokens(ms[..0])|;
    } else {
      var first, tail, ts := Tokens(ms[0].value), MemberTokens(ms[1..]), MemberTokens(ms)[..n];
      AfterNext(ms, n);
      assert ts[1..] == (first + tail)[..n - 1];
      if n - 1 < |first| {
        assert ts[1..] == first[..n - 1];
        ValueCut(ms[0].value, n - 1);
      } else {
        var m := n - 1 - |first|;
        assert ts[1..] == first + tail[..m];
        SkipsOneValue(ms[0].value, tail[..m]);
        ScanCut(ms[1..], m, seen + {ms[0].name});
      }
    }
  }

  /**
   * Which cut streams pass: of an object with distinct names, those that end right after the opening
   * brace or after a complete member, and the whole; completeness is left to the decoding that
   * follows. Every other cut cannot be read.
   */
  lemma CutDecided(ms: seq<Member>, n: nat)
    requires Distinct(ms) && n <= |Tokens(Object(ms))|
    ensures var whole := Tokens(Object(ms));
      var passes := n == |whole| || (n > 0 && AfterMember(ms, n - 1));
      Check(whole[..n]) == if passes then Unique(if n == |whole| then [EndObject] else [], 0) else Unreadable
  {
    var whole := Tokens(Object(ms));
    if n == |whole| {
      assert whole[..n] == whole + [] && [EndObject] + [] == [EndObject];
      DuplicatesDecided(ms, []);
    } else if n > 0 {
      assert whole[..n][1..] == MemberTokens(ms)[..n - 1];
      NoRepeat(ms, {});
      ScanCut(ms, n - 1, {});
    }
  }
}
