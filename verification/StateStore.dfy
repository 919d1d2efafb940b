/** The persisted intent: a file of key=value lines that is replaced as a whole. */
module StateStore {
  import opened Wrappers
  import opened Text

  type Int64 = n: int | -TWO_63 <= n < TWO_63

  datatype State = State(
    protocol: string, profile: string, desired: string, mode: string, testToken: string, testDeadline: Int64)

  datatype ReadError = Absent | Unreadable | LineTooLong | UnknownProtocol(name: string) | MissingProfile

  /** The protocol that an alias stands for. */
  function CanonicalProtocol(s: string): Option<string> {
    if s == "amneziawg" || s == "amnezia" || s == "awg" then Some("amneziawg")
    else if s == "wireguard" || s == "wire" || s == "wg" then Some("wireguard")
    else if s == "openvpn" || s == "open" || s == "ovpn" then Some("openvpn")
    else if s == "l2tp" || s == "ltp" then Some("l2tp")
    else None
  }

  // ---- The last element of a path ----

  function TrimSlashes(path: string): string {
    if path != "" && path[|path| - 1] == '/' then TrimSlashes(path[..|path| - 1]) else path
  }

  function AfterLastSlash(path: string): string {
    if path == "" then ""
    else if path[|path| - 1] == '/' then ""
    else AfterLastSlash(path[..|path| - 1]) + [path[|path| - 1]]
  }

  function Base(path: string): string {
    if path == "" then "."
    else if TrimSlashes(path) == "" then "/"
    else AfterLastSlash(TrimSlashes(path))
  }

  lemma {:induction false} AfterLastSlashHasNone(path: string)
    ensures '/' !in AfterLastSlash(path)
    ensures '/' !in path ==> AfterLastSlash(path) == path
    ensures path != "" && path[|path| - 1] != '/' ==> AfterLastSlash(path) != ""
  {
    if path != "" && path[|path| - 1] != '/' {
      AfterLastSlashHasNone(path[..|path| - 1]);
      assert path[..|path| - 1] + [path[|path| - 1]] == path;
    }
  }

  lemma {:induction false} TrimSlashesEnd(path: string)
    ensures TrimSlashes(path) != "" ==> TrimSlashes(path)[|TrimSlashes(path)| - 1] != '/'
  {
    if path != "" && path[|path| - 1] == '/' {
      TrimSlashesEnd(path[..|path| - 1]);
    }
  }

  /** A base name is never empty, and it is its own base name. */
  lemma BaseOfBase(path: string)
    ensures Base(path) != "" && Base(Base(path)) == Base(path)
  {
    TrimSlashesEnd(path);
    AfterLastSlashHasNone(TrimSlashes(path));
    var b := Base(path);
    AfterLastSlashHasNone(b);
    if b == "/" {
      assert b[..0] == "";
      assert TrimSlashes(b) == TrimSlashes(b[..0]);
    }
  }

  lemma {:induction false} SlashesTrimmed(path: string, slashes: string)
    requires forall i :: 0 <= i < |slashes| ==> slashes[i] == '/'
    ensures TrimSlashes(path + slashes) == TrimSlashes(path)
  {
    if slashes == "" {
      assert path + slashes == path;
    } else {
      SlashesTrimmed(path, slashes[..|slashes| - 1]);
      assert (path + slashes)[..|path + slashes| - 1] == path + slashes[..|slashes| - 1];
    }
  }

  lemma {:induction false} LastElement(dir: string, name: string)
    requires '/' !in name && (dir == "" || dir[|dir| - 1] == '/')
    ensures AfterLastSlash(dir + name) == name
  {
    if name == "" {
      assert dir + name == dir;
    } else {
      LastElement(dir, name[..|name| - 1]);
      assert (dir + name)[..|dir + name| - 1] == dir + name[..|name| - 1];
    }
  }

  /**
   * The base name is the last element of the path, whatever directory stands before it and however
   * many slashes after it; of slashes alone it is one, and of nothing a dot.
   */
  lemma BaseExactly(dir: string, name: string, slashes: string)
    requires '/' !in name && (dir == "" || dir[|dir| - 1] == '/')
    requires forall i :: 0 <= i < |slashes| ==> slashes[i] == '/'
    ensures name != "" ==> Base(dir + name + slashes) == name
    ensures slashes != "" ==> Base(slashes) == "/"
    ensures Base("") == "."
  {
    SlashesTrimmed("", slashes);
    assert "" + slashes == slashes;
    SlashesTrimmed(dir + name, slashes);
    LastElement(dir, name);
    if name != "" {
      assert (dir + name)[|dir + name| - 1] == name[|name| - 1];
    }
  }

  // ---- Writing ----

  function EffectiveMode(mode: string): string {
    if mode == "" then "normal" else mode
  }

  function TestPairs(st: State): seq<Pair> {
    if EffectiveMode(st.mode) == "test"
    then [("TEST_TOKEN", st.testToken), ("TEST_DEADLINE", SignedDecimal(st.testDeadline))]
    else []
  }

  function StatePairs(st: State): seq<Pair> {
    [("PROTOCOL", st.protocol), ("PROFILE", Base(st.profile)), ("DESIRED", st.desired),
     ("MODE", EffectiveMode(st.mode))] + TestPairs(st)
  }

  function StateText(st: State): string {
    PairText(StatePairs(st))
  }

  // ---- Reading ----

  /** Every key with the last value given for it. */
  function Latest(ps: seq<Pair>): map<string, string> {
    if ps == [] then map[] else Latest(ps[..|ps| - 1])[ps[|ps| - 1].0 := ps[|ps| - 1].1]
  }

  function Lookup(kv: map<string, string>, key: string): string {
    if key in kv then kv[key] else ""
  }

  function StateOf(kv: map<string, string>): Result<State, ReadError> {
    var proto := CanonicalProtocol(Lookup(kv, "PROTOCOL"));
    if proto.None? then Err(UnknownProtocol(Lookup(kv, "PROTOCOL")))
    else if Lookup(kv, "PROFILE") == "" then Err(MissingProfile)
    else
      var mode := EffectiveMode(Lookup(kv, "MODE"));
      var deadline := ParseInt64(Lookup(kv, "TEST_DEADLINE"));
      Ok(State(proto.value, Lookup(kv, "PROFILE"), Lookup(kv, "DESIRED"), mode,
               if mode == "test" then Lookup(kv, "TEST_TOKEN") else "",
               if mode == "test" && deadline.Some? then deadline.value else 0))
  }

  /** What the keys must say for there to be a state, and what is missing otherwise. */
  lemma StateDecided(kv: map<string, string>)
    ensures StateOf(kv).Ok? <==>
      CanonicalProtocol(Lookup(kv, "PROTOCOL")).Some? && "PROFILE" in kv && kv["PROFILE"] != ""
    ensures StateOf(kv).Err? ==>
      StateOf(kv).error ==
        if CanonicalProtocol(Lookup(kv, "PROTOCOL")).None? then UnknownProtocol(Lookup(kv, "PROTOCOL"))
        else MissingProfile
    ensures StateOf(kv).Ok? ==>
      var st, mode := StateOf(kv).value, Lookup(kv, "MODE");
      && CanonicalProtocol(Lookup(kv, "PROTOCOL")) == Some(st.protocol) && st.profile == kv["PROFILE"]
      && st.desired == Lookup(kv, "DESIRED") && st.mode == (if mode == "" then "normal" else mode)
      && (mode == "test" ==> st.testToken == Lookup(kv, "TEST_TOKEN"))
      && (mode == "test" && ParseInt64(Lookup(kv, "TEST_DEADLINE")).Some? ==>
            st.testDeadline == ParseInt64(Lookup(kv, "TEST_DEADLINE")).value)
      && (mode != "test" ==> st.testToken == "" && st.testDeadline == 0)
      && (ParseInt64(Lookup(kv, "TEST_DEADLINE")).None? ==> st.testDeadline == 0)
  {
  }

  /** A line that the scanner cannot hold is an error, whatever the lines before it said. */
  function StateRead(text: string): Result<State, ReadError> {
    if !Scannable(text) then Err(LineTooLong) else StateOf(Latest(Pairs(Lines(text))))
  }

  /** The intent that a file stands for. */
  function Intent(file: Option<string>): Result<State, ReadError> {
    if file.None? then Err(Absent) else StateRead(file.value)
  }

  /** What a reader gets from a disk that may fail to deliver the file. */
  function Answer(file: Option<string>, readable: bool): Result<State, ReadError> {
    if readable then Intent(file) else Err(Unreadable)
  }

  /** Where a write can fail: before the new file replaces the old one, or only in making that durable. */
  datatype Fault = NoFault | BeforeRename | AfterRename

  predicate Accepted(st: State) {
    st.protocol != "" && st.profile != ""
  }

  class Store {
    var file: Option<string>

    constructor ()
      ensures file == None
    {
      file := None;
    }

    /** Builds the text line by line and replaces the file; an error may come after the replacement. */
    method Write(st: State, fault: Fault) returns (ok: bool)
      modifies this
      ensures ok <==> Accepted(st) && fault == NoFault
      ensures file == if Accepted(st) && fault != BeforeRename then Some(StateText(st)) else old(file)
    {
      if st.protocol == "" || st.profile == "" {
        return false;
      }
      var mode := if st.mode == "" then "normal" else st.mode;
      var b := Put("", "PROTOCOL", st.protocol);
      b := Put(b, "PROFILE", Base(st.profile));
      b := Put(b, "DESIRED", st.desired);
      b := Put(b, "MODE", mode);
      if mode == "test" {
        b := Put(b, "TEST_TOKEN", st.testToken);
        b := Put(b, "TEST_DEADLINE", SignedDecimal(st.testDeadline));
      }
      WrittenText(st);
      if fault != BeforeRename {
        file := Some(b);
      }
      ok := fault == NoFault;
    }

    /** Scans the lines into a map and picks the fields out of it. */
    method Read(readable: bool) returns (r: Result<State, ReadError>)
      ensures r == Answer(file, readable)
    {
      if !readable {
        return Err(Unreadable);
      }
      if file.None? {
        return Err(Absent);
      }
      var lines := Scanned(file.value);
      var kv: map<string, string> := map[];
      for i := 0 to |lines|
        invariant kv == Latest(Pairs(lines[..i]))
      {
        PairsOfMore(lines, i);
        ghost var before := Pairs(lines[..i]);
        var equals := IndexOf(lines[i], '=');
        if equals.None? {
          continue;
        }
        LatestMore(before, SplitPair(lines[i]).value);
        kv := kv[lines[i][..equals.value] := lines[i][equals.value + 1..]];
      }
      if !Scannable(file.value) {
        return Err(LineTooLong);
      }
      ScannableIsScanned(file.value);
      assert lines[..|lines|] == lines;
      r := StateOf(kv);
    }

    /** Changes DESIRED and keeps the rest, as it is read. */
    method SetDesired(desired: string, readable: bool, fault: Fault) returns (ok: bool)
      modifies this
      ensures ok <==> Answer(old(file), readable).Ok? && fault == NoFault
      ensures file == if Answer(old(file), readable).Ok? && fault != BeforeRename
        then Some(StateText(Intent(old(file)).value.(desired := desired))) else old(file)
    {
      var st := Read(readable);
      if st.Err? {
        return false;
      }
      BaseOfBase(st.value.profile);
      ok := Write(st.value.(desired := desired), fault);
    }
  }

  /** The lines one after the other are the text of the pairs. */
  lemma WrittenText(st: State)
    ensures StateText(st) ==
      var head := Put(Put(Put(Put("", "PROTOCOL", st.protocol), "PROFILE", Base(st.profile)), "DESIRED", st.desired),
                      "MODE", EffectiveMode(st.mode));
      if EffectiveMode(st.mode) == "test"
      then Put(Put(head, "TEST_TOKEN", st.testToken), "TEST_DEADLINE", SignedDecimal(st.testDeadline)) else head
  {
    var p1, p2, p3, p4 := ("PROTOCOL", st.protocol), ("PROFILE", Base(st.profile)), ("DESIRED", st.desired),
      ("MODE", EffectiveMode(st.mode));
    PutAppends("", [], p1.0, p1.1);
    assert [] + [p1] == [p1] && "" + PairText([]) == "";
    PutAppends("", [p1], p2.0, p2.1);
    PutAppends("", [p1, p2], p3.0, p3.1);
    PutAppends("", [p1, p2, p3], p4.0, p4.1);
    var four := [p1, p2, p3, p4];
    assert [p1] + [p2] == [p1, p2] && [p1, p2] + [p3] == [p1, p2, p3] && [p1, p2, p3] + [p4] == four;
    if EffectiveMode(st.mode) == "test" {
      var p5, p6 := ("TEST_TOKEN", st.testToken), ("TEST_DEADLINE", SignedDecimal(st.testDeadline));
      PutAppends("", four, p5.0, p5.1);
      PutAppends("", four + [p5], p6.0, p6.1);
      assert four + [p5] + [p6] == StatePairs(st);
    } else {
      assert four + [] == four;
    }
    assert "" + PairText(StatePairs(st)) == PairText(StatePairs(st));
  }

  lemma PairsOfMore(lines: seq<string>, i: nat)
    requires i < |lines|
    ensures Pairs(lines[..i + 1]) ==
      if SplitPair(lines[i]).Some? then Pairs(lines[..i]) + [SplitPair(lines[i]).value] else Pairs(lines[..i])
  {
    assert Pairs([lines[i]]) == if SplitPair(lines[i]).Some? then [SplitPair(lines[i]).value] else [];
    PairsOfSum(lines[..i], [lines[i]]);
    assert lines[..i + 1] == lines[..i] + [lines[i]];
  }

  lemma {:induction false} PairsOfSum(a: seq<string>, b: seq<string>)
    ensures Pairs(a + b) == Pairs(a) + Pairs(b)
  {
    if a == [] {
      assert a + b == b;
    } else {
      PairsOfSum(a[1..], b);
      assert (a + b)[1..] == a[1..] + b;
      var first := SplitPair(a[0]);
      assert first.Some? ==> [first.value] + Pairs(a[1..]) + Pairs(b) == [first.value] + (Pairs(a[1..]) + Pairs(b));
    }
  }

  lemma LatestMore(ps: seq<Pair>, p: Pair)
    ensures Latest(ps + [p]) == Latest(ps)[p.0 := p.1]
  {
    assert (ps + [p])[..|ps|] == ps;
  }

  // ---- What comes back ----

  /** The state as a reader gets it: canonical protocol, base name, explicit mode, test fields in test mode only. */
  function Normalize(st: State): (n: State)
    requires CanonicalProtocol(st.protocol).Some?
    ensures Some(n.protocol) == CanonicalProtocol(st.protocol) && n.profile == Base(st.profile)
    ensures n.desired == st.desired && n.mode == if st.mode == "" then "normal" else st.mode
    ensures st.mode == "test" ==> n.testToken == st.testToken && n.testDeadline == st.testDeadline
    ensures st.mode != "test" ==> n.testToken == "" && n.testDeadline == 0
  {
    var mode := EffectiveMode(st.mode);
    State(CanonicalProtocol(st.protocol).value, Base(st.profile), st.desired, mode,
          if mode == "test" then st.testToken else "", if mode == "test" then st.testDeadline else 0)
  }

  /** A text that a line can carry as the value of a key, on a line that the scanner can hold. */
  predicate Storable(key: string, s: string) {
    '\n' !in s && DropCr(s) == s && PairFits((key, s))
  }

  predicate Faithful(st: State) {
    && Storable("PROFILE", Base(st.profile)) && Storable("DESIRED", st.desired)
    && Storable("MODE", EffectiveMode(st.mode))
    && (EffectiveMode(st.mode) == "test" ==> Storable("TEST_TOKEN", st.testToken))
  }

  /** The aliases of the four protocols, and nothing else, are understood. */
  lemma AliasesExactly(name: string)
    ensures CanonicalProtocol(name) == Some("amneziawg") <==> name in {"amneziawg", "amnezia", "awg"}
    ensures CanonicalProtocol(name) == Some("wireguard") <==> name in {"wireguard", "wire", "wg"}
    ensures CanonicalProtocol(name) == Some("openvpn") <==> name in {"openvpn", "open", "ovpn"}
    ensures CanonicalProtocol(name) == Some("l2tp") <==> name in {"l2tp", "ltp"}
    ensures CanonicalProtocol(name).Some? ==>
      CanonicalProtocol(name).value in {"amneziawg", "wireguard", "openvpn", "l2tp"}
  {
  }

  lemma CanonicalOnce(name: string)
    requires CanonicalProtocol(name).Some?
    ensures var canonical := CanonicalProtocol(name).value;
      canonical != "" && CanonicalProtocol(canonical) == Some(canonical)
  {
  }

  lemma NormalizeOnce(st: State)
    requires CanonicalProtocol(st.protocol).Some?
    ensures CanonicalProtocol(Normalize(st).protocol).Some? && Normalize(Normalize(st)) == Normalize(st)
  {
    CanonicalOnce(st.protocol);
    BaseOfBase(st.profile);
  }

  /** What a reader finds under each key of a written state. */
  predicate Finds(kv: map<string, string>, st: State) {
    && Lookup(kv, "PROTOCOL") == DropCr(st.protocol) && Lookup(kv, "PROFILE") == DropCr(Base(st.profile))
    && Lookup(kv, "DESIRED") == DropCr(st.desired) && Lookup(kv, "MODE") == DropCr(EffectiveMode(st.mode))
    && (EffectiveMode(st.mode) == "test" ==>
          && Lookup(kv, "TEST_TOKEN") == DropCr(st.testToken)
          && Lookup(kv, "TEST_DEADLINE") == SignedDecimal(st.testDeadline))
    && (EffectiveMode(st.mode) != "test" ==> "TEST_TOKEN" !in kv && "TEST_DEADLINE" !in kv)
  }

  predicate NoNewline(st: State) {
    && '\n' !in st.protocol && '\n' !in Base(st.profile) && '\n' !in st.desired && '\n' !in EffectiveMode(st.mode)
    && (EffectiveMode(st.mode) == "test" ==> '\n' !in st.testToken)
  }

  /** The lines of the fields that are not of a fixed form are short enough. */
  predicate LinesFit(st: State) {
    && PairFits(("PROFILE", Base(st.profile))) && PairFits(("DESIRED", st.desired))
    && PairFits(("MODE", EffectiveMode(st.mode)))
    && (EffectiveMode(st.mode) == "test" ==> PairFits(("TEST_TOKEN", st.testToken)))
  }

  lemma NumeralsArePlain(n: Int64)
    ensures '\n' !in SignedDecimal(n) && DropCr(SignedDecimal(n)) == SignedDecimal(n)
  {
    var m: int := n;
    var digits := Decimal(if m < 0 then -m else m);
    assert digits[|digits| - 1] in digits;
    assert SignedDecimal(n)[|SignedDecimal(n)| - 1] == digits[|digits| - 1];
  }

  lemma LatestOfFour(p1: Pair, p2: Pair, p3: Pair, p4: Pair)
    ensures Latest([p1, p2, p3, p4]) == map[][p1.0 := p1.1][p2.0 := p2.1][p3.0 := p3.1][p4.0 := p4.1]
  {
    assert [] + [p1] == [p1] && [p1] + [p2] == [p1, p2];
    assert [p1, p2] + [p3] == [p1, p2, p3] && [p1, p2, p3] + [p4] == [p1, p2, p3, p4];
    LatestMore([], p1);
    LatestMore([p1], p2);
    LatestMore([p1, p2], p3);
    LatestMore([p1, p2, p3], p4);
  }

  lemma PairsAreLines(st: State)
    requires NoNewline(st)
    ensures forall i :: 0 <= i < |StatePairs(st)| ==> OneLine(StatePairs(st)[i])
  {
    NumeralsArePlain(st.testDeadline);
  }

  /** The keys of the file are different from one another. */
  lemma KeysApart(protocol: string, profile: string, desired: string, mode: string, token: string, deadline: string)
    ensures var four := map[]["PROTOCOL" := protocol]["PROFILE" := profile]["DESIRED" := desired]["MODE" := mode];
      var six := four["TEST_TOKEN" := token]["TEST_DEADLINE" := deadline];
      && Lookup(four, "PROTOCOL") == Lookup(six, "PROTOCOL") == protocol
      && Lookup(four, "PROFILE") == Lookup(six, "PROFILE") == profile
      && Lookup(four, "DESIRED") == Lookup(six, "DESIRED") == desired
      && Lookup(four, "MODE") == Lookup(six, "MODE") == mode
      && Lookup(six, "TEST_TOKEN") == token && Lookup(six, "TEST_DEADLINE") == deadline
      && "TEST_TOKEN" !in four && "TEST_DEADLINE" !in four
  {
  }

  /** The first four pairs as they are read. */
  function FourRead(st: State): seq<Pair> {
    [("PROTOCOL", DropCr(st.protocol)), ("PROFILE", DropCr(Base(st.profile))), ("DESIRED", DropCr(st.desired)),
     ("MODE", DropCr(EffectiveMode(st.mode)))]
  }

  function SixRead(st: State): seq<Pair> {
    FourRead(st) + [("TEST_TOKEN", DropCr(st.testToken))] + [("TEST_DEADLINE", SignedDecimal(st.testDeadline))]
  }

  lemma ReadFieldsAreFound(st: State)
    ensures EffectiveMode(st.mode) != "test" ==> Finds(Latest(FourRead(st)), st)
    ensures EffectiveMode(st.mode) == "test" ==> Finds(Latest(SixRead(st)), st)
  {
    var four, token, deadline := FourRead(st), DropCr(st.testToken), SignedDecimal(st.testDeadline);
    LatestOfFour(four[0], four[1], four[2], four[3]);
    LatestMore(four, ("TEST_TOKEN", token));
    LatestMore(four + [("TEST_TOKEN", token)], ("TEST_DEADLINE", deadline));
    KeysApart(DropCr(st.protocol), DropCr(Base(st.profile)), DropCr(st.desired), DropCr(EffectiveMode(st.mode)),
      token, deadline);
  }

  lemma PairsAsRead(st: State)
    ensures AsRead(StatePairs(st)) == if EffectiveMode(st.mode) == "test" then SixRead(st) else FourRead(st)
  {
    NumeralsArePlain(st.testDeadline);
  }

  lemma ReadPairsFind(st: State)
    ensures Finds(Latest(AsRead(StatePairs(st))), st)
  {
    PairsAsRead(st);
    ReadFieldsAreFound(st);
  }

  lemma ShortLine(key: string, val: string)
    requires |key| + Size(val) < 1000
    ensures PairFits((key, val))
  {
    SizeOfSum(key + "=", val);
  }

  predicate AllFit(ps: seq<Pair>) {
    forall i :: 0 <= i < |ps| ==> PairFits(ps[i])
  }

  lemma EachFits(p1: Pair, p2: Pair, p3: Pair, p4: Pair, rest: seq<Pair>)
    ensures AllFit([p1, p2, p3, p4] + rest) <==>
      PairFits(p1) && PairFits(p2) && PairFits(p3) && PairFits(p4) && AllFit(rest)
  {
    var ps := [p1, p2, p3, p4] + rest;
    assert ps[0] == p1 && ps[1] == p2 && ps[2] == p3 && ps[3] == p4;
    assert forall i :: 0 <= i < |rest| ==> rest[i] == ps[i + 4];
  }

  lemma BothFit(p: Pair, q: Pair)
    ensures AllFit([p, q]) <==> PairFits(p) && PairFits(q)
  {
    assert [p, q][0] == p && [p, q][1] == q;
  }

  /** The scanner holds every line exactly when it holds the lines of the free fields. */
  lemma LinesThatFit(st: State)
    requires CanonicalProtocol(st.protocol).Some?
    ensures AllFit(StatePairs(st)) <==> LinesFit(st)
  {
    EachFits(("PROTOCOL", st.protocol), ("PROFILE", Base(st.profile)), ("DESIRED", st.desired),
      ("MODE", EffectiveMode(st.mode)), TestPairs(st));
    BothFit(("TEST_TOKEN", st.testToken), ("TEST_DEADLINE", SignedDecimal(st.testDeadline)));
    ShortLine("PROTOCOL", st.protocol);
    SignedDecimalIsShort(st.testDeadline);
    ShortLine("TEST_DEADLINE", SignedDecimal(st.testDeadline));
  }

  lemma WrittenIsRead(st: State)
    requires NoNewline(st)
    ensures Pairs(Lines(StateText(st))) == AsRead(StatePairs(st))
    ensures Scannable(StateText(st)) <==> AllFit(StatePairs(st))
  {
    PairsAreLines(st);
    PairsOfPairText(StatePairs(st));
  }

  lemma CanonicalIsPlain(name: string)
    requires CanonicalProtocol(name).Some?
    ensures '\n' !in name && DropCr(name) == name
  {
  }

  lemma ReadHasNoNewline(text: string, key: string)
    ensures '\n' !in Lookup(Latest(Pairs(Lines(text))), key)
  {
    LinesHoldNoNewline(text);
    ReadValues(Lines(text));
    LatestValues(Pairs(Lines(text)), key);
  }

  lemma {:induction false} LatestValues(ps: seq<Pair>, key: string)
    requires forall p :: p in ps ==> '\n' !in p.1
    ensures '\n' !in Lookup(Latest(ps), key)
  {
    if ps != [] {
      LatestValues(ps[..|ps| - 1], key);
    }
  }

  lemma StateFound(st: State, kv: map<string, string>)
    requires Accepted(st) && CanonicalProtocol(st.protocol).Some? && NoNewline(st) && Finds(kv, st)
    ensures LinesFit(st) ==> (StateOf(kv) == Ok(Normalize(st)) <==> Faithful(st))
    ensures !LinesFit(st) ==> !Faithful(st)
  {
    CanonicalIsPlain(st.protocol);
    BaseOfBase(st.profile);
    ParseInt64OfSigned(st.testDeadline);
  }

  lemma BrokenLines(text: string, st: State)
    requires CanonicalProtocol(st.protocol).Some? && !NoNewline(st)
    ensures StateRead(text) != Ok(Normalize(st))
  {
    CanonicalIsPlain(st.protocol);
    ReadHasNoNewline(text, "PROFILE");
    ReadHasNoNewline(text, "DESIRED");
    ReadHasNoNewline(text, "MODE");
    ReadHasNoNewline(text, "TEST_TOKEN");
  }

  /** The text has the fields of the state, and the scanner holds it if the free fields are short enough. */
  predicate Holds(text: string, st: State) {
    Finds(Latest(Pairs(Lines(text))), st) && (Scannable(text) <==> LinesFit(st))
  }

  lemma TextHolds(st: State)
    requires NoNewline(st) && CanonicalProtocol(st.protocol).Some?
    ensures Holds(StateText(st), st)
  {
    WrittenIsRead(st);
    LinesThatFit(st);
    ReadPairsFind(st);
  }

  lemma ReadOf(text: string, st: State)
    requires Accepted(st) && CanonicalProtocol(st.protocol).Some? && NoNewline(st) && Holds(text, st)
    ensures StateRead(text) == Ok(Normalize(st)) <==> Faithful(st)
  {
    StateFound(st, Latest(Pairs(Lines(text))));
  }

  /**
   * Reading what was written gives the normalized state if and only if no field has a newline in it
   * or a carriage return at its end, and no line is too long for the scanner.
   */
  lemma ReadAfterWrite(st: State)
    requires Accepted(st) && CanonicalProtocol(st.protocol).Some?
    ensures StateRead(StateText(st)) == Ok(Normalize(st)) <==> Faithful(st)
  {
    if NoNewline(st) {
      TextHolds(st);
      ReadOf(StateText(st), st);
    } else {
      BrokenLines(StateText(st), st);
      BrokenIsUnfaithful(st);
    }
  }

  lemma BrokenIsUnfaithful(st: State)
    requires CanonicalProtocol(st.protocol).Some? && !NoNewline(st)
    ensures !Faithful(st)
  {
    CanonicalIsPlain(st.protocol);
  }

  /** A state that is its own reading: what every faithful write leaves behind. */
  predicate Settled(st: State) {
    CanonicalProtocol(st.protocol) == Some(st.protocol) && Faithful(st) && Normalize(st) == st && Accepted(st)
  }

  /** Whatever can be read from the file is settled. */
  predicate SettledFile(file: Option<string>) {
    Intent(file).Ok? ==> Settled(Intent(file).value)
  }

  lemma FaithfulTwin(a: State, b: State)
    requires Faithful(a) && Base(a.profile) == Base(b.profile) && a.desired == b.desired
    requires EffectiveMode(a.mode) == EffectiveMode(b.mode)
    requires EffectiveMode(a.mode) == "test" ==> a.testToken == b.testToken
    ensures Faithful(b)
  {
  }

  lemma NormalizedIsSettled(st: State)
    requires Accepted(st) && CanonicalProtocol(st.protocol).Some? && Faithful(st)
    ensures Settled(Normalize(st))
  {
    NormalizeOnce(st);
    BaseOfBase(st.profile);
    FaithfulTwin(st, Normalize(st));
  }

  /** A faithful write is read back as the normalized state, which is settled. */
  lemma FaithfulWrite(st: State)
    requires Accepted(st) && CanonicalProtocol(st.protocol).Some? && Faithful(st)
    ensures Intent(Some(StateText(st))) == Ok(Normalize(st)) && Settled(Normalize(st))
  {
    ReadAfterWrite(st);
    NormalizedIsSettled(st);
  }

  lemma {:induction false} BaseIsShort(path: string)
    requires path != ""
    ensures |Base(path)| <= |path|
  {
    TrimSlashesShort(path);
    AfterLastSlashShort(TrimSlashes(path));
  }

  lemma {:induction false} TrimSlashesShort(path: string)
    ensures |TrimSlashes(path)| <= |path|
  {
    if path != "" && path[|path| - 1] == '/' {
      TrimSlashesShort(path[..|path| - 1]);
    }
  }

  lemma {:induction false} AfterLastSlashShort(path: string)
    ensures |AfterLastSlash(path)| <= |path|
  {
    if path != "" && path[|path| - 1] != '/' {
      AfterLastSlashShort(path[..|path| - 1]);
    }
  }

  /** A state that was read: what it is in any case, settled or not. */
  predicate Readable(st: State) {
    && CanonicalProtocol(st.protocol) == Some(st.protocol) && Accepted(st) && st.mode != ""
    && '\n' !in st.profile && '\n' !in st.desired && '\n' !in st.mode && '\n' !in st.testToken
    && (st.mode != "test" ==> st.testToken == "" && st.testDeadline == 0)
  }

  lemma FieldsReadable(kv: map<string, string>)
    requires StateOf(kv).Ok?
    requires '\n' !in Lookup(kv, "PROFILE") && '\n' !in Lookup(kv, "DESIRED")
    requires '\n' !in Lookup(kv, "MODE") && '\n' !in Lookup(kv, "TEST_TOKEN")
    ensures Readable(StateOf(kv).value)
  {
    CanonicalOnce(Lookup(kv, "PROTOCOL"));
  }

  lemma ReadStates(text: string)
    requires StateRead(text).Ok?
    ensures Readable(StateRead(text).value)
  {
    ReadHasNoNewline(text, "PROFILE");
    ReadHasNoNewline(text, "DESIRED");
    ReadHasNoNewline(text, "MODE");
    ReadHasNoNewline(text, "TEST_TOKEN");
    FieldsReadable(Latest(Pairs(Lines(text))));
  }

  lemma BaseLines(path: string)
    requires '\n' !in path
    ensures '\n' !in Base(path)
  {
    TrimSlashesPart(path);
    AfterLastSlashPart(TrimSlashes(path));
  }

  lemma {:induction false} TrimSlashesPart(path: string)
    ensures forall c :: c in TrimSlashes(path) ==> c in path
  {
    if path != "" && path[|path| - 1] == '/' {
      TrimSlashesPart(path[..|path| - 1]);
    }
  }

  lemma {:induction false} AfterLastSlashPart(path: string)
    ensures forall c :: c in AfterLastSlash(path) ==> c in path
  {
    if path != "" && path[|path| - 1] != '/' {
      AfterLastSlashPart(path[..|path| - 1]);
    }
  }

  /** Fields found and put together are the state itself only if the line ends and the base name are. */
  lemma FoundItself(st: State, kv: map<string, string>)
    requires Readable(st) && NoNewline(st) && Finds(kv, st) && LinesFit(st) && StateOf(kv) == Ok(st)
    ensures Settled(st)
  {
    BaseIsShort(st.profile);
    CanonicalIsPlain(st.protocol);
    assert DropCr(Base(st.profile)) == st.profile;
  }

  lemma ReadItself(text: string, st: State)
    requires Readable(st) && NoNewline(st) && Holds(text, st) && StateRead(text) == Ok(st)
    ensures Settled(st)
  {
    FoundItself(st, Latest(Pairs(Lines(text))));
  }

  /** A state that was read and is written again is read as the same if and only if it is settled. */
  lemma WrittenAgain(st: State)
    requires Readable(st)
    ensures StateRead(StateText(st)) == Ok(st) <==> Settled(st)
  {
    if Settled(st) {
      ReadAfterWrite(st);
    } else if StateRead(StateText(st)) == Ok(st) {
      ReadableLines(st);
      TextHolds(st);
      ReadItself(StateText(st), st);
    }
  }

  lemma ReadableLines(st: State)
    requires Readable(st)
    ensures NoNewline(st)
  {
    BaseLines(st.profile);
    CanonicalIsPlain(st.protocol);
  }

  /** Writing a settled state again, with another DESIRED if it is storable, changes nothing else. */
  lemma SettledWrite(st: State, desired: string)
    requires Settled(st) && Storable("DESIRED", desired)
    ensures Intent(Some(StateText(st.(desired := desired)))) == Ok(st.(desired := desired))
    ensures Settled(st.(desired := desired))
  {
    var changed := st.(desired := desired);
    assert Normalize(changed) == Normalize(st).(desired := desired);
    FaithfulWrite(changed);
  }
}
