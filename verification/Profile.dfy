/** The configuration file parser: sections of `key = value` lines, read in one pass. */
module Profile {
  import opened Wrappers
  import opened Text

  datatype Peer = Peer(
    publicKey: string, presharedKey: string, endpoint: string, allowedIps: seq<string>, keepalive: int)

  datatype Config = Config(
    privateKey: string, addresses: seq<string>, dns: seq<string>, mtu: int, listenPort: int, fwMark: nat,
    amnezia: map<string, string>, hasAmnezia: bool, peers: seq<Peer>)

  const EMPTY_PEER := Peer("", "", "", [], 0)
  const EMPTY_CONFIG := Config("", [], [], 0, 0, 0, map[], false, [])

  /** The obfuscation keys, in the order in which they are written to the engine. */
  const AMNEZIA_KEYS: seq<string> := [
    "jc", "jmin", "jmax", "s1", "s2", "s3", "s4", "h1", "h2", "h3", "h4", "i1", "i2", "i3", "i4", "i5",
    "header_protection_key", "content_padding_addition", "random_trailers", "disable_cookies"]

  function AmneziaKeySet(): set<string> {
    set k | k in AMNEZIA_KEYS
  }

  datatype ParseError =
    | MalformedLine(line: string)
    | ExecutableDirective(key: string)
    | EmptyAmneziaValue(key: string)
    | UnknownInterfaceKey(key: string)
    | UnknownPeerKey(key: string)
    | PeerKeyBeforePeer(key: string)
    | OutsideSection(key: string)
    | InvalidNumber(name: string, value: string)
    | LineTooLong

  predicate Executable(key: string) {
    key == "preup" || key == "postup" || key == "predown" || key == "postdown"
  }

  /** FwMark: decimal, or hexadecimal after 0x, in 32 bits. */
  function ParseFwMark(val: string): (r: Result<nat, ParseError>)
    ensures r.Ok? ==> r.value < TWO_32
  {
    var v := Trim(val);
    var hex := |v| >= 2 && v[0] == '0' && (v[1] == 'x' || v[1] == 'X');
    var n := if hex then ParseUint32(v[2..], 16) else ParseUint32(v, 10);
    if n.Some? then Ok(n.value) else Err(InvalidNumber("FwMark", val))
  }

  function IntField(name: string, val: string): (r: Result<int, ParseError>)
    ensures r.Ok? ==> -TWO_63 <= r.value < TWO_63
  {
    var n := ParseInt64(Trim(val));
    if n.Some? then Ok(n.value) else Err(InvalidNumber(name, val))
  }

  function SetInterface(c: Config, key: string, val: string): Result<Config, ParseError> {
    match key
    case "privatekey" => Ok(c.(privateKey := val))
    case "address" => Ok(c.(addresses := c.addresses + SplitList(val)))
    case "dns" => Ok(c.(dns := c.dns + SplitList(val)))
    case "mtu" =>
      var n := IntField("MTU", val);
      if n.Ok? then Ok(c.(mtu := n.value)) else Err(n.error)
    case "listenport" =>
      var n := IntField("ListenPort", val);
      if n.Ok? then Ok(c.(listenPort := n.value)) else Err(n.error)
    case "fwmark" =>
      var n := ParseFwMark(val);
      if n.Ok? then Ok(c.(fwMark := n.value)) else Err(n.error)
    case _ =>
      if key !in AmneziaKeySet() then Err(UnknownInterfaceKey(key))
      else if val == "" then Err(EmptyAmneziaValue(key))
      else Ok(c.(hasAmnezia := true, amnezia := c.amnezia[key := val]))
  }

  function SetPeer(p: Peer, key: string, val: string): Result<Peer, ParseError> {
    match key
    case "publickey" => Ok(p.(publicKey := val))
    case "presharedkey" => Ok(p.(presharedKey := val))
    case "endpoint" => Ok(p.(endpoint := val))
    case "allowedips" => Ok(p.(allowedIps := p.allowedIps + SplitList(val)))
    case "persistentkeepalive" =>
      var n := IntField("PersistentKeepalive", val);
      if n.Ok? then Ok(p.(keepalive := n.value)) else Err(n.error)
    case _ => Err(UnknownPeerKey(key))
  }

  // ---- What the lines of a text mean, line by line ----

  datatype Line = Blank | Section(name: string) | Entry(key: string, val: string) | Malformed(text: string)

  function Classify(raw: string): Line {
    var line := Trim(raw);
    if line == "" || line[0] == '#' then Blank
    else if line[0] == '[' && line[|line| - 1] == ']' then Section(Lower(Trim(line[1..|line| - 1])))
    else if SplitPair(line).None? then Malformed(line)
    else Entry(Trim(SplitPair(line).value.0), Trim(SplitPair(line).value.1))
  }

  datatype Reading = Reading(cfg: Config, section: string)

  const START := Reading(EMPTY_CONFIG, "")

  /** The peer section that is being filled is always the last one. */
  function WithLastPeer(c: Config, p: Peer): Config
    requires c.peers != []
  {
    c.(peers := c.peers[|c.peers| - 1 := p])
  }

  function EntryMeaning(r: Reading, key: string, val: string): Result<Reading, ParseError> {
    var k := Lower(key);
    match r.section
    case "interface" =>
      if Executable(k) then Err(ExecutableDirective(key))
      else
        var c := SetInterface(r.cfg, k, val);
        if c.Ok? then Ok(r.(cfg := c.value)) else Err(c.error)
    case "peer" =>
      if r.cfg.peers == [] then Err(PeerKeyBeforePeer(key))
      else
        var p := SetPeer(r.cfg.peers[|r.cfg.peers| - 1], k, val);
        if p.Ok? then Ok(r.(cfg := WithLastPeer(r.cfg, p.value))) else Err(p.error)
    case _ => Err(OutsideSection(key))
  }

  function Meaning(r: Reading, line: Line): Result<Reading, ParseError> {
    match line
    case Blank => Ok(r)
    case Section(name) =>
      Ok(Reading(if name == "peer" then r.cfg.(peers := r.cfg.peers + [EMPTY_PEER]) else r.cfg, name))
    case Entry(key, val) => EntryMeaning(r, key, val)
    case Malformed(text) => Err(MalformedLine(text))
  }

  function ReadLines(r: Reading, lines: seq<string>): Result<Reading, ParseError>
    decreases |lines|
  {
    if lines == [] then Ok(r)
    else
      var next := Meaning(r, Classify(lines[0]));
      if next.Err? then next else ReadLines(next.value, lines[1..])
  }

  /** The lines up to the first that is too long are read, and only then is the length an error. */
  function Parsed(text: string): Result<Config, ParseError> {
    var r := ReadLines(START, Scanned(text));
    if r.Err? then Err(r.error) else if !Scannable(text) then Err(LineTooLong) else Ok(r.value.cfg)
  }

  // ---- What every accepted text gives ----

  /** A text that survives being written after an equals sign on a line of its own. */
  predicate Value(s: string) {
    Trimmed(s) && '\n' !in s
  }

  /** A value whose line with this key fits the scanner's buffer. */
  predicate Fits(key: string, s: string) {
    Value(s) && |key| + 1 + Size(s) < MAX_LINE
  }

  predicate Item(key: string, s: string) {
    Fits(key, s) && s != "" && ',' !in s
  }

  predicate Int64(n: int) {
    -TWO_63 <= n < TWO_63
  }

  predicate WellFormedPeer(p: Peer) {
    && Fits("publickey", p.publicKey) && Fits("presharedkey", p.presharedKey) && Fits("endpoint", p.endpoint)
    && Int64(p.keepalive)
    && forall a :: a in p.allowedIps ==> Item("allowedips", a)
  }

  predicate Obfuscation(m: map<string, string>) {
    m.Keys <= AmneziaKeySet() && forall k :: k in m ==> m[k] != "" && Fits(k, m[k])
  }

  predicate WellFormed(c: Config) {
    && Fits("privatekey", c.privateKey) && Int64(c.mtu) && Int64(c.listenPort) && c.fwMark < TWO_32
    && (forall a :: a in c.addresses ==> Item("address", a)) && (forall d :: d in c.dns ==> Item("dns", d))
    && Obfuscation(c.amnezia)
    && (c.hasAmnezia <==> c.amnezia != map[])
    && forall p :: p in c.peers ==> WellFormedPeer(p)
  }

  lemma ValueOfPart(part: string, whole: string)
    requires '\n' !in whole && forall c :: c in part ==> c in whole
    ensures Value(Trim(part)) && forall c :: c in Trim(part) ==> c in whole
  {
    TrimTrims(part);
  }

  lemma SplitSizes(line: string)
    requires SplitPair(line).Some?
    ensures |Trim(SplitPair(line).value.0)| + 1 + Size(Trim(SplitPair(line).value.1)) <= Size(line)
  {
    var p := SplitPair(line).value;
    assert line == p.0 + "=" + p.1;
    SizeOfSum(p.0 + "=", p.1);
    SizeOfSum(p.0, "=");
    TrimmedSize(p.0);
    TrimmedSize(p.1);
  }

  /** The value of an entry on a line that is delivered fits a line with the key, in lower case, again. */
  lemma EntryIsClean(raw: string)
    requires '\n' !in raw && Size(raw) < MAX_LINE && Classify(raw).Entry?
    ensures Fits(Lower(Classify(raw).key), Classify(raw).val)
  {
    ValueOfPart(raw, raw);
    TrimmedSize(raw);
    var line := Trim(raw);
    SplitSizes(line);
    var i := IndexOf(line, '=').value;
    ValueOfPart(line[i + 1..], line);
  }

  lemma ItemsOfValue(key: string, val: string)
    requires Fits(key, val)
    ensures forall a :: a in SplitList(val) ==> Item(key, a)
  {
    ListParts(val);
  }

  lemma ObfuscationGrows(m: map<string, string>, key: string, val: string)
    requires Obfuscation(m) && key in AmneziaKeySet() && val != "" && Fits(key, val)
    ensures Obfuscation(m[key := val]) && m[key := val] != map[]
  {
    assert key in m[key := val];
  }

  lemma InterfaceStaysWellFormed(c: Config, key: string, val: string)
    requires WellFormed(c) && Fits(key, val) && SetInterface(c, key, val).Ok?
    ensures WellFormed(SetInterface(c, key, val).value)
    ensures SetInterface(c, key, val).value.peers == c.peers
  {
    ItemsOfValue(key, val);
    match key
    case "privatekey" => {}
    case "address" => {}
    case "dns" => {}
    case "mtu" => {}
    case "listenport" => {}
    case "fwmark" => {}
    case _ => {
      ObfuscationGrows(c.amnezia, key, val);
      assert SetInterface(c, key, val).value == c.(hasAmnezia := true, amnezia := c.amnezia[key := val]);
    }
  }

  lemma PeerStaysWellFormed(p: Peer, key: string, val: string)
    requires WellFormedPeer(p) && Fits(key, val) && SetPeer(p, key, val).Ok?
    ensures WellFormedPeer(SetPeer(p, key, val).value)
  {
    ItemsOfValue(key, val);
    match key
    case "publickey" => {}
    case "presharedkey" => {}
    case "endpoint" => {}
    case "allowedips" => {}
    case _ => {}
  }

  lemma LastPeerStaysWellFormed(c: Config, p: Peer)
    requires WellFormed(c) && c.peers != [] && WellFormedPeer(p)
    ensures WellFormed(WithLastPeer(c, p))
  {
    var peers := WithLastPeer(c, p).peers;
    forall q | q in peers ensures WellFormedPeer(q) {
      var i :| 0 <= i < |peers| && peers[i] == q;
      if i < |peers| - 1 {
        assert q == c.peers[i];
      }
    }
  }

  lemma EntryStaysWellFormed(r: Reading, key: string, val: string)
    requires WellFormed(r.cfg) && Fits(Lower(key), val) && EntryMeaning(r, key, val).Ok?
    ensures WellFormed(EntryMeaning(r, key, val).value.cfg)
    ensures |EntryMeaning(r, key, val).value.cfg.peers| == |r.cfg.peers|
  {
    if r.section == "interface" {
      InterfaceStaysWellFormed(r.cfg, Lower(key), val);
    } else {
      var p := r.cfg.peers[|r.cfg.peers| - 1];
      PeerStaysWellFormed(p, Lower(key), val);
      LastPeerStaysWellFormed(r.cfg, SetPeer(p, Lower(key), val).value);
    }
  }

  lemma MeaningStaysWellFormed(r: Reading, line: Line)
    requires WellFormed(r.cfg) && (line.Entry? ==> Fits(Lower(line.key), line.val)) && Meaning(r, line).Ok?
    ensures WellFormed(Meaning(r, line).value.cfg)
    ensures |Meaning(r, line).value.cfg.peers| == |r.cfg.peers| + if line == Section("peer") then 1 else 0
  {
    if line.Entry? {
      EntryStaysWellFormed(r, line.key, line.val);
    }
  }

  function PeerHeaders(lines: seq<string>): nat {
    if lines == [] then 0 else (if Classify(lines[0]) == Section("peer") then 1 else 0) + PeerHeaders(lines[1..])
  }

  lemma {:induction false} LinesStayWellFormed(r: Reading, lines: seq<string>)
    requires WellFormed(r.cfg) && ReadLines(r, lines).Ok?
    requires forall i :: 0 <= i < |lines| ==> '\n' !in lines[i] && Size(lines[i]) < MAX_LINE
    ensures WellFormed(ReadLines(r, lines).value.cfg)
    ensures |ReadLines(r, lines).value.cfg.peers| == |r.cfg.peers| + PeerHeaders(lines)
    decreases |lines|
  {
    if lines != [] {
      if Classify(lines[0]).Entry? {
        EntryIsClean(lines[0]);
      }
      MeaningStaysWellFormed(r, Classify(lines[0]));
      LinesStayWellFormed(Meaning(r, Classify(lines[0])).value, lines[1..]);
    }
  }

  /** Every accepted text gives a well-formed configuration with one peer for each [Peer] header. */
  lemma ParsedIsWellFormed(text: string)
    requires Parsed(text).Ok?
    ensures WellFormed(Parsed(text).value)
    ensures |Parsed(text).value.peers| == PeerHeaders(Lines(text))
  {
    ScannedLinesFit(text);
    ScannableIsScanned(text);
    LinesStayWellFormed(START, Scanned(text));
  }

  lemma ReadNext(r: Reading, lines: seq<string>, i: nat)
    requires i < |lines|
    ensures ReadLines(r, lines[i..]) ==
      var next := Meaning(r, Classify(lines[i]));
      if next.Err? then next else ReadLines(next.value, lines[i + 1..])
  {
    assert lines[i..][1..] == lines[i + 1..];
  }

  lemma {:induction false} ReadLinesOfSum(r: Reading, a: seq<string>, b: seq<string>)
    ensures ReadLines(r, a + b) == if ReadLines(r, a).Ok? then ReadLines(ReadLines(r, a).value, b) else ReadLines(r, a)
    decreases |a|
  {
    if a == [] {
      assert a + b == b;
    } else {
      assert (a + b)[0] == a[0] && (a + b)[1..] == a[1..] + b;
      var next := Meaning(r, Classify(a[0]));
      if next.Ok? {
        ReadLinesOfSum(next.value, a[1..], b);
      }
    }
  }

  /** The section that a line stands in: the name in the last header before it. */
  function SectionAt(lines: seq<string>): string {
    if lines == [] then ""
    else
      var last := Classify(lines[|lines| - 1]);
      if last.Section? then last.name else SectionAt(lines[..|lines| - 1])
  }

  lemma LastLine(r: Reading, line: string)
    ensures ReadLines(r, [line]) == Meaning(r, Classify(line))
  {
    assert [line][1..] == [];
  }

  lemma SectionAfter(r: Reading, line: Line)
    requires Meaning(r, line).Ok?
    ensures Meaning(r, line).value.section == if line.Section? then line.name else r.section
  {
  }

  lemma {:induction false} SectionFollows(lines: seq<string>)
    requires ReadLines(START, lines).Ok?
    ensures ReadLines(START, lines).value.section == SectionAt(lines)
  {
    if lines != [] {
      var front, last := lines[..|lines| - 1], lines[|lines| - 1];
      assert lines == front + [last];
      ReadLinesOfSum(START, front, [last]);
      var r := ReadLines(START, front).value;
      LastLine(r, last);
      SectionAfter(r, Classify(last));
      SectionFollows(front);
    }
  }

  lemma ExecutableStops(lines: seq<string>, i: nat)
    requires i < |lines| && SectionAt(lines[..i]) == "interface"
    requires Classify(lines[i]).Entry? && Executable(Lower(Classify(lines[i]).key))
    ensures ReadLines(START, lines).Err?
  {
    var before, after := lines[..i], lines[i..];
    ReadLinesOfSum(START, before, after);
    assert lines == before + after && after[0] == lines[i];
    if ReadLines(START, before).Ok? {
      SectionFollows(before);
    }
  }

  /** No text with an executable directive in an [Interface] section is accepted, wherever it stands. */
  lemma ExecutableIsRefused(text: string, i: nat)
    requires i < |Lines(text)| && SectionAt(Lines(text)[..i]) == "interface"
    requires Classify(Lines(text)[i]).Entry?
    requires Lower(Classify(Lines(text)[i]).key) in {"preup", "postup", "predown", "postdown"}
    ensures Parsed(text).Err?
  {
    if Scannable(text) {
      ScannableIsScanned(text);
      ExecutableStops(Lines(text), i);
    }
  }

  // ---- The parser itself ----

  predicate InterfaceAccepts(key: string, val: string) {
    match key
    case "privatekey" | "address" | "dns" => true
    case "mtu" | "listenport" => ParseInt64(Trim(val)).Some?
    case "fwmark" => ParseFwMark(val).Ok?
    case _ => key in AmneziaKeySet() && val != ""
  }

  predicate PeerAccepts(key: string, val: string) {
    || key == "publickey" || key == "presharedkey" || key == "endpoint" || key == "allowedips"
    || (key == "persistentkeepalive" && ParseInt64(Trim(val)).Some?)
  }

  /** An entry is accepted exactly in a section that knows its key, with a value that the key can take. */
  predicate Accepts(c: Config, section: string, key: string, val: string) {
    || (section == "interface" && InterfaceAccepts(key, val))
    || (section == "peer" && c.peers != [] && PeerAccepts(key, val))
  }

  lemma InterfaceAcceptance(c: Config, key: string, val: string)
    ensures SetInterface(c, key, val).Ok? <==> InterfaceAccepts(key, val)
    ensures SetInterface(c, key, val).Ok? ==> SetInterface(c, key, val).value.peers == c.peers
  {
    match key
    case "privatekey" => {}
    case "address" => {}
    case "dns" => {}
    case "mtu" => {}
    case "listenport" => {}
    case "fwmark" => {}
    case _ => {}
  }

  /** No obfuscation key is one of the executable directives, which all start with a p. */
  lemma ExecutablesAreRefused(key: string, val: string)
    requires Executable(key)
    ensures !InterfaceAccepts(key, val)
  {
    assert forall i :: 0 <= i < |AMNEZIA_KEYS| ==> AMNEZIA_KEYS[i][0] != 'p';
  }

  lemma PeerAcceptance(p: Peer, key: string, val: string)
    ensures SetPeer(p, key, val).Ok? <==> PeerAccepts(key, val)
  {
  }

  /**
   * One entry, for whoever sends one: when it is accepted, that an interface entry leaves the peers
   * as they are, that a peer entry changes the last peer alone, that a well-formed configuration
   * stays well-formed, and that an executable directive is refused as such.
   */
  lemma EntryDecided(cfg: Config, section: string, key: string, val: string)
    ensures var r := EntryMeaning(Reading(cfg, section), key, val);
      && (r.Ok? <==> Accepts(cfg, section, Lower(key), val))
      && (r.Ok? ==> r.value.section == section)
      && (r.Ok? && section == "interface" ==> r.value.cfg.peers == cfg.peers)
      && (r.Ok? && section == "peer" ==> OnlyLastPeer(cfg, r.value.cfg))
      && (r.Ok? && WellFormed(cfg) && Fits(Lower(key), val) ==> WellFormed(r.value.cfg))
      && (section == "interface" && Executable(Lower(key)) ==> r == Err(ExecutableDirective(key)))
  {
    var r := EntryMeaning(Reading(cfg, section), key, val);
    InterfaceAcceptance(cfg, Lower(key), val);
    if Executable(Lower(key)) {
      ExecutablesAreRefused(Lower(key), val);
    }
    if cfg.peers != [] {
      PeerAcceptance(cfg.peers[|cfg.peers| - 1], Lower(key), val);
    }
    if r.Ok? && WellFormed(cfg) && Fits(Lower(key), val) {
      EntryStaysWellFormed(Reading(cfg, section), key, val);
    }
  }

  /** The obfuscation keys that are known. */
  lemma ObfuscationKeys(key: string)
    ensures key in AmneziaKeySet() <==>
      key in {"jc", "jmin", "jmax", "s1", "s2", "s3", "s4", "h1", "h2", "h3", "h4", "i1", "i2", "i3", "i4", "i5",
              "header_protection_key", "content_padding_addition", "random_trailers", "disable_cookies"}
  {
    if key in AmneziaKeySet() {
      var i :| 0 <= i < |AMNEZIA_KEYS| && AMNEZIA_KEYS[i] == key;
    }
    KeysAt();
  }

  lemma KeysAt()
    ensures forall i :: 0 <= i < 20 ==> AMNEZIA_KEYS[i] in AmneziaKeySet()
  {
    assert |AMNEZIA_KEYS| == 20;
  }

  /** Why an entry of an interface is refused. */
  lemma InterfaceErrors(c: Config, key: string, val: string)
    requires SetInterface(c, key, val).Err?
    ensures SetInterface(c, key, val).error ==
      match key
      case "mtu" => InvalidNumber("MTU", val)
      case "listenport" => InvalidNumber("ListenPort", val)
      case "fwmark" => InvalidNumber("FwMark", val)
      case _ => if key in AMNEZIA_KEYS then EmptyAmneziaValue(key) else UnknownInterfaceKey(key)
  {
  }

  /** Why any entry is refused: the section first, then a directive that runs something, then key and value. */
  lemma EntryErrors(cfg: Config, section: string, key: string, val: string)
    requires EntryMeaning(Reading(cfg, section), key, val).Err?
    ensures var e := EntryMeaning(Reading(cfg, section), key, val).error;
      && (section != "interface" && section != "peer" <==> e == OutsideSection(key))
      && (section == "peer" && cfg.peers == [] <==> e == PeerKeyBeforePeer(key))
      && (section == "interface" && Lower(key) in {"preup", "postup", "predown", "postdown"} <==>
            e == ExecutableDirective(key))
      && (section == "peer" && cfg.peers != [] ==>
            e == if Lower(key) == "persistentkeepalive" then InvalidNumber("PersistentKeepalive", val)
                 else UnknownPeerKey(Lower(key)))
  {
    if section == "interface" && !Executable(Lower(key)) {
      InterfaceErrors(cfg, Lower(key), val);
    }
  }

  predicate OnlyLastPeer(before: Config, after: Config) {
    && after == before.(peers := after.peers) && |after.peers| == |before.peers| > 0
    && forall i :: 0 <= i < |before.peers| - 1 ==> after.peers[i] == before.peers[i]
  }

  /** The switch over the section. */
  method Enter(cfg: Config, section: string, key: string, val: string) returns (r: Result<Config, ParseError>)
    ensures EntryMeaning(Reading(cfg, section), key, val) ==
      if r.Ok? then Ok(Reading(r.value, section)) else Err(r.error)
  {
    var lkey := Lower(key);
    if section == "interface" {
      if Executable(lkey) {
        return Err(ExecutableDirective(key));
      }
      r := SetInterface(cfg, lkey, val);
    } else if section == "peer" {
      if cfg.peers == [] {
        return Err(PeerKeyBeforePeer(key));
      }
      var p := SetPeer(cfg.peers[|cfg.peers| - 1], lkey, val);
      r := if p.Ok? then Ok(WithLastPeer(cfg, p.value)) else Err(p.error);
    } else {
      r := Err(OutsideSection(key));
    }
  }

  /** What the loop does with one line, in the section and with the peers it has come to. */
  method ReadLine(cfg: Config, section: string, raw: string) returns (r: Result<Reading, ParseError>)
    ensures r == Meaning(Reading(cfg, section), Classify(raw))
  {
    var line := Trim(raw);
    if line == "" || line[0] == '#' {
      return Ok(Reading(cfg, section));
    }
    if line[0] == '[' && line[|line| - 1] == ']' {
      var name := Lower(Trim(line[1..|line| - 1]));
      assert Classify(raw) == Section(name);
      return Ok(Reading(if name == "peer" then cfg.(peers := cfg.peers + [EMPTY_PEER]) else cfg, name));
    }
    var equals := IndexOf(line, '=');
    if equals.None? {
      return Err(MalformedLine(line));
    }
    var key, val := Trim(line[..equals.value]), Trim(line[equals.value + 1..]);
    assert Classify(raw) == Entry(key, val);
    var entered := Enter(cfg, section, key, val);
    r := if entered.Ok? then Ok(Reading(entered.value, section)) else Err(entered.error);
  }

  /** One loop over the lines that the scanner delivers, with the section and the current peer as it goes. */
  method Parse(text: string) returns (r: Result<Config, ParseError>)
    ensures r == Parsed(text)
  {
    var cfg := EMPTY_CONFIG;
    var section := "";
    var lines := Scanned(text);
    for i := 0 to |lines|
      invariant ReadLines(START, lines) == ReadLines(Reading(cfg, section), lines[i..])
    {
      ReadNext(Reading(cfg, section), lines, i);
      var next := ReadLine(cfg, section, lines[i]);
      if next.Err? {
        return Err(next.error);
      }
      cfg, section := next.value.cfg, next.value.section;
    }
    assert lines[|lines|..] == [] && ReadLines(START, lines) == Ok(Reading(cfg, section));
    if !Scannable(text) {
      return Err(LineTooLong);
    }
    return Ok(cfg);
  }

  // ---- The order of entries ----

  /** Two entries of an interface, one after the other. */
  function SetTwo(c: Config, key: string, val: string, other: string, otherVal: string): Result<Config, ParseError> {
    var first := SetInterface(c, key, val);
    if first.Err? then first else SetInterface(first.value, other, otherVal)
  }

  /** The keys with a field of their own. */
  predicate HasField(key: string) {
    || key == "privatekey" || key == "address" || key == "dns" || key == "mtu" || key == "listenport" || key == "fwmark"
  }

  function NumberOr(key: string, wanted: string, val: string, otherwise: int): int {
    if key == wanted && ParseInt64(Trim(val)).Some? then ParseInt64(Trim(val)).value else otherwise
  }

  /** An accepted entry, field by field. */
  function Effect(c: Config, key: string, val: string): Config {
    Config(
      if key == "privatekey" then val else c.privateKey,
      if key == "address" then c.addresses + SplitList(val) else c.addresses,
      if key == "dns" then c.dns + SplitList(val) else c.dns,
      NumberOr(key, "mtu", val, c.mtu), NumberOr(key, "listenport", val, c.listenPort),
      if key == "fwmark" && ParseFwMark(val).Ok? then ParseFwMark(val).value else c.fwMark,
      if HasField(key) then c.amnezia else c.amnezia[key := val], c.hasAmnezia || !HasField(key), c.peers)
  }

  lemma EffectOfEntry(c: Config, key: string, val: string)
    requires InterfaceAccepts(key, val)
    ensures SetInterface(c, key, val) == Ok(Effect(c, key, val))
  {
    match key
    case "privatekey" => {}
    case "address" => {}
    case "dns" => {}
    case "mtu" => {}
    case "listenport" => {}
    case "fwmark" => {}
    case _ => {}
  }

  lemma EffectsCommute(c: Config, key: string, val: string, other: string, otherVal: string)
    requires key != other
    ensures Effect(Effect(c, key, val), other, otherVal) == Effect(Effect(c, other, otherVal), key, val)
  {
    UpdatesCommute(c.amnezia, key, val, other, otherVal);
  }

  lemma UpdatesCommute(m: map<string, string>, key: string, val: string, other: string, otherVal: string)
    requires key != other
    ensures m[key := val][other := otherVal] == m[other := otherVal][key := val]
  {
  }

  /** Entries of an interface with different keys can trade places. */
  lemma EntriesCommute(c: Config, key: string, val: string, other: string, otherVal: string)
    requires key != other && InterfaceAccepts(key, val) && InterfaceAccepts(other, otherVal)
    ensures SetTwo(c, key, val, other, otherVal) == SetTwo(c, other, otherVal, key, val)
  {
    EffectOfEntry(c, key, val);
    EffectOfEntry(c, other, otherVal);
    EffectOfEntry(Effect(c, key, val), other, otherVal);
    EffectOfEntry(Effect(c, other, otherVal), key, val);
    EffectsCommute(c, key, val, other, otherVal);
  }

  /** Except for the two lists, the last entry with a key counts. */
  lemma LastEntryCounts(c: Config, key: string, val: string, later: string)
    requires InterfaceAccepts(key, val) && InterfaceAccepts(key, later) && key != "address" && key != "dns"
    ensures SetTwo(c, key, val, key, later) == SetInterface(c, key, later)
  {
    match key
    case "privatekey" => {}
    case "mtu" => {}
    case "listenport" => {}
    case "fwmark" => {}
    case _ => {
      assert c.amnezia[key := val][key := later] == c.amnezia[key := later];
    }
  }

  // ---- Keys and numerals on lines ----

  predicate KeyChar(c: char) {
    'a' <= c <= 'z' || '0' <= c <= '9' || c == '_'
  }

  predicate KeyName(s: string) {
    s != "" && forall i :: 0 <= i < |s| ==> KeyChar(s[i])
  }

  lemma FirstKeyNames()
    ensures forall i :: 0 <= i < 11 ==> KeyName(AMNEZIA_KEYS[i])
  {
  }

  lemma LaterKeyNames()
    ensures forall i :: 11 <= i < 20 ==> KeyName(AMNEZIA_KEYS[i])
  {
  }

  lemma KeyNames()
    ensures forall k :: k in AMNEZIA_KEYS ==> KeyName(k)
  {
    FirstKeyNames();
    LaterKeyNames();
    assert |AMNEZIA_KEYS| == 20;
  }

  lemma DigitsAreValues(n: nat)
    ensures Value(Decimal(n))
  {
    var s := Decimal(n);
    assert s[0] in s && s[|s| - 1] in s;
  }
}
