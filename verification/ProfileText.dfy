/**
 * The exact range of the parser: a canonical text for every well-formed configuration, which the
 * parser reads back field by field.
 */
module ProfileText {
  import opened Wrappers
  import opened Text
  import opened Profile
  import opened Folding

  // ---- Entries: what a section sets, one after the other ----

  function InterfaceFields(c: Config): seq<Field> {
    [(true, ("privatekey", c.privateKey)), (true, ("mtu", SignedDecimal(c.mtu))),
     (true, ("listenport", SignedDecimal(c.listenPort))), (true, ("fwmark", Decimal(c.fwMark)))]
  }

  function InterfaceHead(c: Config): seq<Pair> {
    Written(InterfaceFields(c), 4)
  }

  function InterfaceEntries(c: Config): seq<Pair> {
    InterfaceHead(c) + Repeated("address", c.addresses, |c.addresses|) + Repeated("dns", c.dns, |c.dns|)
    + Present(AMNEZIA_KEYS, c.amnezia, |AMNEZIA_KEYS|)
  }

  function PeerFields(p: Peer): seq<Field> {
    [(true, ("publickey", p.publicKey)), (true, ("presharedkey", p.presharedKey)), (true, ("endpoint", p.endpoint)),
     (true, ("persistentkeepalive", SignedDecimal(p.keepalive)))]
  }

  function PeerHead(p: Peer): seq<Pair> {
    Written(PeerFields(p), 4)
  }

  function PeerEntries(p: Peer): seq<Pair> {
    PeerHead(p) + Repeated("allowedips", p.allowedIps, |p.allowedIps|)
  }

  function Enter(c: Config, e: Pair): Result<Config, ParseError> {
    SetInterface(c, e.0, e.1)
  }

  function EnterPeer(p: Peer, e: Pair): Result<Peer, ParseError> {
    SetPeer(p, e.0, e.1)
  }

  lemma SignedIsRead(n: int, name: string)
    requires Int64(n)
    ensures Value(SignedDecimal(n)) && IntField(name, SignedDecimal(n)) == Ok(n)
    ensures Size(SignedDecimal(n)) <= 80
  {
    SignedDecimalIsShort(n);
    DigitsAreValues(if n < 0 then -n else n);
    TrimTrims(SignedDecimal(n));
    ParseInt64OfSigned(n);
  }

  lemma DecimalMark(s: string, n: nat)
    requires Trim(s) == s && (|s| >= 2 ==> '0' <= s[1] <= '9') && Numeral(s, 10) == Some(n) && n < TWO_32
    ensures ParseFwMark(s) == Ok(n)
  {
  }

  lemma FwMarkIsRead(n: nat)
    requires n < TWO_32
    ensures Value(Decimal(n)) && ParseFwMark(Decimal(n)) == Ok(n)
    ensures Size(Decimal(n)) <= 80
  {
    SignedDecimalIsShort(n);
    var s := Decimal(n);
    DigitsAreValues(n);
    TrimTrims(s);
    NumeralOfDecimal(n);
    if |s| >= 2 {
      assert s[1] in s;
    }
    DecimalMark(s, n);
  }

  lemma ItemIsRead(item: string)
    requires Value(item) && item != "" && ',' !in item
    ensures SplitList(item) == [item]
  {
    TrimTrims(item);
    assert IndexOf(item, ',').None?;
  }

  function WithAddresses(c: Config, items: seq<string>): Config {
    c.(addresses := items)
  }

  function WithDns(c: Config, items: seq<string>): Config {
    c.(dns := items)
  }

  function WithAllowed(p: Peer, items: seq<string>): Peer {
    p.(allowedIps := items)
  }

  lemma AddressSet(c: Config, item: string)
    requires Item("address", item)
    ensures Enter(c, ("address", item)) == Ok(c.(addresses := c.addresses + [item]))
  {
    ItemIsRead(item);
  }

  lemma DnsSet(c: Config, item: string)
    requires Item("dns", item)
    ensures Enter(c, ("dns", item)) == Ok(c.(dns := c.dns + [item]))
  {
    ItemIsRead(item);
  }

  lemma AllowedSet(p: Peer, item: string)
    requires Item("allowedips", item)
    ensures EnterPeer(p, ("allowedips", item)) == Ok(p.(allowedIps := p.allowedIps + [item]))
  {
    ItemIsRead(item);
  }

  lemma AddressesEntered(c: Config, items: seq<string>)
    requires (forall a :: a in items ==> Item("address", a)) && c.addresses == []
    ensures Fold(Enter, c, Repeated("address", items, |items|)) == Ok(c.(addresses := items))
  {
    forall before, item | item in items
      ensures Enter(WithAddresses(c, before), ("address", item)) == Ok(WithAddresses(c, before + [item]))
    {
      AddressSet(WithAddresses(c, before), item);
    }
    RepeatedFolded(Enter, c, "address", items, |items|, WithAddresses);
    assert items[..|items|] == items;
  }

  lemma DnsEntered(c: Config, items: seq<string>)
    requires (forall a :: a in items ==> Item("dns", a)) && c.dns == []
    ensures Fold(Enter, c, Repeated("dns", items, |items|)) == Ok(c.(dns := items))
  {
    forall before, item | item in items
      ensures Enter(WithDns(c, before), ("dns", item)) == Ok(WithDns(c, before + [item]))
    {
      DnsSet(WithDns(c, before), item);
    }
    RepeatedFolded(Enter, c, "dns", items, |items|, WithDns);
    assert items[..|items|] == items;
  }

  lemma AllowedEntered(p: Peer, items: seq<string>)
    requires (forall a :: a in items ==> Item("allowedips", a)) && p.allowedIps == []
    ensures Fold(EnterPeer, p, Repeated("allowedips", items, |items|)) == Ok(p.(allowedIps := items))
  {
    forall before, item | item in items
      ensures EnterPeer(WithAllowed(p, before), ("allowedips", item)) == Ok(WithAllowed(p, before + [item]))
    {
      AllowedSet(WithAllowed(p, before), item);
    }
    RepeatedFolded(EnterPeer, p, "allowedips", items, |items|, WithAllowed);
    assert items[..|items|] == items;
  }

  lemma PrivateKeySet(c: Config, val: string)
    ensures Enter(c, ("privatekey", val)) == Ok(c.(privateKey := val))
  {
  }

  lemma MtuSet(c: Config, n: int)
    requires Int64(n)
    ensures Enter(c, ("mtu", SignedDecimal(n))) == Ok(c.(mtu := n))
  {
    SignedIsRead(n, "MTU");
  }

  lemma ListenPortSet(c: Config, n: int)
    requires Int64(n)
    ensures Enter(c, ("listenport", SignedDecimal(n))) == Ok(c.(listenPort := n))
  {
    SignedIsRead(n, "ListenPort");
  }

  lemma FwMarkSet(c: Config, n: nat)
    requires n < TWO_32
    ensures Enter(c, ("fwmark", Decimal(n))) == Ok(c.(fwMark := n))
  {
    FwMarkIsRead(n);
  }

  lemma HeadEntered(c: Config)
    requires WellFormed(c)
    ensures Fold(Enter, EMPTY_CONFIG, InterfaceHead(c)) ==
      Ok(EMPTY_CONFIG.(privateKey := c.privateKey, mtu := c.mtu, listenPort := c.listenPort, fwMark := c.fwMark))
  {
    var c1 := EMPTY_CONFIG.(privateKey := c.privateKey);
    var c2 := c1.(mtu := c.mtu);
    var c3 := c2.(listenPort := c.listenPort);
    PrivateKeySet(EMPTY_CONFIG, c.privateKey);
    MtuSet(c1, c.mtu);
    ListenPortSet(c2, c.listenPort);
    FwMarkSet(c3, c.fwMark);
    var fs := InterfaceFields(c);
    FourFieldsFolded(Enter, EMPTY_CONFIG, fs[0], c1, fs[1], c2, fs[2], c3, fs[3], c3.(fwMark := c.fwMark));
    assert [fs[0], fs[1], fs[2], fs[3]] == fs;
  }

  lemma PeerHeadEntered(p: Peer)
    requires WellFormedPeer(p)
    ensures Fold(EnterPeer, EMPTY_PEER, PeerHead(p)) == Ok(p.(allowedIps := []))
  {
    var p1 := EMPTY_PEER.(publicKey := p.publicKey);
    var p2 := p1.(presharedKey := p.presharedKey);
    SignedIsRead(p.keepalive, "PersistentKeepalive");
    var fs := PeerFields(p);
    FourFieldsFolded(EnterPeer, EMPTY_PEER, fs[0], p1, fs[1], p2, fs[2], p2.(endpoint := p.endpoint),
      fs[3], p.(allowedIps := []));
    assert [fs[0], fs[1], fs[2], fs[3]] == fs;
  }

  lemma AmneziaKeyIsSet(c: Config, key: string, val: string)
    requires key in AMNEZIA_KEYS && val != ""
    ensures Enter(c, (key, val)) == Ok(c.(hasAmnezia := true, amnezia := c.amnezia[key := val]))
  {
  }

  function WithAmnezia(c: Config, m: map<string, string>): Config {
    c.(hasAmnezia := m != map[], amnezia := m)
  }

  lemma AmneziaEntered(c: Config, m: map<string, string>)
    requires Obfuscation(m) && c.amnezia == map[] && !c.hasAmnezia
    ensures Fold(Enter, c, Present(AMNEZIA_KEYS, m, |AMNEZIA_KEYS|)) ==
      Ok(c.(amnezia := m, hasAmnezia := m != map[]))
  {
    forall before, key | key in AMNEZIA_KEYS && key in m
      ensures Enter(WithAmnezia(c, before), (key, m[key])) == Ok(WithAmnezia(c, before[key := m[key]]))
    {
      AmneziaKeyIsSet(WithAmnezia(c, before), key, m[key]);
      assert key in before[key := m[key]];
    }
    PresentFolded(Enter, c, AMNEZIA_KEYS, m, |AMNEZIA_KEYS|, WithAmnezia);
    AllKeys(AMNEZIA_KEYS, m);
  }

  /** Entering the entries of an interface gives it back. */
  lemma InterfaceEntered(c: Config)
    requires WellFormed(c)
    ensures Fold(Enter, EMPTY_CONFIG, InterfaceEntries(c)) == Ok(c.(peers := []))
  {
    var head, addresses := InterfaceHead(c), Repeated("address", c.addresses, |c.addresses|);
    var dns, amnezia := Repeated("dns", c.dns, |c.dns|), Present(AMNEZIA_KEYS, c.amnezia, |AMNEZIA_KEYS|);
    var c0 := EMPTY_CONFIG.(privateKey := c.privateKey, mtu := c.mtu, listenPort := c.listenPort, fwMark := c.fwMark);
    HeadEntered(c);
    FoldSum(Enter, EMPTY_CONFIG, head, addresses);
    AddressesEntered(c0, c.addresses);
    FoldSum(Enter, EMPTY_CONFIG, head + addresses, dns);
    DnsEntered(c0.(addresses := c.addresses), c.dns);
    FoldSum(Enter, EMPTY_CONFIG, head + addresses + dns, amnezia);
    AmneziaEntered(c0.(addresses := c.addresses, dns := c.dns), c.amnezia);
  }

  lemma PeerIsEntered(p: Peer)
    requires WellFormedPeer(p)
    ensures Fold(EnterPeer, EMPTY_PEER, PeerEntries(p)) == Ok(p)
  {
    PeerHeadEntered(p);
    FoldSum(EnterPeer, EMPTY_PEER, PeerHead(p), Repeated("allowedips", p.allowedIps, |p.allowedIps|));
    AllowedEntered(p.(allowedIps := []), p.allowedIps);
  }

  // ---- Entries as lines ----

  function EntryLine(p: Pair): string {
    p.0 + "=" + p.1
  }

  function EntryLines(es: seq<Pair>): (lines: seq<string>)
    ensures |lines| == |es|
  {
    if es == [] then [] else EntryLines(es[..|es| - 1]) + [EntryLine(es[|es| - 1])]
  }

  predicate Enterable(p: Pair) {
    Ordinary(p.0) && Fits(p.0, p.1)
  }

  lemma {:induction false} LowerOfName(s: string)
    requires forall i :: 0 <= i < |s| ==> KeyChar(s[i])
    ensures Lower(s) == s
  {
    if s != "" {
      LowerOfName(s[1..]);
      assert [s[0]] + s[1..] == s;
    }
  }

  lemma EntryLineShape(p: Pair)
    requires KeyName(p.0) && Value(p.1)
    ensures Carried(p) && Trimmed(p.0) && Trimmed(EntryLine(p)) && EntryLine(p)[0] == p.0[0]
  {
    var line := EntryLine(p);
    assert line[|line| - 1] == if p.1 == "" then '=' else p.1[|p.1| - 1];
    assert '=' !in p.0 && '\n' !in p.0;
  }

  lemma EntryFits(p: Pair)
    requires Enterable(p)
    ensures Plain(EntryLine(p))
  {
    EntryLineShape(p);
    LineOfPair(p);
    SizeOfAscii(p.0 + "=");
    SizeOfSum(p.0 + "=", p.1);
  }

  lemma EntryIsRead(p: Pair)
    requires KeyName(p.0) && Value(p.1)
    ensures Classify(EntryLine(p)) == Entry(p.0, p.1) && Lower(p.0) == p.0
  {
    LowerOfName(p.0);
    EntryLineShape(p);
    LineOfPair(p);
    TrimTrims(EntryLine(p));
    TrimTrims(p.0);
    TrimTrims(p.1);
  }

  predicate AllEnterable(es: seq<Pair>) {
    forall i :: 0 <= i < |es| ==> Enterable(es[i])
  }

  lemma ReadOneEntry(c: Config, p: Pair)
    requires Enterable(p) && SetInterface(c, p.0, p.1).Ok?
    ensures Meaning(Reading(c, "interface"), Classify(EntryLine(p))) ==
      Ok(Reading(SetInterface(c, p.0, p.1).value, "interface"))
  {
    EntryIsRead(p);
  }

  lemma ReadOnePeerEntry(c: Config, before: Peer, p: Pair)
    requires Enterable(p) && SetPeer(before, p.0, p.1).Ok?
    ensures Meaning(Reading(c.(peers := c.peers + [before]), "peer"), Classify(EntryLine(p))) ==
      Ok(Reading(c.(peers := c.peers + [SetPeer(before, p.0, p.1).value]), "peer"))
  {
    EntryIsRead(p);
    LastPeerSet(c, before, SetPeer(before, p.0, p.1).value);
  }

  lemma {:induction false} ReadEntries(c: Config, es: seq<Pair>)
    requires Fold(Enter, c, es).Ok? && AllEnterable(es)
    ensures ReadLines(Reading(c, "interface"), EntryLines(es)) == Ok(Reading(Fold(Enter, c, es).value, "interface"))
  {
    if es != [] {
      var front, last := es[..|es| - 1], es[|es| - 1];
      ReadEntries(c, front);
      ReadLinesOfSum(Reading(c, "interface"), EntryLines(front), [EntryLine(last)]);
      ReadOneEntry(Fold(Enter, c, front).value, last);
      LastLine(Reading(Fold(Enter, c, front).value, "interface"), EntryLine(last));
    }
  }

  lemma LastPeerSet(c: Config, p: Peer, q: Peer)
    ensures WithLastPeer(c.(peers := c.peers + [p]), q) == c.(peers := c.peers + [q])
  {
    assert (c.peers + [p])[|c.peers| := q] == c.peers + [q];
  }

  lemma {:induction false} ReadPeerEntries(c: Config, es: seq<Pair>)
    requires Fold(EnterPeer, EMPTY_PEER, es).Ok? && AllEnterable(es)
    ensures ReadLines(Reading(c.(peers := c.peers + [EMPTY_PEER]), "peer"), EntryLines(es)) ==
      Ok(Reading(c.(peers := c.peers + [Fold(EnterPeer, EMPTY_PEER, es).value]), "peer"))
  {
    var r := Reading(c.(peers := c.peers + [EMPTY_PEER]), "peer");
    if es != [] {
      var front, last := es[..|es| - 1], es[|es| - 1];
      var before := Fold(EnterPeer, EMPTY_PEER, front).value;
      ReadPeerEntries(c, front);
      ReadLinesOfSum(r, EntryLines(front), [EntryLine(last)]);
      ReadOnePeerEntry(c, before, last);
      LastLine(Reading(c.(peers := c.peers + [before]), "peer"), EntryLine(last));
    }
  }

  // ---- The whole text ----

  function Header(name: string): string {
    "[" + name + "]"
  }

  function InterfaceLines(c: Config): seq<string> {
    [Header("interface")] + EntryLines(InterfaceEntries(c))
  }

  function PeerLines(p: Peer): seq<string> {
    [Header("peer")] + EntryLines(PeerEntries(p))
  }

  function PeersLines(show: Peer -> seq<string>, peers: seq<Peer>): seq<string> {
    if peers == [] then [] else PeersLines(show, peers[..|peers| - 1]) + show(peers[|peers| - 1])
  }

  function ConfigLines(c: Config): seq<string> {
    InterfaceLines(c) + PeersLines(PeerLines, c.peers)
  }

  lemma HeaderShape(name: string)
    requires KeyName(name)
    ensures Trimmed(Header(name)) && Trimmed(name) && '\n' !in Header(name) && DropCr(Header(name)) == Header(name)
    ensures Header(name)[1..|Header(name)| - 1] == name
  {
  }

  lemma BracketedLine(line: string, name: string)
    requires |line| > 1 && line[0] == '[' && line[|line| - 1] == ']' && line[1..|line| - 1] == name
    requires Trim(line) == line && Trim(name) == name && Lower(name) == name
    ensures Classify(line) == Section(name)
  {
  }

  lemma HeaderIsRead(name: string)
    requires KeyName(name) && |name| < 100
    ensures Classify(Header(name)) == Section(name) && Plain(Header(name))
  {
    HeaderShape(name);
    HeaderFits(name);
    TrimTrims(Header(name));
    TrimTrims(name);
    LowerOfName(name);
    BracketedLine(Header(name), name);
  }

  lemma HeaderFits(name: string)
    requires KeyName(name) && |name| < 100
    ensures Size(Header(name)) < MAX_LINE
  {
    SizeOfAscii(Header(name));
  }

  /** A key as it stands on a line, and no directive that runs something. */
  predicate Ordinary(key: string) {
    KeyName(key) && !Executable(key)
  }

  lemma ParserKeys()
    ensures Ordinary("privatekey") && Ordinary("mtu") && Ordinary("listenport") && Ordinary("fwmark")
    ensures Ordinary("address") && Ordinary("dns")
  {
  }

  lemma ParserPeerKeys()
    ensures Ordinary("publickey") && Ordinary("presharedkey") && Ordinary("endpoint")
    ensures Ordinary("persistentkeepalive") && Ordinary("allowedips")
  {
  }

  lemma {:induction false} ListEnterable(key: string, items: seq<string>, n: nat)
    requires n <= |items| && Ordinary(key) && forall a :: a in items ==> Item(key, a)
    ensures AllEnterable(Repeated(key, items, n))
  {
    if n > 0 {
      ListEnterable(key, items, n - 1);
      assert items[n - 1] in items;
    }
  }

  lemma AmneziaKeysAreOrdinary()
    ensures forall k :: k in AMNEZIA_KEYS ==> Ordinary(k)
  {
    KeyNames();
  }

  lemma {:induction false} AmneziaEnterable(keys: seq<string>, m: map<string, string>, n: nat)
    requires n <= |keys| && Obfuscation(m) && forall i :: 0 <= i < |keys| ==> Ordinary(keys[i])
    ensures AllEnterable(Present(keys, m, n))
  {
    if n > 0 {
      AmneziaEnterable(keys, m, n - 1);
    }
  }

  lemma {:induction false} WrittenEnterable(fs: seq<Field>, n: nat)
    requires n <= |fs| && forall i :: 0 <= i < |fs| ==> Enterable(fs[i].1)
    ensures AllEnterable(Written(fs, n))
  {
    if n > 0 {
      WrittenEnterable(fs, n - 1);
    }
  }

  lemma EnterableField(key: string, val: string)
    requires Ordinary(key) && Fits(key, val)
    ensures Enterable((key, val))
  {
  }

  lemma EnterableNumber(key: string, n: int)
    requires Ordinary(key) && |key| < 100 && Int64(n)
    ensures Enterable((key, SignedDecimal(n)))
  {
    SignedIsRead(n, "");
  }

  lemma HeadEnterable(c: Config)
    requires WellFormed(c)
    ensures AllEnterable(InterfaceHead(c))
  {
    ParserKeys();
    EnterableField("privatekey", c.privateKey);
    EnterableNumber("mtu", c.mtu);
    EnterableNumber("listenport", c.listenPort);
    FwMarkIsRead(c.fwMark);
    EnterableField("fwmark", Decimal(c.fwMark));
    WrittenEnterable(InterfaceFields(c), 4);
  }

  lemma InterfaceEnterable(c: Config)
    requires WellFormed(c)
    ensures AllEnterable(InterfaceEntries(c))
  {
    ParserKeys();
    HeadEnterable(c);
    ListEnterable("address", c.addresses, |c.addresses|);
    ListEnterable("dns", c.dns, |c.dns|);
    AmneziaKeysAreOrdinary();
    AmneziaEnterable(AMNEZIA_KEYS, c.amnezia, |AMNEZIA_KEYS|);
  }

  lemma PeerHeadEnterable(p: Peer)
    requires WellFormedPeer(p)
    ensures AllEnterable(PeerHead(p))
  {
    ParserPeerKeys();
    EnterableField("publickey", p.publicKey);
    EnterableField("presharedkey", p.presharedKey);
    EnterableField("endpoint", p.endpoint);
    EnterableNumber("persistentkeepalive", p.keepalive);
    WrittenEnterable(PeerFields(p), 4);
  }

  lemma PeerEnterable(p: Peer)
    requires WellFormedPeer(p)
    ensures AllEnterable(PeerEntries(p))
  {
    PeerHeadEnterable(p);
    ParserPeerKeys();
    ListEnterable("allowedips", p.allowedIps, |p.allowedIps|);
  }

  lemma ReadInterfaceLines(c: Config)
    requires WellFormed(c)
    ensures ReadLines(START, InterfaceLines(c)) == Ok(Reading(c.(peers := []), "interface"))
  {
    assert KeyName("interface");
    HeaderIsRead("interface");
    LastLine(START, Header("interface"));
    ReadLinesOfSum(START, [Header("interface")], EntryLines(InterfaceEntries(c)));
    InterfaceEntered(c);
    InterfaceEnterable(c);
    ReadEntries(EMPTY_CONFIG, InterfaceEntries(c));
  }

  lemma ReadPeerLines(r: Reading, p: Peer)
    requires WellFormedPeer(p)
    ensures ReadLines(r, PeerLines(p)) == Ok(Reading(r.cfg.(peers := r.cfg.peers + [p]), "peer"))
  {
    assert KeyName("peer");
    HeaderIsRead("peer");
    LastLine(r, Header("peer"));
    ReadLinesOfSum(r, [Header("peer")], EntryLines(PeerEntries(p)));
    PeerIsEntered(p);
    PeerEnterable(p);
    ReadPeerEntries(r.cfg, PeerEntries(p));
  }

  /** A reading with one peer more. */
  function WithPeer(r: Reading, p: Peer): Reading {
    Reading(r.cfg.(peers := r.cfg.peers + [p]), "peer")
  }

  /** Peer by peer, for anything that reads one more peer at the end of what it has read. */
  lemma {:induction false} ReadPeersLines(read: seq<string> -> Result<Reading, ParseError>, show: Peer -> seq<string>,
                                          c: Config, peers: seq<Peer>)
    requires read([]).Ok? && read([]).value.cfg == c && c.peers == []
    requires forall a, p {:trigger read(a + show(p))} :: p in peers && read(a).Ok? ==>
      read(a + show(p)) == Ok(WithPeer(read(a).value, p))
    ensures read(PeersLines(show, peers)).Ok? && read(PeersLines(show, peers)).value.cfg == c.(peers := peers)
  {
    if peers != [] {
      var front, last := peers[..|peers| - 1], peers[|peers| - 1];
      ReadPeersLines(read, show, c, front);
      var lines := PeersLines(show, front);
      assert read(lines + show(last)) == Ok(WithPeer(read(lines).value, last));
      assert c.(peers := front).(peers := front + [last]) == c.(peers := peers) by {
        assert front + [last] == peers;
      }
    }
  }

  // ---- The lines as one text ----

  function Unlines(lines: seq<string>): string {
    if lines == [] then "" else lines[0] + "\n" + Unlines(lines[1..])
  }

  predicate Plain(line: string) {
    '\n' !in line && DropCr(line) == line && Size(line) < MAX_LINE
  }

  lemma {:induction false} LinesOfUnlines(lines: seq<string>)
    requires forall i :: 0 <= i < |lines| ==> Plain(lines[i])
    ensures Scannable(Unlines(lines)) && Lines(Unlines(lines)) == lines
  {
    if lines != [] {
      LinesOfLine(lines[0], Unlines(lines[1..]));
      LinesOfUnlines(lines[1..]);
      assert [lines[0]] + lines[1..] == lines;
    }
  }

  lemma {:induction false} EntriesArePlain(es: seq<Pair>)
    requires AllEnterable(es)
    ensures forall i :: 0 <= i < |es| ==> Plain(EntryLines(es)[i])
  {
    if es != [] {
      EntriesArePlain(es[..|es| - 1]);
      EntryFits(es[|es| - 1]);
    }
  }

  lemma PeerIsPlain(p: Peer)
    requires WellFormedPeer(p)
    ensures forall i :: 0 <= i < |PeerLines(p)| ==> Plain(PeerLines(p)[i])
  {
    PeerEnterable(p);
    EntriesArePlain(PeerEntries(p));
    assert KeyName("peer");
    HeaderIsRead("peer");
  }

  lemma {:induction false} PeersArePlain(show: Peer -> seq<string>, peers: seq<Peer>)
    requires forall p, i :: p in peers && 0 <= i < |show(p)| ==> Plain(show(p)[i])
    ensures forall i :: 0 <= i < |PeersLines(show, peers)| ==> Plain(PeersLines(show, peers)[i])
  {
    if peers != [] {
      PeersArePlain(show, peers[..|peers| - 1]);
      assert peers[|peers| - 1] in peers;
    }
  }

  lemma InterfaceIsPlain(c: Config)
    requires WellFormed(c)
    ensures forall i :: 0 <= i < |InterfaceLines(c)| ==> Plain(InterfaceLines(c)[i])
  {
    InterfaceEnterable(c);
    EntriesArePlain(InterfaceEntries(c));
    assert KeyName("interface");
    HeaderIsRead("interface");
  }

  lemma PlainText(c: Config)
    requires WellFormed(c)
    ensures Scanned(Unlines(ConfigLines(c))) == ConfigLines(c) && Scannable(Unlines(ConfigLines(c)))
  {
    InterfaceIsPlain(c);
    forall p, i | p in c.peers && 0 <= i < |PeerLines(p)| ensures Plain(PeerLines(p)[i]) {
      PeerIsPlain(p);
    }
    PeersArePlain(PeerLines, c.peers);
    BothPlain(InterfaceLines(c), PeersLines(PeerLines, c.peers));
  }

  lemma BothPlain(a: seq<string>, b: seq<string>)
    requires forall i :: 0 <= i < |a| ==> Plain(a[i])
    requires forall i :: 0 <= i < |b| ==> Plain(b[i])
    ensures Scanned(Unlines(a + b)) == a + b && Scannable(Unlines(a + b))
  {
    LinesOfUnlines(a + b);
    ScannableIsScanned(Unlines(a + b));
  }

  /** The configurations that the parser returns are exactly the well-formed ones. */
  lemma RangeOfParse(c: Config)
    ensures WellFormed(c) ==> Parsed(Unlines(ConfigLines(c))) == Ok(c)
    ensures WellFormed(c) <==> exists text :: Parsed(text) == Ok(c)
  {
    if WellFormed(c) {
      CanonicalText(c);
    }
    forall text | Parsed(text) == Ok(c) ensures WellFormed(c) {
      ParsedIsWellFormed(text);
    }
  }

  lemma CanonicalText(c: Config)
    requires WellFormed(c)
    ensures Parsed(Unlines(ConfigLines(c))) == Ok(c)
  {
    PlainText(c);
    ReadInterfaceLines(c);
    ReadLinesOfSum(START, InterfaceLines(c), PeersLines(PeerLines, c.peers));
    var r := Reading(c.(peers := []), "interface");
    var read := (lines: seq<string>) => ReadLines(r, lines);
    forall a, p | p in c.peers && read(a).Ok?
      ensures read(a + PeerLines(p)) == Ok(WithPeer(read(a).value, p))
    {
      ReadLinesOfSum(r, a, PeerLines(p));
      ReadPeerLines(read(a).value, p);
    }
    ReadPeersLines(read, PeerLines, c.(peers := []), c.peers);
    assert read(PeersLines(PeerLines, c.peers)) == ReadLines(r, PeersLines(PeerLines, c.peers));
  }
}
