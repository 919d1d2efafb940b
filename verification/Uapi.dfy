/** The engine's `set` text: rendered from a configuration, and read back line by line. */
module Uapi {
  import opened Wrappers
  import opened Text
  import opened Encoding
  import opened Profile
  import opened Folding

  /** What the engine is to be told, with the keys as bytes. Zero and "" stand for "not set". */
  datatype DevicePeer = DevicePeer(
    publicKey: seq<Byte>, presharedKey: Option<seq<Byte>>, endpoint: string, keepalive: nat, allowedIps: seq<string>)

  datatype Device = Device(
    privateKey: seq<Byte>, listenPort: nat, mark: nat, amnezia: map<string, string>, peers: seq<DevicePeer>)

  datatype KeyError = NotBase64 | WrongLength(length: nat)

  datatype RenderError =
    | PrivateKeyError(e: KeyError) | PublicKeyError(peer: nat, e: KeyError) | PresharedKeyError(peer: nat, e: KeyError)

  function KeyBytes(b64: string): (r: Result<seq<Byte>, KeyError>)
    ensures r.Ok? ==> |r.value| == 32
  {
    var raw := Base64Decode(Trim(b64));
    if raw.None? then Err(NotBase64)
    else if |raw.value| != 32 then Err(WrongLength(|raw.value|))
    else Ok(raw.value)
  }

  function KeyBase64ToHex(b64: string): Result<string, KeyError> {
    var raw := KeyBytes(b64);
    if raw.Ok? then Ok(HexEncode(raw.value)) else Err(raw.error)
  }

  /** A key in its canonical base64 form comes out as the hex form of the same 32 bytes. */
  lemma KeyTravels(key: seq<Byte>)
    requires |key| == 32
    ensures KeyBytes(Base64Encode(key)) == Ok(key)
    ensures KeyBase64ToHex(Base64Encode(key)).Ok? && HexDecode(KeyBase64ToHex(Base64Encode(key)).value) == Some(key)
  {
    Base64RoundTrip(key);
    HexRoundTrip(key);
    EncodedIsTrimmed(key);
    TrimTrims(Base64Encode(key));
  }

  /** Of the texts that are base64, those of 32 bytes are keys; white space around them does not matter. */
  lemma KeyLength(bytes: seq<Byte>)
    ensures KeyBytes(Base64Encode(bytes)) == if |bytes| == 32 then Ok(bytes) else Err(WrongLength(|bytes|))
  {
    Base64RoundTrip(bytes);
    EncodedIsTrimmed(bytes);
    TrimTrims(Base64Encode(bytes));
  }

  lemma {:induction false} EncodedIsTrimmed(bytes: seq<Byte>)
    ensures Trimmed(Base64Encode(bytes)) && (bytes != [] ==> Base64Encode(bytes) != "")
  {
    if |bytes| > 3 {
      EncodedIsTrimmed(bytes[3..]);
      GroupIsTrimmed(bytes[..3]);
    } else if bytes != [] {
      GroupIsTrimmed(bytes);
    }
  }

  lemma GroupIsTrimmed(b: seq<Byte>)
    requires 1 <= |b| <= 3
    ensures Trimmed(EncodeGroup(b))
  {
  }

  // ---- What a configuration tells the engine ----

  function PeerOf(i: nat, p: Peer): Result<DevicePeer, RenderError> {
    var pub := KeyBytes(p.publicKey);
    if pub.Err? then Err(PublicKeyError(i, pub.error))
    else
      var psk := if p.presharedKey == "" then Ok([]) else KeyBytes(p.presharedKey);
      if psk.Err? then Err(PresharedKeyError(i, psk.error))
      else Ok(DevicePeer(pub.value, if p.presharedKey == "" then None else Some(psk.value), p.endpoint,
                         if p.keepalive > 0 then p.keepalive else 0, p.allowedIps))
  }

  /** The first n values, or the first error among them. */
  function Collect<T, E>(rs: seq<Result<T, E>>, n: nat): (r: Result<seq<T>, E>)
    requires n <= |rs|
    ensures r.Ok? ==> |r.value| == n
  {
    if n == 0 then Ok([])
    else
      var front := Collect(rs, n - 1);
      if front.Err? then front
      else if rs[n - 1].Err? then Err(rs[n - 1].error)
      else Ok(front.value + [rs[n - 1].value])
  }

  lemma {:induction false} ErrorStays<T, E>(rs: seq<Result<T, E>>, n: nat, m: nat)
    requires n <= m <= |rs| && Collect(rs, n).Err?
    ensures Collect(rs, m) == Collect(rs, n)
  {
    if n < m {
      ErrorStays(rs, n, m - 1);
    }
  }

  function PeersOf(peers: seq<Peer>): (rs: seq<Result<DevicePeer, RenderError>>)
    ensures |rs| == |peers|
  {
    seq(|peers|, i requires 0 <= i < |peers| => PeerOf(i, peers[i]))
  }

  function DeviceOf(amneziaWG: bool, c: Config, mark: nat): Result<Device, RenderError> {
    var priv := KeyBytes(c.privateKey);
    if priv.Err? then Err(PrivateKeyError(priv.error))
    else
      var peers := Collect(PeersOf(c.peers), |c.peers|);
      if peers.Err? then Err(peers.error)
      else Ok(Device(priv.value, if c.listenPort > 0 then c.listenPort else 0, mark,
                     if amneziaWG then c.amnezia else map[], peers.value))
  }

  /** What the engine is told about one peer, when it is told anything. */
  predicate Describes(p: Peer, d: DevicePeer) {
    && KeyBytes(p.publicKey) == Ok(d.publicKey)
    && (if p.presharedKey == "" then d.presharedKey == None
        else d.presharedKey.Some? && KeyBytes(p.presharedKey) == Ok(d.presharedKey.value))
    && (if p.keepalive <= 0 then d.keepalive == 0 else d.keepalive == p.keepalive)
    && d.endpoint == p.endpoint && d.allowedIps == p.allowedIps
  }

  /** Every key that is given is one: 32 bytes in base64. */
  predicate KeysAreKeys(p: Peer) {
    KeyBytes(p.publicKey).Ok? && (p.presharedKey != "" ==> KeyBytes(p.presharedKey).Ok?)
  }

  lemma PeerIsDescribed(i: nat, p: Peer)
    ensures PeerOf(i, p).Ok? <==> KeysAreKeys(p)
    ensures PeerOf(i, p).Ok? ==> Describes(p, PeerOf(i, p).value)
  {
  }

  lemma {:induction false} CollectedExactly<T, E>(rs: seq<Result<T, E>>, n: nat)
    requires n <= |rs|
    ensures Collect(rs, n).Ok? <==> forall i :: 0 <= i < n ==> rs[i].Ok?
    ensures Collect(rs, n).Ok? ==> forall i :: 0 <= i < n ==> rs[i] == Ok(Collect(rs, n).value[i])
    ensures Collect(rs, n).Err? ==>
      exists i :: 0 <= i < n && rs[i] == Err(Collect(rs, n).error) && forall j :: 0 <= j < i ==> rs[j].Ok?
  {
    if n > 0 {
      CollectedExactly(rs, n - 1);
    }
  }

  /**
   * The engine is told something exactly if every key is one. It is then told the configuration's
   * private key, its port if positive, the mark, the obfuscation for AmneziaWG alone, and for every
   * peer, in order, its keys, its endpoint and allowed addresses, and its keepalive if positive.
   */
  lemma DeviceDescribes(amneziaWG: bool, c: Config, mark: nat)
    ensures var r := DeviceOf(amneziaWG, c, mark);
      && (r.Ok? <==> KeyBytes(c.privateKey).Ok? && forall i :: 0 <= i < |c.peers| ==> KeysAreKeys(c.peers[i]))
      && (r.Ok? ==>
            && KeyBytes(c.privateKey) == Ok(r.value.privateKey) && r.value.mark == mark
            && (if c.listenPort <= 0 then r.value.listenPort == 0 else r.value.listenPort == c.listenPort)
            && r.value.amnezia == (if amneziaWG then c.amnezia else map[])
            && |r.value.peers| == |c.peers|
            && forall i :: 0 <= i < |c.peers| ==> Describes(c.peers[i], r.value.peers[i]))
  {
    var rs := PeersOf(c.peers);
    CollectedExactly(rs, |c.peers|);
    forall i | 0 <= i < |c.peers|
      ensures rs[i].Ok? <==> KeysAreKeys(c.peers[i])
      ensures rs[i].Ok? ==> Describes(c.peers[i], rs[i].value)
    {
      PeerIsDescribed(i, c.peers[i]);
    }
  }

  // ---- The pairs that are written, and their reading ----

  function PeerFields(p: DevicePeer): seq<Field> {
    [(true, ("public_key", HexEncode(p.publicKey))),
     (p.presharedKey.Some?, ("preshared_key", if p.presharedKey.Some? then HexEncode(p.presharedKey.value) else "")),
     (p.endpoint != "", ("endpoint", p.endpoint)),
     (p.keepalive > 0, ("persistent_keepalive_interval", Decimal(p.keepalive)))]
  }

  function PeerPairs(p: DevicePeer): seq<Pair> {
    Written(PeerFields(p), 4) + Repeated("allowed_ip", p.allowedIps, |p.allowedIps|)
  }

  function HeadFields(d: Device): seq<Field> {
    [(true, ("private_key", HexEncode(d.privateKey))),
     (d.listenPort > 0, ("listen_port", Decimal(d.listenPort))),
     (d.mark != 0, ("fwmark", Decimal(d.mark)))]
  }

  function InterfacePairs(d: Device): seq<Pair> {
    Written(HeadFields(d), 3) + Present(AMNEZIA_KEYS, d.amnezia, |AMNEZIA_KEYS|) + [("replace_peers", "true")]
  }

  function DevicePairs(d: Device): seq<Pair> {
    InterfacePairs(d) + Joined(PeerPairs, d.peers)
  }

  // ---- Rendering ----

  method WriteAmnezia(b: string, keys: seq<string>, m: map<string, string>) returns (r: string)
    ensures r == b + PairText(Present(keys, m, |keys|))
  {
    r := b;
    for i := 0 to |keys|
      invariant r == b + PairText(Present(keys, m, i))
    {
      var key := keys[i];
      if key in m {
        PutAppends(b, Present(keys, m, i), key, m[key]);
        r := Put(r, key, m[key]);
      }
    }
  }

  method WriteAllowed(b: string, ips: seq<string>) returns (r: string)
    ensures r == b + PairText(Repeated("allowed_ip", ips, |ips|))
  {
    r := b;
    for i := 0 to |ips|
      invariant r == b + PairText(Repeated("allowed_ip", ips, i))
    {
      PutAppends(b, Repeated("allowed_ip", ips, i), "allowed_ip", ips[i]);
      r := Put(r, "allowed_ip", ips[i]);
    }
  }

  /** The next field, if it is written. */
  method WriteField(b: string, text: string, ghost fs: seq<Field>, ghost n: nat, written: bool,
                    key: string, val: string) returns (r: string)
    requires n < |fs| && fs[n] == (written, (key, val)) && text == b + PairText(Written(fs, n))
    ensures r == b + PairText(Written(fs, n + 1))
  {
    if written {
      PutAppends(b, Written(fs, n), key, val);
      r := Put(text, key, val);
    } else {
      r := text;
    }
  }

  method WritePeer(b: string, i: nat, p: Peer) returns (r: Result<string, RenderError>)
    ensures r == (match PeerOf(i, p) case Ok(d) => Ok(b + PairText(PeerPairs(d))) case Err(e) => Err(e))
  {
    var pub := KeyBase64ToHex(p.publicKey);
    if pub.Err? {
      return Err(PublicKeyError(i, pub.error));
    }
    var psk := if p.presharedKey != "" then KeyBase64ToHex(p.presharedKey) else Ok("");
    if psk.Err? {
      return Err(PresharedKeyError(i, psk.error));
    }
    ghost var fs := PeerFields(PeerOf(i, p).value);
    var text := WriteField(b, b, fs, 0, true, "public_key", pub.value);
    text := WriteField(b, text, fs, 1, p.presharedKey != "", "preshared_key", psk.value);
    text := WriteField(b, text, fs, 2, p.endpoint != "", "endpoint", p.endpoint);
    var keepalive := if p.keepalive > 0 then p.keepalive else 0;
    text := WriteField(b, text, fs, 3, p.keepalive > 0, "persistent_keepalive_interval", Decimal(keepalive));
    Appended(b, Written(fs, 4), Repeated("allowed_ip", p.allowedIps, |p.allowedIps|));
    text := WriteAllowed(text, p.allowedIps);
    return Ok(text);
  }

  method WritePeers(b: string, peers: seq<Peer>) returns (r: Result<string, RenderError>)
    ensures r == (match Collect(PeersOf(peers), |peers|)
      case Ok(ds) => Ok(b + PairText(Joined(PeerPairs, ds))) case Err(e) => Err(e))
  {
    var text := b;
    ghost var rs, ds := PeersOf(peers), [];
    assert b + "" == b;
    for i := 0 to |peers|
      invariant Collect(rs, i) == Ok(ds) && text == b + PairText(Joined(PeerPairs, ds))
    {
      var next := WritePeer(text, i, peers[i]);
      assert rs[i] == PeerOf(i, peers[i]);
      if next.Err? {
        ErrorStays(rs, i + 1, |peers|);
        return next;
      }
      ghost var last := rs[i].value;
      assert next.value == text + PairText(PeerPairs(last));
      PeersTextGrows(b, ds, last);
      text, ds := next.value, ds + [last];
    }
    return Ok(text);
  }

  lemma PeersTextGrows(start: string, before: seq<DevicePeer>, last: DevicePeer)
    ensures start + PairText(Joined(PeerPairs, before)) + PairText(PeerPairs(last)) ==
      start + PairText(Joined(PeerPairs, before + [last]))
  {
    assert (before + [last])[..|before|] == before;
    Appended(start, Joined(PeerPairs, before), PeerPairs(last));
  }

  lemma EndOfInterface(head: seq<Pair>, amnezia: seq<Pair>)
    ensures Put("" + PairText(head) + PairText(amnezia), "replace_peers", "true") ==
      "" + PairText(head + amnezia + [("replace_peers", "true")])
    ensures amnezia == [] ==> "" + PairText(head) == "" + PairText(head) + PairText(amnezia)
  {
    Appended("", head, amnezia);
    PutAppends("", head + amnezia, "replace_peers", "true");
  }

  method WriteHead(priv: string, c: Config, mark: nat, ghost d: Device) returns (text: string)
    requires priv == HexEncode(d.privateKey) && d.mark == mark
    requires d.listenPort == (if c.listenPort > 0 then c.listenPort else 0)
    ensures text == "" + PairText(Written(HeadFields(d), 3))
  {
    ghost var fs := HeadFields(d);
    text := WriteField("", "", fs, 0, true, "private_key", priv);
    var listenPort := if c.listenPort > 0 then c.listenPort else 0;
    text := WriteField("", text, fs, 1, c.listenPort > 0, "listen_port", Decimal(listenPort));
    text := WriteField("", text, fs, 2, mark != 0, "fwmark", Decimal(mark));
  }

  /** Everything before the peers. */
  method WriteInterface(amneziaWG: bool, priv: string, c: Config, mark: nat, ghost d: Device) returns (text: string)
    requires priv == HexEncode(d.privateKey) && d.mark == mark
    requires d.listenPort == (if c.listenPort > 0 then c.listenPort else 0)
    requires d.amnezia == if amneziaWG then c.amnezia else map[]
    ensures text == "" + PairText(InterfacePairs(d))
  {
    ghost var head, amnezia := Written(HeadFields(d), 3), Present(AMNEZIA_KEYS, d.amnezia, |AMNEZIA_KEYS|);
    text := WriteHead(priv, c, mark, d);
    if amneziaWG {
      text := WriteAmnezia(text, AMNEZIA_KEYS, c.amnezia);
    } else {
      NoPresent(AMNEZIA_KEYS, |AMNEZIA_KEYS|);
    }
    EndOfInterface(head, amnezia);
    text := Put(text, "replace_peers", "true");
  }

  /** ToUAPIWithMark: either the text of exactly the device that the configuration describes, or its error. */
  method ToUapi(amneziaWG: bool, c: Config, mark: nat) returns (r: Result<string, RenderError>)
    ensures r == (match DeviceOf(amneziaWG, c, mark) case Ok(d) => Ok(PairText(DevicePairs(d))) case Err(e) => Err(e))
  {
    var priv := KeyBase64ToHex(c.privateKey);
    if priv.Err? {
      return Err(PrivateKeyError(priv.error));
    }
    ghost var peers := Collect(PeersOf(c.peers), |c.peers|);
    ghost var d := Device(KeyBytes(c.privateKey).value, if c.listenPort > 0 then c.listenPort else 0, mark,
                          if amneziaWG then c.amnezia else map[], if peers.Ok? then peers.value else []);
    var text := WriteInterface(amneziaWG, priv.value, c, mark, d);
    r := WritePeers(text, c.peers);
    Appended("", InterfacePairs(d), Joined(PeerPairs, d.peers));
    assert "" + PairText(DevicePairs(d)) == PairText(DevicePairs(d));
  }

  lemma {:induction false} NoPresent(keys: seq<string>, n: nat)
    requires n <= |keys|
    ensures Present(keys, map[], n) == []
  {
    if n > 0 {
      NoPresent(keys, n - 1);
    }
  }

  // ---- Reading ----

  const NO_DEVICE := Device([], 0, 0, map[], [])

  function ChangeLast(d: Device, p: DevicePeer): Device
    requires d.peers != []
  {
    d.(peers := d.peers[|d.peers| - 1 := p])
  }

  /** One line of the text, or the pair that makes no sense; the keys of a peer belong to the last public_key line. */
  function ReadPair(d: Device, p: Pair): Result<Device, Pair> {
    var (key, val) := p;
    if key in AmneziaKeySet() then Ok(d.(amnezia := d.amnezia[key := val]))
    else
      match key
      case "private_key" =>
        var bytes := HexDecode(val);
        if bytes.Some? then Ok(d.(privateKey := bytes.value)) else Err(p)
      case "listen_port" =>
        var n := Numeral(val, 10);
        if n.Some? then Ok(d.(listenPort := n.value)) else Err(p)
      case "fwmark" =>
        var n := Numeral(val, 10);
        if n.Some? then Ok(d.(mark := n.value)) else Err(p)
      case "replace_peers" => if val == "true" then Ok(d.(peers := [])) else Err(p)
      case "public_key" =>
        var bytes := HexDecode(val);
        if bytes.Some? then Ok(With(d, DevicePeer(bytes.value, None, "", 0, []))) else Err(p)
      case _ => if d.peers == [] then Err(p) else ReadPeerPair(d, p)
  }

  function ReadPeerPair(d: Device, p: Pair): Result<Device, Pair>
    requires d.peers != []
  {
    var (key, val) := p;
    var peer := d.peers[|d.peers| - 1];
    match key
    case "preshared_key" =>
      var bytes := HexDecode(val);
      if bytes.Some? then Ok(ChangeLast(d, peer.(presharedKey := bytes))) else Err(p)
    case "endpoint" => Ok(ChangeLast(d, peer.(endpoint := val)))
    case "persistent_keepalive_interval" =>
      var n := Numeral(val, 10);
      if n.Some? then Ok(ChangeLast(d, peer.(keepalive := n.value))) else Err(p)
    case "allowed_ip" => Ok(ChangeLast(d, peer.(allowedIps := peer.allowedIps + [val])))
    case _ => Err(p)
  }

  function With(d: Device, p: DevicePeer): Device {
    d.(peers := d.peers + [p])
  }

  function ReadText(text: string): Result<Device, Pair> {
    Fold(ReadPair, NO_DEVICE, Pairs(Lines(text)))
  }

  // ---- The text says what was meant ----

  /** The first letters of the obfuscation keys. */
  lemma FirstLetters()
    ensures forall i :: 0 <= i < |AMNEZIA_KEYS| ==> AMNEZIA_KEYS[i][0] in "jshcri" || AMNEZIA_KEYS[i][0] == 'd'
  {
  }

  lemma Reserved(key: string)
    requires key != "" && key[0] in "plfea"
    ensures key !in AmneziaKeySet()
  {
    FirstLetters();
  }

  lemma ReservedKeys()
    ensures "private_key" !in AmneziaKeySet() && "listen_port" !in AmneziaKeySet() && "fwmark" !in AmneziaKeySet()
    ensures "replace_peers" !in AmneziaKeySet()
  {
    Reserved("private_key");
    Reserved("listen_port");
    Reserved("fwmark");
  }

  lemma ReservedPeerKeys()
    ensures "public_key" !in AmneziaKeySet() && "preshared_key" !in AmneziaKeySet() && "endpoint" !in AmneziaKeySet()
  {
    Reserved("public_key");
    Reserved("preshared_key");
    Reserved("endpoint");
  }

  lemma MoreReservedPeerKeys()
    ensures "persistent_keepalive_interval" !in AmneziaKeySet() && "allowed_ip" !in AmneziaKeySet()
  {
    Reserved("persistent_keepalive_interval");
    Reserved("allowed_ip");
  }

  function WithAmnezia(d: Device, m: map<string, string>): Device {
    d.(amnezia := m)
  }

  lemma ReadAmnezia(d: Device, m: map<string, string>)
    requires d.amnezia == map[] && m.Keys <= AmneziaKeySet()
    ensures Fold(ReadPair, d, Present(AMNEZIA_KEYS, m, |AMNEZIA_KEYS|)) == Ok(d.(amnezia := m))
  {
    forall before, key | key in AMNEZIA_KEYS && key in m
      ensures ReadPair(WithAmnezia(d, before), (key, m[key])) == Ok(WithAmnezia(d, before[key := m[key]]))
    {
      assert key in AmneziaKeySet();
    }
    PresentFolded(ReadPair, d, AMNEZIA_KEYS, m, |AMNEZIA_KEYS|, WithAmnezia);
    AllKeys(AMNEZIA_KEYS, m);
  }

  lemma ChangedLast(d: Device, p: DevicePeer, q: DevicePeer)
    ensures ChangeLast(With(d, p), q) == With(d, q)
  {
    assert (d.peers + [p])[|d.peers| := q] == d.peers + [q];
  }

  lemma PrivateKeyLine(d: Device, bytes: seq<Byte>)
    ensures ReadPair(d, ("private_key", HexEncode(bytes))) == Ok(d.(privateKey := bytes))
  {
    ReservedKeys();
    HexRoundTrip(bytes);
  }

  lemma ListenPortLine(d: Device, n: nat)
    ensures ReadPair(d, ("listen_port", Decimal(n))) == Ok(d.(listenPort := n))
  {
    ReservedKeys();
    NumeralOfDecimal(n);
  }

  lemma MarkLine(d: Device, n: nat)
    ensures ReadPair(d, ("fwmark", Decimal(n))) == Ok(d.(mark := n))
  {
    ReservedKeys();
    NumeralOfDecimal(n);
  }

  lemma PublicKeyLine(d: Device, bytes: seq<Byte>)
    ensures ReadPair(d, ("public_key", HexEncode(bytes))) == Ok(With(d, DevicePeer(bytes, None, "", 0, [])))
  {
    ReservedPeerKeys();
    HexRoundTrip(bytes);
  }

  lemma PresharedKeyLine(d: Device, p: DevicePeer, bytes: seq<Byte>)
    ensures ReadPair(With(d, p), ("preshared_key", HexEncode(bytes))) == Ok(With(d, p.(presharedKey := Some(bytes))))
  {
    ReservedPeerKeys();
    HexRoundTrip(bytes);
    ChangedLast(d, p, p.(presharedKey := Some(bytes)));
  }

  lemma EndpointLine(d: Device, p: DevicePeer, endpoint: string)
    ensures ReadPair(With(d, p), ("endpoint", endpoint)) == Ok(With(d, p.(endpoint := endpoint)))
  {
    ReservedPeerKeys();
    ChangedLast(d, p, p.(endpoint := endpoint));
  }

  lemma KeepaliveLine(d: Device, p: DevicePeer, n: nat)
    ensures ReadPair(With(d, p), ("persistent_keepalive_interval", Decimal(n))) == Ok(With(d, p.(keepalive := n)))
  {
    MoreReservedPeerKeys();
    NumeralOfDecimal(n);
    ChangedLast(d, p, p.(keepalive := n));
  }

  lemma AllowedLine(d: Device, p: DevicePeer, ip: string)
    ensures ReadPair(With(d, p), ("allowed_ip", ip)) == Ok(With(d, p.(allowedIps := p.allowedIps + [ip])))
  {
    MoreReservedPeerKeys();
    ChangedLast(d, p, p.(allowedIps := p.allowedIps + [ip]));
  }

  function WithAllowed(d: Device, ips: seq<string>): Device {
    if d.peers == [] then d else ChangeLast(d, d.peers[|d.peers| - 1].(allowedIps := ips))
  }

  lemma WithAllowedLast(d: Device, p: DevicePeer, ips: seq<string>)
    ensures WithAllowed(With(d, p), ips) == With(d, p.(allowedIps := ips))
  {
    ChangedLast(d, p, p.(allowedIps := ips));
  }

  lemma ReadAllowed(d: Device, p: DevicePeer, ips: seq<string>)
    requires p.allowedIps == []
    ensures Fold(ReadPair, With(d, p), Repeated("allowed_ip", ips, |ips|)) == Ok(With(d, p.(allowedIps := ips)))
  {
    var start := With(d, p);
    forall before, item | item in ips
      ensures ReadPair(WithAllowed(start, before), ("allowed_ip", item)) == Ok(WithAllowed(start, before + [item]))
    {
      AllowedLine(d, p.(allowedIps := before), item);
      WithAllowedLast(d, p, before);
      WithAllowedLast(d, p, before + [item]);
    }
    WithAllowedLast(d, p, []);
    RepeatedFolded(ReadPair, start, "allowed_ip", ips, |ips|, WithAllowed);
    WithAllowedLast(d, p, ips);
    assert ips[..|ips|] == ips;
  }

  /** The fields of one peer: its public_key line opens it, the others fill it. */
  lemma ReadPeerFields(d: Device, p: DevicePeer)
    ensures Fold(ReadPair, d, Written(PeerFields(p), 4)) == Ok(With(d, p.(allowedIps := [])))
  {
    var fs := PeerFields(p);
    var p1 := DevicePeer(p.publicKey, None, "", 0, []);
    var p2 := p1.(presharedKey := p.presharedKey);
    var p3 := p2.(endpoint := p.endpoint);
    PublicKeyLine(d, p.publicKey);
    if p.presharedKey.Some? {
      PresharedKeyLine(d, p1, p.presharedKey.value);
    }
    EndpointLine(d, p2, p.endpoint);
    KeepaliveLine(d, p3, p.keepalive);
    FourFieldsFolded(ReadPair, d, fs[0], With(d, p1), fs[1], With(d, p2), fs[2], With(d, p3),
      fs[3], With(d, p.(allowedIps := [])));
    assert [fs[0], fs[1], fs[2], fs[3]] == fs;
  }

  lemma ReadPeer(d: Device, p: DevicePeer)
    ensures Fold(ReadPair, d, PeerPairs(p)) == Ok(With(d, p))
  {
    ReadPeerFields(d, p);
    FoldSum(ReadPair, d, Written(PeerFields(p), 4), Repeated("allowed_ip", p.allowedIps, |p.allowedIps|));
    ReadAllowed(d, p.(allowedIps := []), p.allowedIps);
  }

  function WithPeers(d: Device, peers: seq<DevicePeer>): Device {
    d.(peers := peers)
  }

  lemma ReadPeers(d: Device, peers: seq<DevicePeer>)
    requires d.peers == []
    ensures Fold(ReadPair, d, Joined(PeerPairs, peers)) == Ok(d.(peers := peers))
  {
    forall before, i | 0 <= i < |peers|
      ensures Fold(ReadPair, WithPeers(d, before), PeerPairs(peers[i])) == Ok(WithPeers(d, before + [peers[i]]))
    {
      ReadPeer(WithPeers(d, before), peers[i]);
    }
    JoinedFolded(ReadPair, d, PeerPairs, peers, WithPeers);
  }

  lemma ReadHead(d: Device)
    ensures Fold(ReadPair, NO_DEVICE, Written(HeadFields(d), 3)) == Ok(d.(amnezia := map[], peers := []))
  {
    var fs := HeadFields(d);
    var d1 := NO_DEVICE.(privateKey := d.privateKey);
    var d2 := d1.(listenPort := d.listenPort);
    PrivateKeyLine(NO_DEVICE, d.privateKey);
    ListenPortLine(d1, d.listenPort);
    MarkLine(d2, d.mark);
    ThreeFieldsFolded(ReadPair, NO_DEVICE, fs[0], d1, fs[1], d2, fs[2], d.(amnezia := map[], peers := []));
    assert [fs[0], fs[1], fs[2]] == fs;
  }

  lemma ReadInterface(d: Device)
    requires d.amnezia.Keys <= AmneziaKeySet()
    ensures Fold(ReadPair, NO_DEVICE, InterfacePairs(d)) == Ok(d.(peers := []))
  {
    var head, amnezia := Written(HeadFields(d), 3), Present(AMNEZIA_KEYS, d.amnezia, |AMNEZIA_KEYS|);
    ReadHead(d);
    FoldSum(ReadPair, NO_DEVICE, head, amnezia);
    ReadAmnezia(d.(amnezia := map[], peers := []), d.amnezia);
    ReservedKeys();
    FoldMore(ReadPair, NO_DEVICE, head + amnezia, ("replace_peers", "true"));
  }

  /** Reading the pairs of a device gives the device. */
  lemma ReadDevice(d: Device)
    requires d.amnezia.Keys <= AmneziaKeySet()
    ensures Fold(ReadPair, NO_DEVICE, DevicePairs(d)) == Ok(d)
  {
    ReadInterface(d);
    FoldSum(ReadPair, NO_DEVICE, InterfacePairs(d), Joined(PeerPairs, d.peers));
    ReadPeers(d.(peers := []), d.peers);
  }

  // ---- Every line carries its pair ----

  predicate Sendable(p: Pair) {
    KeyName(p.0) && Value(p.1)
  }

  lemma SendableIsCarried(p: Pair)
    requires Sendable(p)
    ensures Carried(p)
  {
  }

  lemma HexIsValue(bytes: seq<Byte>)
    ensures Value(HexEncode(bytes))
  {
    var s := HexEncode(bytes);
    if s != "" {
      assert s[0] in s && s[|s| - 1] in s;
    }
  }

  /** A device whose texts came from lines. */
  predicate Clean(d: Device) {
    && Obfuscation(d.amnezia)
    && forall p :: p in d.peers ==> Value(p.endpoint) && forall a :: a in p.allowedIps ==> Value(a)
  }

  lemma {:induction false} AmneziaSendable(keys: seq<string>, m: map<string, string>, n: nat)
    requires n <= |keys| && Obfuscation(m) && forall i :: 0 <= i < |keys| ==> KeyName(keys[i])
    ensures forall p :: p in Present(keys, m, n) ==> Sendable(p)
  {
    if n > 0 {
      AmneziaSendable(keys, m, n - 1);
    }
  }

  lemma {:induction false} AllowedSendable(ips: seq<string>, n: nat)
    requires n <= |ips| && forall a :: a in ips ==> Value(a)
    ensures forall p :: p in Repeated("allowed_ip", ips, n) ==> Sendable(p)
  {
    if n > 0 {
      AllowedSendable(ips, n - 1);
    }
  }

  lemma {:induction false} WrittenSendable(fs: seq<Field>, n: nat)
    requires n <= |fs| && forall f :: f in fs ==> Sendable(f.1)
    ensures forall p :: p in Written(fs, n) ==> Sendable(p)
  {
    if n > 0 {
      WrittenSendable(fs, n - 1);
    }
  }

  lemma FieldNames()
    ensures KeyName("public_key") && KeyName("preshared_key") && KeyName("endpoint")
    ensures KeyName("persistent_keepalive_interval") && KeyName("allowed_ip")
  {
  }

  lemma PeerSendable(p: DevicePeer)
    requires Value(p.endpoint) && forall a :: a in p.allowedIps ==> Value(a)
    ensures forall q :: q in PeerPairs(p) ==> Sendable(q)
  {
    HexIsValue(p.publicKey);
    if p.presharedKey.Some? {
      HexIsValue(p.presharedKey.value);
    }
    DigitsAreValues(p.keepalive);
    FieldNames();
    var fs := PeerFields(p);
    assert Sendable(fs[0].1) && Sendable(fs[1].1) && Sendable(fs[2].1) && Sendable(fs[3].1);
    WrittenSendable(fs, 4);
    AllowedSendable(p.allowedIps, |p.allowedIps|);
  }

  lemma {:induction false} PeersSendable(peers: seq<DevicePeer>)
    requires forall p :: p in peers ==> Value(p.endpoint) && forall a :: a in p.allowedIps ==> Value(a)
    ensures forall q :: q in Joined(PeerPairs, peers) ==> Sendable(q)
  {
    if peers != [] {
      PeersSendable(peers[..|peers| - 1]);
      PeerSendable(peers[|peers| - 1]);
    }
  }

  lemma HeadSendable(d: Device)
    ensures forall q :: q in Written(HeadFields(d), 3) ==> Sendable(q)
  {
    HexIsValue(d.privateKey);
    DigitsAreValues(d.listenPort);
    DigitsAreValues(d.mark);
    var fs := HeadFields(d);
    assert KeyName("private_key") && KeyName("listen_port") && KeyName("fwmark");
    assert Sendable(fs[0].1) && Sendable(fs[1].1) && Sendable(fs[2].1);
    WrittenSendable(fs, 3);
  }

  lemma InterfaceSendable(d: Device)
    requires Obfuscation(d.amnezia)
    ensures forall q :: q in InterfacePairs(d) ==> Sendable(q)
  {
    HeadSendable(d);
    assert Sendable(("replace_peers", "true"));
    KeyNames();
    AmneziaSendable(AMNEZIA_KEYS, d.amnezia, |AMNEZIA_KEYS|);
  }

  /** Splitting the text at newlines and at the first equals sign recovers the device. */
  lemma ReadTextOfDevice(d: Device)
    requires Clean(d)
    ensures ReadText(PairText(DevicePairs(d))) == Ok(d)
  {
    InterfaceSendable(d);
    PeersSendable(d.peers);
    forall p | p in DevicePairs(d) ensures Carried(p) {
      SendableIsCarried(p);
    }
    CarriedPairs(DevicePairs(d));
    ReadDevice(d);
  }

  lemma WellFormedGivesClean(amneziaWG: bool, c: Config, mark: nat)
    requires WellFormed(c) && DeviceOf(amneziaWG, c, mark).Ok?
    ensures Clean(DeviceOf(amneziaWG, c, mark).value)
  {
    CollectedPeers(c.peers, |c.peers|);
  }

  lemma PeerOfClean(i: nat, p: Peer)
    requires WellFormedPeer(p) && PeerOf(i, p).Ok?
    ensures Value(PeerOf(i, p).value.endpoint) && forall a :: a in PeerOf(i, p).value.allowedIps ==> Value(a)
  {
    assert PeerOf(i, p).value.endpoint == p.endpoint && PeerOf(i, p).value.allowedIps == p.allowedIps;
  }

  lemma {:induction false} CollectedPeers(peers: seq<Peer>, n: nat)
    requires n <= |peers| && Collect(PeersOf(peers), n).Ok?
    requires forall p :: p in peers ==> WellFormedPeer(p)
    ensures forall p :: p in Collect(PeersOf(peers), n).value ==>
      Value(p.endpoint) && forall a :: a in p.allowedIps ==> Value(a)
  {
    if n > 0 {
      CollectedPeers(peers, n - 1);
      assert WellFormedPeer(peers[n - 1]);
      PeerOfClean(n - 1, peers[n - 1]);
    }
  }

  /**
   * The round trip, for every text that the parser accepts and the renderer renders, and for every
   * mark: what the engine reads is the configuration's device, peers in order.
   */
  method RenderProfile(amneziaWG: bool, text: string, mark: nat)
    returns (cfg: Result<Config, ParseError>, uapi: string, ok: bool)
    ensures cfg == Parsed(text)
    ensures ok <==> cfg.Ok? && DeviceOf(amneziaWG, cfg.value, mark).Ok?
    ensures ok ==> ReadText(uapi) == Ok(DeviceOf(amneziaWG, cfg.value, mark).value)
  {
    uapi, ok := "", false;
    cfg := Parse(text);
    if cfg.Ok? {
      var rendered := ToUapi(amneziaWG, cfg.value, mark);
      if rendered.Ok? {
        ParsedIsWellFormed(text);
        WellFormedGivesClean(amneziaWG, cfg.value, mark);
        ReadTextOfDevice(DeviceOf(amneziaWG, cfg.value, mark).value);
        uapi, ok := rendered.value, true;
      }
    }
  }
}
