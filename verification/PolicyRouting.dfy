/**
 * Where packets go under the rules of a live connection. The local table is consulted first. Then
 * the rule list is walked in order; a rule sends a packet to one table, and the table's longest
 * matching prefix decides the interface.
 * A packet that leaves by the tunnel interface is encapsulated by the engine, and the outer packet,
 * carrying the engine's mark, is routed again.
 */
module PolicyRouting {
  import opened Wrappers
  import opened Kernel
  import opened Routes
  import Connect

  datatype Packet = Packet(v6: bool, dst: nat, mark: nat)

  /** The table that somebody else's rule sends a packet to, if it applies to it. */
  type Consult = (nat, Packet) -> Option<nat>

  function Width(v6: bool): nat {
    if v6 then 128 else 32
  }

  function Pow2(n: nat): (p: nat)
    ensures p > 0
  {
    if n == 0 then 1 else 2 * Pow2(n - 1)
  }

  predicate WellFormed(p: Packet) {
    p.dst < Pow2(Width(p.v6))
  }

  predicate Matches(p: Prefix, pkt: Packet) {
    p.v6 == pkt.v6 && p.bits <= Width(p.v6)
    && SameHigh(pkt.dst, p.addr, Pow2(Width(p.v6) - p.bits))
  }

  predicate SameHigh(a: nat, b: nat, size: nat)
    requires size > 0
  {
    a / size == b / size
  }

  lemma BelowSize(a: nat, size: nat)
    requires a < size
    ensures SameHigh(a, 0, size)
  {
    assert a / size == 0;
  }

  lemma DefaultMatches(pkt: Packet, table: nat)
    requires WellFormed(pkt)
    ensures Matches(DefaultRoute(pkt.v6, table).dst, pkt)
  {
    var width := Width(pkt.v6);
    BelowSize(pkt.dst, Pow2(width));
    assert width - 0 == width;
  }

  /** The route pinned for an endpoint matches that one address, in table main. */
  lemma HostRouteIsExact(e: Endpoint, pkt: Packet)
    requires e.Literal?
    ensures Matches(HostRoute(e).dst, pkt) <==> pkt.v6 == e.v6 && pkt.dst == e.addr
    ensures HostRoute(e).table == 254
  {
    assert Pow2(Width(e.v6) - HostRoute(e).dst.bits) == 1;
  }

  ghost predicate Candidate(k: State, t: nat, pkt: Packet, dev: string, r: Route) {
    dev in k.links && r in k.links[dev].routes && r.table == t && Matches(r.dst, pkt)
  }

  /** Longest-prefix match; equally long prefixes may be chosen either way. */
  ghost predicate Best(k: State, t: nat, pkt: Packet, dev: string, r: Route) {
    && Candidate(k, t, pkt, dev, r)
    && forall d, q :: Candidate(k, t, pkt, d, q) ==> q.dst.bits <= r.dst.bits
  }

  function Target(rule: Rule, pkt: Packet, consult: Consult): Option<nat> {
    match rule
    case NotFwmark(m) => if pkt.mark != m then Some(m) else None
    case SuppressDefault => Some(MAIN)
    case Foreign(id) => consult(id, pkt)
  }

  /** The rule settles the packet; suppress_prefixlength 0 refuses a default route. */
  ghost predicate Settles(k: State, rule: Rule, pkt: Packet, consult: Consult, dev: string, r: Route) {
    && Target(rule, pkt, consult).Some?
    && Best(k, Target(rule, pkt, consult).value, pkt, dev, r)
    && (rule == SuppressDefault ==> r.dst.bits > 0)
  }

  /** Of a list of rules, the first one that settles the packet says so. */
  ghost predicate Walked(k: State, rules: seq<Rule>, pkt: Packet, consult: Consult, dev: string, r: Route) {
    rules != [] &&
    (Settles(k, rules[0], pkt, consult, dev, r)
     || ((forall d, q :: !Settles(k, rules[0], pkt, consult, d, q)) && Walked(k, rules[1..], pkt, consult, dev, r)))
  }

  /** The packet leaves by `dev` over route `r`: the local table says so, or it is silent and the rules do. */
  ghost predicate Leaves(k: State, rules: seq<Rule>, pkt: Packet, consult: Consult, dev: string, r: Route) {
    || Best(k, LOCAL, pkt, dev, r)
    || (Silent(k, LOCAL, pkt) && Walked(k, rules, pkt, consult, dev, r))
  }

  /** The table has no route for the packet. */
  ghost predicate Silent(k: State, t: nat, pkt: Packet) {
    forall dev, r :: !Candidate(k, t, pkt, dev, r)
  }

  /** The table has no route for the packet but a default one. */
  ghost predicate OnlyDefault(k: State, t: nat, pkt: Packet) {
    forall dev, r :: Candidate(k, t, pkt, dev, r) ==> r.dst.bits == 0
  }

  /**
   * With the endpoint's route in table main, no list that starts with the suppressing rule sends a
   * packet to that endpoint by any other route, whatever its mark and whatever tunnel is up.
   */
  lemma EndpointByItsRoute(k: State, rest: seq<Rule>, e: Endpoint, uplink: string, pkt: Packet, consult: Consult,
                           dev: string, r: Route)
    requires e.Literal? && uplink in k.links && HostRoute(e) in k.links[uplink].routes
    requires pkt.v6 == e.v6 && pkt.dst == e.addr && Silent(k, LOCAL, pkt)
    requires Leaves(k, [SuppressDefault] + rest, pkt, consult, dev, r)
    ensures r == HostRoute(e) && dev in k.links && r in k.links[dev].routes
  {
    HostRouteIsExact(e, pkt);
    var rules := [SuppressDefault] + rest;
    assert Candidate(k, MAIN, pkt, uplink, HostRoute(e));
    forall d, q | Candidate(k, MAIN, pkt, d, q) ensures q.dst.bits <= HostRoute(e).dst.bits {}
    assert Best(k, MAIN, pkt, uplink, HostRoute(e));
    assert Settles(k, rules[0], pkt, consult, uplink, HostRoute(e));
    assert Settles(k, rules[0], pkt, consult, dev, r);
    assert Pow2(Width(e.v6) - r.dst.bits) == 1;
  }

  /** A network: the kernel, the tunnel interface, the engine's mark and its peers' addresses. */
  datatype Network = Network(k: State, consult: Consult, iface: string, mark: nat, peers: set<(bool, nat)>)

  function Outer(n: Network, peer: (bool, nat)): Packet {
    Packet(peer.0, peer.1, n.mark)
  }

  ghost predicate ByTunnel(n: Network, pkt: Packet) {
    exists r :: Leaves(n.k, Rules(n.k, pkt.v6), pkt, n.consult, n.iface, r)
  }

  /** Some journey of the packet encapsulates it `times` times. */
  ghost predicate Encapsulated(n: Network, pkt: Packet, times: nat)
    decreases times
  {
    times == 0
    || (ByTunnel(n, pkt) && exists peer :: peer in n.peers && Encapsulated(n, Outer(n, peer), times - 1))
  }

  /** Only the connection's own rules name its table, and its interface has no other way to a peer. */
  ghost predicate Unentangled(n: Network, m: nat) {
    && m != 254 && m != 255
    && (forall id: nat, pkt: Packet :: pkt.mark == m ==> n.consult(id, pkt) != Some(m))
    && (n.iface in n.k.links ==>
          forall r, peer :: r in n.k.links[n.iface].routes && peer in n.peers && r.table != m ==>
            !Matches(r.dst, Outer(n, peer)))
  }

  /** A packet with the table's mark is never sent to that table, whatever the other rules are. */
  lemma {:induction false} MarkedAvoidsTable(n: Network, rules: seq<Rule>, pkt: Packet, dev: string, r: Route)
    requires Unentangled(n, pkt.mark) && Walked(n.k, rules, pkt, n.consult, dev, r)
    ensures r.table != pkt.mark && Candidate(n.k, r.table, pkt, dev, r)
  {
    if !Settles(n.k, rules[0], pkt, n.consult, dev, r) {
      MarkedAvoidsTable(n, rules[1..], pkt, dev, r);
    }
  }

  lemma MarkedNeverTunnelled(n: Network, peer: (bool, nat))
    requires Unentangled(n, n.mark) && peer in n.peers
    ensures !ByTunnel(n, Outer(n, peer))
  {
    var pkt := Outer(n, peer);
    forall r | Leaves(n.k, Rules(n.k, pkt.v6), pkt, n.consult, n.iface, r)
      ensures false
    {
      if !Best(n.k, LOCAL, pkt, n.iface, r) {
        MarkedAvoidsTable(n, Rules(n.k, pkt.v6), pkt, n.iface, r);
      }
    }
  }

  /** At most one encapsulation, when the engine's mark is the mark of the rules. */
  lemma AtMostOnce(n: Network, pkt: Packet, times: nat)
    requires Unentangled(n, n.mark) && Encapsulated(n, pkt, times)
    ensures times <= 1
  {
    if times > 1 {
      var peer :| peer in n.peers && Encapsulated(n, Outer(n, peer), times - 1);
      MarkedNeverTunnelled(n, peer);
    }
  }

  /** The two installed rules stand in front of a family's list, and the default route is in the table. */
  ghost predicate FullyRouted(k: State, v6: bool, iface: string, m: nat) {
    && |Rules(k, v6)| >= 2 && Rules(k, v6)[..2] == InstalledRules(m, 2)
    && iface in k.links && DefaultRoute(v6, m) in k.links[iface].routes
  }

  /** What an unmarked packet of a full tunnel may take: a local route, a specific one, or the tunnel's. */
  predicate Proper(r: Route, m: nat) {
    r.table == LOCAL || r.table == m || (r.table == MAIN && r.dst.bits > 0)
  }

  lemma UnmarkedWalk(k: State, consult: Consult, iface: string, m: nat, pkt: Packet, dev: string, r: Route)
    requires FullyRouted(k, pkt.v6, iface, m) && WellFormed(pkt) && pkt.mark != m
    requires Walked(k, Rules(k, pkt.v6), pkt, consult, dev, r)
    ensures Best(k, m, pkt, dev, r) || (Candidate(k, MAIN, pkt, dev, r) && r.dst.bits > 0)
  {
    var rules := Rules(k, pkt.v6);
    assert rules[..2][0] == rules[0] && rules[..2][1] == rules[1];
    if !Settles(k, rules[0], pkt, consult, dev, r) && !Settles(k, rules[1..][0], pkt, consult, dev, r) {
      DefaultMatches(pkt, m);
      var d, q := BestExists(k, m, pkt, iface, DefaultRoute(pkt.v6, m));
      assert Settles(k, rules[1..][0], pkt, consult, d, q);
    }
  }

  /** With a full tunnel, an unmarked packet never leaves by main's default route. */
  lemma UnmarkedAvoidsDefault(k: State, consult: Consult, iface: string, m: nat, pkt: Packet, dev: string, r: Route)
    requires FullyRouted(k, pkt.v6, iface, m) && WellFormed(pkt) && pkt.mark != m
    requires Leaves(k, Rules(k, pkt.v6), pkt, consult, dev, r)
    ensures Proper(r, m)
  {
    if !Best(k, LOCAL, pkt, dev, r) {
      UnmarkedWalk(k, consult, iface, m, pkt, dev, r);
    }
  }

  /** Such a packet does leave. */
  lemma UnmarkedLeaves(k: State, consult: Consult, iface: string, m: nat, pkt: Packet) returns (dev: string, r: Route)
    requires FullyRouted(k, pkt.v6, iface, m) && WellFormed(pkt) && pkt.mark != m
    ensures Leaves(k, Rules(k, pkt.v6), pkt, consult, dev, r)
  {
    var rules := Rules(k, pkt.v6);
    assert rules[..2][0] == rules[0] && rules[..2][1] == rules[1];
    if d, q :| Candidate(k, LOCAL, pkt, d, q) {
      dev, r := BestExists(k, LOCAL, pkt, d, q);
    } else if d, q :| Settles(k, rules[0], pkt, consult, d, q) {
      dev, r := d, q;
    } else {
      DefaultMatches(pkt, m);
      dev, r := BestExists(k, m, pkt, iface, DefaultRoute(pkt.v6, m));
      assert Settles(k, rules[1..][0], pkt, consult, dev, r);
      assert Walked(k, rules[1..], pkt, consult, dev, r);
    }
  }

  /** A table with a matching route has a longest one. */
  lemma {:induction false} BestExists(k: State, t: nat, pkt: Packet, dev: string, r: Route)
    returns (d: string, q: Route)
    requires Candidate(k, t, pkt, dev, r)
    ensures Best(k, t, pkt, d, q)
    decreases Width(pkt.v6) - r.dst.bits
  {
    if d', q' :| Candidate(k, t, pkt, d', q') && q'.dst.bits > r.dst.bits {
      d, q := BestExists(k, t, pkt, d', q');
    } else {
      d, q := dev, r;
    }
  }

  /**
   * A live connection: its engine's mark is the mark of its rules, so every packet is encapsulated
   * at most once, and no unmarked packet of a full-tunnel family leaves by main's default route.
   */
  lemma LiveConnectionRoutes(c: Connect.Conn, cfg: Config, opts: Connect.Options, base: State, residue: Residue,
                             consult: Consult, peers: set<(bool, nat)>, pkt: Packet, times: nat)
    requires c.Valid() && c.Live(cfg, opts, base, residue)
    ensures var n := Network(c.host.kernel, consult, c.iface, c.host.engine.value.mark, peers);
      Unentangled(n, EffectiveMark(cfg)) && Encapsulated(n, pkt, times) ==> times <= 1
    ensures FullTunnel(cfg, pkt.v6) && WellFormed(pkt) && pkt.mark != EffectiveMark(cfg) ==>
      forall dev, r :: Leaves(c.host.kernel, Rules(c.host.kernel, pkt.v6), pkt, consult, dev, r) ==>
        Proper(r, EffectiveMark(cfg))
  {
    var k := c.host.kernel;
    var n := Network(k, consult, c.iface, c.host.engine.value.mark, peers);
    if Unentangled(n, EffectiveMark(cfg)) && Encapsulated(n, pkt, times) {
      AtMostOnce(n, pkt, times);
    }
    if FullTunnel(cfg, pkt.v6) && WellFormed(pkt) && pkt.mark != EffectiveMark(cfg) {
      var rest := Rules(base, pkt.v6);
      assert Rules(k, pkt.v6) == InstalledRules(EffectiveMark(cfg), 2) + rest;
      assert FullyRouted(k, pkt.v6, c.iface, EffectiveMark(cfg));
      forall dev, r | Leaves(k, Rules(k, pkt.v6), pkt, consult, dev, r) ensures Proper(r, EffectiveMark(cfg)) {
        UnmarkedAvoidsDefault(k, consult, c.iface, EffectiveMark(cfg), pkt, dev, r);
      }
    }
  }

  /** Every route that the table has for the packet goes through the tunnel. */
  ghost predicate TunnelOnly(n: Network, t: nat, pkt: Packet) {
    forall dev, r :: Candidate(n.k, t, pkt, dev, r) ==> dev == n.iface
  }

  /** An outer packet that is sent back to the tunnel goes round for ever. */
  lemma {:induction false} GoesRound(n: Network, peer: (bool, nat), times: nat)
    requires peer in n.peers && ByTunnel(n, Outer(n, peer))
    ensures Encapsulated(n, Outer(n, peer), times)
    decreases times
  {
    if times > 0 {
      GoesRound(n, peer, times - 1);
    }
  }

  /**
   * The two marks must agree: were the engine's mark another one, and no route more specific than
   * a default led to the peer, every packet to the tunnel would be encapsulated without end.
   */
  lemma DifferentMarksLoop(n: Network, m: nat, peer: (bool, nat), times: nat)
    requires peer in n.peers && n.mark != m && WellFormed(Outer(n, peer)) && FullyRouted(n.k, peer.0, n.iface, m)
    requires TunnelOnly(n, LOCAL, Outer(n, peer)) && TunnelOnly(n, m, Outer(n, peer))
    requires OnlyDefault(n.k, MAIN, Outer(n, peer))
    ensures Encapsulated(n, Outer(n, peer), times)
  {
    var pkt := Outer(n, peer);
    var dev, r := UnmarkedLeaves(n.k, n.consult, n.iface, m, pkt);
    if !Best(n.k, LOCAL, pkt, dev, r) {
      UnmarkedWalk(n.k, n.consult, n.iface, m, pkt, dev, r);
    }
    assert dev == n.iface;
    GoesRound(n, peer, times);
  }

  // ---- Which marks loop, exactly ----

  /** The rules that a kernel starts with: everything to main, and what main leaves over to the default table. */
  ghost predicate SendsOn(consult: Consult, main: nat, rest: nat) {
    forall pkt :: consult(main, pkt) == Some(MAIN) && consult(rest, pkt) == Some(DEFAULT_TABLE)
  }

  /** A host with nothing but its own rules and the connection's, and default routes alone on the tunnel. */
  ghost predicate Standard(n: Network, v6: bool, main: nat, rest: nat) {
    && SendsOn(n.consult, main, rest)
    && (Rules(n.k, v6) == [Foreign(main), Foreign(rest)]
        || Rules(n.k, v6) == InstalledRules(n.mark, 2) + [Foreign(main), Foreign(rest)])
    && (n.iface in n.k.links ==>
          forall r :: r in n.k.links[n.iface].routes && r.dst.v6 == v6 ==> r == DefaultRoute(v6, n.mark))
  }

  ghost predicate HasDefault(n: Network, v6: bool) {
    n.iface in n.k.links && DefaultRoute(v6, n.mark) in n.k.links[n.iface].routes
  }

  /**
   * The mark is the number of one of the kernel's own tables, and that table's default route is
   * where the lookup of the packet ends.
   */
  ghost predicate MarkLoops(n: Network, pkt: Packet) {
    && HasDefault(n, pkt.v6) && OnlyDefault(n.k, n.mark, pkt)
    && (|| n.mark == 255
        || (n.mark == 254 && Silent(n.k, LOCAL, pkt))
        || (n.mark == 253 && Silent(n.k, LOCAL, pkt) && Silent(n.k, MAIN, pkt)))
  }

  /** What the tunnel has for a packet: its family's default route in the connection's table, or nothing. */
  lemma TunnelCandidates(n: Network, main: nat, rest: nat, pkt: Packet, t: nat, r: Route)
    requires Standard(n, pkt.v6, main, rest) && Candidate(n.k, t, pkt, n.iface, r)
    ensures r == DefaultRoute(pkt.v6, n.mark) && t == n.mark && HasDefault(n, pkt.v6)
  {
  }

  /** A table whose longest route is the tunnel's. */
  ghost predicate EndsInTunnel(n: Network, t: nat, pkt: Packet) {
    exists r :: Best(n.k, t, pkt, n.iface, r)
  }

  lemma TunnelIsBest(n: Network, main: nat, rest: nat, pkt: Packet, t: nat)
    requires Standard(n, pkt.v6, main, rest) && WellFormed(pkt)
    ensures EndsInTunnel(n, t, pkt) <==> t == n.mark && HasDefault(n, pkt.v6) && OnlyDefault(n.k, t, pkt)
  {
    if EndsInTunnel(n, t, pkt) {
      var r :| Best(n.k, t, pkt, n.iface, r);
      TunnelCandidates(n, main, rest, pkt, t, r);
    }
    if t == n.mark && HasDefault(n, pkt.v6) && OnlyDefault(n.k, t, pkt) {
      DefaultMatches(pkt, t);
      assert Best(n.k, t, pkt, n.iface, DefaultRoute(pkt.v6, t));
    }
  }

  ghost predicate WalksToTunnel(n: Network, rules: seq<Rule>, pkt: Packet) {
    exists r :: Walked(n.k, rules, pkt, n.consult, n.iface, r)
  }

  /** A foreign rule that sends every packet to a table: it ends there unless the table is silent. */
  lemma ForeignWalk(n: Network, id: nat, rules: seq<Rule>, pkt: Packet, t: nat)
    requires n.consult(id, pkt) == Some(t)
    ensures WalksToTunnel(n, [Foreign(id)] + rules, pkt) <==>
      EndsInTunnel(n, t, pkt) || (Silent(n.k, t, pkt) && WalksToTunnel(n, rules, pkt))
  {
    var all := [Foreign(id)] + rules;
    assert all[0] == Foreign(id) && all[1..] == rules;
    assert forall dev, r :: Settles(n.k, all[0], pkt, n.consult, dev, r) <==> Best(n.k, t, pkt, dev, r);
    if !Silent(n.k, t, pkt) {
      var dev, r :| Candidate(n.k, t, pkt, dev, r);
      var d, q := BestExists(n.k, t, pkt, dev, r);
      assert Settles(n.k, all[0], pkt, n.consult, d, q);
    }
    if r :| Walked(n.k, all, pkt, n.consult, n.iface, r) {
      if Settles(n.k, all[0], pkt, n.consult, n.iface, r) {
        assert EndsInTunnel(n, t, pkt);
      } else {
        assert Walked(n.k, rules, pkt, n.consult, n.iface, r);
      }
    }
    if EndsInTunnel(n, t, pkt) {
      var r :| Best(n.k, t, pkt, n.iface, r);
      assert Walked(n.k, all, pkt, n.consult, n.iface, r);
    }
    if Silent(n.k, t, pkt) && WalksToTunnel(n, rules, pkt) {
      var r :| Walked(n.k, rules, pkt, n.consult, n.iface, r);
      assert Walked(n.k, all, pkt, n.consult, n.iface, r);
    }
  }

  /** The kernel's own two rules. */
  lemma BaseWalk(n: Network, main: nat, rest: nat, pkt: Packet)
    requires SendsOn(n.consult, main, rest)
    ensures WalksToTunnel(n, [Foreign(main), Foreign(rest)], pkt) <==>
      EndsInTunnel(n, MAIN, pkt) || (Silent(n.k, MAIN, pkt) && EndsInTunnel(n, DEFAULT_TABLE, pkt))
  {
    assert [Foreign(main), Foreign(rest)] == [Foreign(main)] + ([Foreign(rest)] + []);
    ForeignWalk(n, main, [Foreign(rest)] + [], pkt, MAIN);
    ForeignWalk(n, rest, [], pkt, DEFAULT_TABLE);
  }

  /** The installed rules in front leave a marked packet to the kernel's own, or settle it outside the tunnel. */
  lemma InstalledWalk(n: Network, main: nat, rest: nat, base: seq<Rule>, pkt: Packet)
    requires Standard(n, pkt.v6, main, rest) && pkt.mark == n.mark
    ensures WalksToTunnel(n, InstalledRules(n.mark, 2) + base, pkt) <==>
      OnlyDefault(n.k, MAIN, pkt) && WalksToTunnel(n, base, pkt)
  {
    var all := InstalledRules(n.mark, 2) + base;
    assert all[0] == SuppressDefault && all[1] == NotFwmark(n.mark) && all[1..][1..] == base;
    assert forall dev, r :: !Settles(n.k, all[1..][0], pkt, n.consult, dev, r);
    assert forall r ::
      Walked(n.k, all[1..], pkt, n.consult, n.iface, r) <==> Walked(n.k, base, pkt, n.consult, n.iface, r);
    if !OnlyDefault(n.k, MAIN, pkt) {
      var dev, r :| Candidate(n.k, MAIN, pkt, dev, r) && r.dst.bits > 0;
      var d, q := BestExists(n.k, MAIN, pkt, dev, r);
      assert Settles(n.k, all[0], pkt, n.consult, d, q);
    }
    forall r | Settles(n.k, all[0], pkt, n.consult, n.iface, r) ensures false {
      TunnelCandidates(n, main, rest, pkt, MAIN, r);
    }
    if r :| Walked(n.k, all, pkt, n.consult, n.iface, r) {
      assert Walked(n.k, all[1..], pkt, n.consult, n.iface, r);
    }
    if OnlyDefault(n.k, MAIN, pkt) && WalksToTunnel(n, base, pkt) {
      var r :| Walked(n.k, base, pkt, n.consult, n.iface, r);
      assert forall dev, q :: !Settles(n.k, all[0], pkt, n.consult, dev, q);
      assert Walked(n.k, all, pkt, n.consult, n.iface, r);
    }
  }

  lemma TunnelByTable(n: Network, pkt: Packet)
    ensures ByTunnel(n, pkt) <==>
      EndsInTunnel(n, LOCAL, pkt) || (Silent(n.k, LOCAL, pkt) && WalksToTunnel(n, Rules(n.k, pkt.v6), pkt))
  {
    if ByTunnel(n, pkt) {
      var r :| Leaves(n.k, Rules(n.k, pkt.v6), pkt, n.consult, n.iface, r);
    }
    if EndsInTunnel(n, LOCAL, pkt) {
      var r :| Best(n.k, LOCAL, pkt, n.iface, r);
      assert Leaves(n.k, Rules(n.k, pkt.v6), pkt, n.consult, n.iface, r);
    } else if Silent(n.k, LOCAL, pkt) && WalksToTunnel(n, Rules(n.k, pkt.v6), pkt) {
      var r :| Walked(n.k, Rules(n.k, pkt.v6), pkt, n.consult, n.iface, r);
      assert Leaves(n.k, Rules(n.k, pkt.v6), pkt, n.consult, n.iface, r);
    }
  }

  /** On a standard host, an outer packet comes back to the tunnel if and only if its mark loops. */
  lemma MarkedTunnelledExactly(n: Network, main: nat, rest: nat, peer: (bool, nat))
    requires Standard(n, peer.0, main, rest) && WellFormed(Outer(n, peer))
    ensures ByTunnel(n, Outer(n, peer)) <==> MarkLoops(n, Outer(n, peer))
  {
    var pkt := Outer(n, peer);
    TunnelByTable(n, pkt);
    TunnelIsBest(n, main, rest, pkt, LOCAL);
    TunnelIsBest(n, main, rest, pkt, MAIN);
    TunnelIsBest(n, main, rest, pkt, DEFAULT_TABLE);
    BaseWalk(n, main, rest, pkt);
    InstalledWalk(n, main, rest, [Foreign(main), Foreign(rest)], pkt);
  }

  /**
   * On a standard host, no packet is encapsulated twice if and only if the mark loops for no peer:
   * it is the number of no kernel table, or the tunnel has no default route that the peer's
   * lookup ends at.
   */
  lemma AtMostOnceExactly(n: Network, main: nat, rest: nat)
    requires Standard(n, false, main, rest) && Standard(n, true, main, rest)
    requires forall peer :: peer in n.peers ==> WellFormed(Outer(n, peer))
    ensures (forall pkt, times: nat :: Encapsulated(n, pkt, times) ==> times <= 1) <==>
      forall peer :: peer in n.peers ==> !MarkLoops(n, Outer(n, peer))
  {
    forall peer | peer in n.peers ensures ByTunnel(n, Outer(n, peer)) <==> MarkLoops(n, Outer(n, peer)) {
      MarkedTunnelledExactly(n, main, rest, peer);
    }
    forall pkt, times: nat | Encapsulated(n, pkt, times)
      ensures times <= 1 || exists peer :: peer in n.peers && ByTunnel(n, Outer(n, peer))
    {
      if times > 1 {
        var peer :| peer in n.peers && Encapsulated(n, Outer(n, peer), times - 1);
      }
    }
    if peer :| peer in n.peers && MarkLoops(n, Outer(n, peer)) {
      GoesRound(n, peer, 2);
      assert Encapsulated(n, Outer(n, peer), 2);
    }
  }

  /** So it is for a live connection over the kernel's own rules, with default routes alone on its interface. */
  lemma LiveConnectionExactly(c: Connect.Conn, cfg: Config, opts: Connect.Options, base: State, residue: Residue,
                              consult: Consult, peers: set<(bool, nat)>, main: nat, rest: nat)
    requires c.Valid() && c.Live(cfg, opts, base, residue) && SendsOn(consult, main, rest)
    requires base.rules4 == [Foreign(main), Foreign(rest)] && base.rules6 == [Foreign(main), Foreign(rest)]
    requires c.iface in c.host.kernel.links && forall r :: r in c.host.kernel.links[c.iface].routes ==>
      r == DefaultRoute(r.dst.v6, EffectiveMark(cfg))
    requires forall peer :: peer in peers ==> WellFormed(Packet(peer.0, peer.1, EffectiveMark(cfg)))
    ensures var n := Network(c.host.kernel, consult, c.iface, EffectiveMark(cfg), peers);
      (forall pkt, times: nat :: Encapsulated(n, pkt, times) ==> times <= 1) <==>
        forall peer :: peer in peers ==> !MarkLoops(n, Outer(n, peer))
  {
    var n := Network(c.host.kernel, consult, c.iface, EffectiveMark(cfg), peers);
    assert [] + base.rules4 == base.rules4 && [] + base.rules6 == base.rules6;
    AtMostOnceExactly(n, main, rest);
  }

  /** The mark 255, which a profile can ask for: the local table then sends the outer packets back to the tunnel. */
  lemma LocalMarkLoops(n: Network, peer: (bool, nat), times: nat)
    requires peer in n.peers && n.mark == 255 && WellFormed(Outer(n, peer)) && HasDefault(n, peer.0)
    requires TunnelOnly(n, LOCAL, Outer(n, peer))
    ensures Encapsulated(n, Outer(n, peer), times)
  {
    var pkt := Outer(n, peer);
    DefaultMatches(pkt, LOCAL);
    var d, q := BestExists(n.k, LOCAL, pkt, n.iface, DefaultRoute(pkt.v6, LOCAL));
    assert Leaves(n.k, Rules(n.k, pkt.v6), pkt, n.consult, d, q);
    GoesRound(n, peer, times);
  }

  /** The mark 254: the rule that sends everything to main sends the outer packets back to the tunnel. */
  lemma MainMarkLoops(n: Network, id: nat, peer: (bool, nat), times: nat)
    requires peer in n.peers && n.mark == 254 && WellFormed(Outer(n, peer)) && HasDefault(n, peer.0)
    requires Rules(n.k, peer.0) == InstalledRules(MAIN, 2) + [Foreign(id)]
    requires n.consult(id, Outer(n, peer)) == Some(MAIN)
    requires TunnelOnly(n, LOCAL, Outer(n, peer)) && TunnelOnly(n, MAIN, Outer(n, peer))
    ensures Encapsulated(n, Outer(n, peer), times)
  {
    var pkt := Outer(n, peer);
    var rules := Rules(n.k, pkt.v6);
    if dev, r :| Candidate(n.k, LOCAL, pkt, dev, r) {
      var d, q := BestExists(n.k, LOCAL, pkt, dev, r);
      assert Leaves(n.k, rules, pkt, n.consult, d, q);
    } else {
      assert rules[1..][1..][0] == Foreign(id);
      DefaultMatches(pkt, MAIN);
      var d, q := BestExists(n.k, MAIN, pkt, n.iface, DefaultRoute(pkt.v6, MAIN));
      assert Settles(n.k, rules[1..][1..][0], pkt, n.consult, d, q);
      assert forall x, y :: !Settles(n.k, rules[1..][0], pkt, n.consult, x, y);
      assert Walked(n.k, rules[1..], pkt, n.consult, d, q);
      if x, y :| Settles(n.k, rules[0], pkt, n.consult, x, y) {
        assert x == n.iface && Leaves(n.k, rules, pkt, n.consult, x, y);
      } else {
        assert Leaves(n.k, rules, pkt, n.consult, d, q);
      }
    }
    GoesRound(n, peer, times);
  }
}
