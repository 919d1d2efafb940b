/** The forced cleanup command: interfaces, tables, four rounds of rule deletions, and a table flush. */
module Recovery {
  import opened Wrappers
  import opened Kernel
  import opened Routes
  import Connect

  const ROUNDS: nat := 4

  /** The rules that a connection with the default mark installs. */
  const OURS: Rule := NotFwmark(DEFAULT_MARK)

  function Count(rules: seq<Rule>, r: Rule): nat {
    multiset(rules)[r]
  }

  /** The list without its first n copies of `r`. */
  function DropFirst(rules: seq<Rule>, r: Rule, n: nat): seq<Rule>
    decreases n
  {
    if n == 0 then rules else DropFirst(RemoveFirst(rules, r), r, n - 1)
  }

  /** What four rounds of deletions leave of one family's rules. */
  function Cleared(rules: seq<Rule>): seq<Rule> {
    DropFirst(DropFirst(rules, OURS, ROUNDS), SuppressDefault, ROUNDS)
  }

  /** The rules of everyone else, in their order. */
  function Others(rules: seq<Rule>): seq<Rule> {
    if rules == [] then []
    else if rules[0] == OURS || rules[0] == SuppressDefault then Others(rules[1..])
    else [rules[0]] + Others(rules[1..])
  }

  function WithoutManaged(links: Links): Links {
    links - {InterfaceName(AmneziaWG), InterfaceName(WireGuard), InterfaceName(OpenVPN)}
  }

  /** The kernel after a recovery in which no command was made to fail. */
  function Recovered(k: State): State {
    var links := WithoutManaged(k.links);
    k.(links := map dev | dev in links :: FlushTable(links[dev], DEFAULT_MARK),
       tables := k.tables - {IPV6_GUARD_TABLE, TRANSITION_GUARD_TABLE, CONNMARK_TABLE},
       rules4 := Cleared(k.rules4), rules6 := Cleared(k.rules6))
  }

  // ---- Removing copies ----

  lemma {:induction false} RemoveOne(rules: seq<Rule>, r: Rule)
    requires r in rules
    ensures multiset(RemoveFirst(rules, r)) == multiset(rules) - multiset{r}
  {
    assert rules == [rules[0]] + rules[1..];
    if rules[0] != r {
      RemoveOne(rules[1..], r);
    }
  }

  lemma {:induction false} RemovesCommute(rules: seq<Rule>, r: Rule, q: Rule)
    requires r != q
    ensures RemoveFirst(RemoveFirst(rules, r), q) == RemoveFirst(RemoveFirst(rules, q), r)
  {
    if rules != [] {
      var head, rest := rules[0], rules[1..];
      RemovesCommute(rest, r, q);
      assert ([head] + RemoveFirst(rest, r))[1..] == RemoveFirst(rest, r);
      assert ([head] + RemoveFirst(rest, q))[1..] == RemoveFirst(rest, q);
    }
  }

  lemma {:induction false} DropCommutes(rules: seq<Rule>, r: Rule, n: nat, q: Rule)
    requires r != q
    ensures DropFirst(RemoveFirst(rules, q), r, n) == RemoveFirst(DropFirst(rules, r, n), q)
    decreases n
  {
    if n > 0 {
      RemovesCommute(rules, r, q);
      DropCommutes(RemoveFirst(rules, r), r, n - 1, q);
    }
  }

  lemma {:induction false} DropOneMore(rules: seq<Rule>, r: Rule, n: nat)
    ensures DropFirst(rules, r, n + 1) == RemoveFirst(DropFirst(rules, r, n), r)
    decreases n
  {
    if n > 0 {
      DropOneMore(RemoveFirst(rules, r), r, n - 1);
    }
  }

  lemma {:induction false} DropCounts(rules: seq<Rule>, r: Rule, n: nat, q: Rule)
    ensures Count(DropFirst(rules, r, n), q) ==
      if q != r then Count(rules, q) else if Count(rules, q) > n then Count(rules, q) - n else 0
    decreases n
  {
    if n > 0 {
      RemoveCounts(rules, r, q);
      DropCounts(RemoveFirst(rules, r), r, n - 1, q);
    }
  }

  lemma RemoveCounts(rules: seq<Rule>, r: Rule, q: Rule)
    ensures Count(RemoveFirst(rules, r), q) ==
      if q == r && Count(rules, r) > 0 then Count(rules, q) - 1 else Count(rules, q)
  {
    if r in rules {
      RemoveOne(rules, r);
    } else {
      RemoveAbsent(rules, r);
    }
  }

  lemma {:induction false} RemoveKeepsOthers(rules: seq<Rule>, r: Rule)
    requires r == OURS || r == SuppressDefault
    ensures Others(RemoveFirst(rules, r)) == Others(rules)
  {
    if rules != [] && rules[0] != r {
      RemoveKeepsOthers(rules[1..], r);
      assert ([rules[0]] + RemoveFirst(rules[1..], r))[1..] == RemoveFirst(rules[1..], r);
    }
  }

  lemma {:induction false} DropKeepsOthers(rules: seq<Rule>, r: Rule, n: nat)
    requires r == OURS || r == SuppressDefault
    ensures Others(DropFirst(rules, r, n)) == Others(rules)
    decreases n
  {
    if n > 0 {
      RemoveKeepsOthers(rules, r);
      DropKeepsOthers(RemoveFirst(rules, r), r, n - 1);
    }
  }

  lemma {:induction false} NothingButOthers(rules: seq<Rule>)
    requires OURS !in rules && SuppressDefault !in rules
    ensures Others(rules) == rules
  {
    if rules != [] {
      NothingButOthers(rules[1..]);
    }
  }

  lemma {:induction false} OthersOfSum(a: seq<Rule>, b: seq<Rule>)
    ensures Others(a + b) == Others(a) + Others(b)
  {
    if a == [] {
      assert a + b == b;
    } else {
      var sum := a + b;
      OthersOfSum(a[1..], b);
      assert sum[0] == a[0] && sum[1..] == a[1..] + b;
      Prepended(a[0], Others(a[1..]), Others(b));
    }
  }

  lemma Prepended(r: Rule, x: seq<Rule>, y: seq<Rule>)
    ensures [r] + (x + y) == [r] + x + y
  {
  }

  // ---- What the command clears, exactly ----

  /** How many of n copies of a rule four rounds leave. */
  function Remaining(r: Rule, n: nat): nat {
    if r != NotFwmark(51820) && r != SuppressDefault then n else if n > 4 then n - 4 else 0
  }

  /**
   * Four copies of each of the two rules go, a fifth stays, and no other rule is lost or moved.
   * Hence nothing of ours is left if and only if neither rule had more than four copies.
   */
  lemma ClearedExactly(rules: seq<Rule>)
    ensures forall r :: Count(Cleared(rules), r) == Remaining(r, Count(rules, r))
    ensures Others(Cleared(rules)) == Others(rules)
    ensures Cleared(rules) == Others(rules) <==>
      Count(rules, NotFwmark(51820)) <= 4 && Count(rules, SuppressDefault) <= 4
  {
    var half := DropFirst(rules, OURS, ROUNDS);
    forall r ensures Count(Cleared(rules), r) == Remaining(r, Count(rules, r)) {
      DropCounts(rules, OURS, ROUNDS, r);
      DropCounts(half, SuppressDefault, ROUNDS, r);
    }
    DropKeepsOthers(rules, OURS, ROUNDS);
    DropKeepsOthers(half, SuppressDefault, ROUNDS);
    OthersHoldNone(rules);
    if Count(rules, OURS) <= ROUNDS && Count(rules, SuppressDefault) <= ROUNDS {
      assert Count(Cleared(rules), OURS) == 0 && Count(Cleared(rules), SuppressDefault) == 0;
      NothingButOthers(Cleared(rules));
    } else {
      assert Count(Cleared(rules), OURS) > 0 || Count(Cleared(rules), SuppressDefault) > 0;
    }
  }

  lemma {:induction false} OthersHoldNone(rules: seq<Rule>)
    ensures OURS !in Others(rules) && SuppressDefault !in Others(rules)
  {
    if rules != [] {
      OthersHoldNone(rules[1..]);
    }
  }

  lemma OthersOfInstalled(n: nat, rules: seq<Rule>)
    requires n <= 2
    ensures Others(InstalledRules(DEFAULT_MARK, n) + rules) == Others(rules)
  {
    var added := InstalledRules(DEFAULT_MARK, n);
    OthersOfSum(added, rules);
    assert Others(added) == [] by {
      if n == 2 {
        assert added[1..] == [OURS];
      }
    }
    assert [] + Others(rules) == Others(rules);
  }

  /**
   * The rules that a routing layer with the default mark put in front, however many of them, are
   * gone after a recovery, provided the list has no more than four copies of either with them.
   */
  lemma ResidueCleared(n: nat, rules: seq<Rule>)
    requires n <= 2
    requires Count(InstalledRules(DEFAULT_MARK, n) + rules, OURS) <= 4
    requires Count(InstalledRules(DEFAULT_MARK, n) + rules, SuppressDefault) <= 4
    ensures Cleared(InstalledRules(DEFAULT_MARK, n) + rules) == Cleared(rules) == Others(rules)
  {
    var added := InstalledRules(DEFAULT_MARK, n);
    assert multiset(added + rules) == multiset(added) + multiset(rules);
    ClearedExactly(added + rules);
    ClearedExactly(rules);
    OthersOfInstalled(n, rules);
  }

  /** A rule for another mark survives any number of recoveries. */
  lemma OtherMarkStays(mark: nat, n: nat, rules: seq<Rule>)
    requires mark != DEFAULT_MARK && 1 <= n <= 2
    ensures Count(Cleared(InstalledRules(mark, n) + rules), NotFwmark(mark)) >= 1
  {
    var all := InstalledRules(mark, n) + rules;
    assert NotFwmark(mark) in all by {
      assert all[n - 1] == NotFwmark(mark);
    }
    ClearedExactly(all);
  }

  /**
   * Of the interfaces, tables and routes, a recovery takes the three managed interfaces, the three
   * tables, and the IPv4 routes of table 51820, and keeps everything else.
   */
  lemma RecoveredExactly(k: State, name: string, r: Route)
    ensures name in Recovered(k).tables <==>
      && name in k.tables && name != "mazzy_vpn_ipv6_guard"
      && name != "mazzy_vpn_transition_guard" && name != "mazzy_vpn_connmark"
    ensures name in Recovered(k).links <==>
      name in k.links && name != "vpnaw0" && name != "vpnwg0" && name != "vpnovpn0"
    ensures name in Recovered(k).links ==>
      && Recovered(k).links[name] == k.links[name].(routes := Recovered(k).links[name].routes)
      && (r in Recovered(k).links[name].routes <==> r in k.links[name].routes && (r.table != 51820 || r.dst.v6))
    ensures Recovered(k).resolvconf == k.resolvconf && Recovered(k).srcValidMark == k.srcValidMark
  {
    assert name in WithoutManaged(k.links) <==>
      name in k.links && name !in {"vpnaw0", "vpnwg0", "vpnovpn0"};
  }

  /** Recovering twice changes nothing more exactly when the first time sufficed. */
  lemma SecondRecovery(k: State)
    ensures Recovered(Recovered(k)) == Recovered(k) <==>
      forall v6 :: Cleared(Rules(k, v6)) == Others(Rules(k, v6))
  {
    var once := Recovered(k);
    assert Recovered(once).links == once.links by {
      forall dev | dev in once.links ensures FlushTable(once.links[dev], DEFAULT_MARK) == once.links[dev] {}
    }
    assert Recovered(once).tables == once.tables;
    ClearedTwice(k.rules4);
    ClearedTwice(k.rules6);
    assert Rules(k, false) == k.rules4 && Rules(k, true) == k.rules6;
  }

  lemma ClearedTwice(rules: seq<Rule>)
    ensures Cleared(Cleared(rules)) == Cleared(rules) <==> Cleared(rules) == Others(rules)
  {
    ClearedExactly(rules);
    ClearedExactly(Cleared(rules));
  }

  /**
   * After a routing layer with the default mark was cut short, a recovery leaves what it would have
   * left without that layer, except for the sysctl and the endpoint's route, which no step removes.
   */
  lemma RecoverAfterCutShort(base: State, r: Residue, cfg: Config, uplink: string)
    requires CutShort(r, cfg, uplink) && EffectiveMark(cfg) == DEFAULT_MARK
    requires forall v6 :: Count(Rules(base, v6), OURS) < 4 && Count(Rules(base, v6), SuppressDefault) < 4
    ensures Recovered(WithResidue(base, r, uplink)) ==
      WithResidue(Recovered(base), r.(rules4 := [], rules6 := []), uplink)
  {
    var k := WithResidue(base, r, uplink);
    var n, m :| 0 <= n <= 2 && 0 <= m <= 2
      && r.rules4 == InstalledRules(DEFAULT_MARK, n) && r.rules6 == InstalledRules(DEFAULT_MARK, m);
    assert Rules(base, false) == base.rules4 && Rules(base, true) == base.rules6;
    AtMostOneMore(n, base.rules4);
    AtMostOneMore(m, base.rules6);
    ResidueCleared(n, base.rules4);
    ResidueCleared(m, base.rules6);
    var clean := Recovered(base);
    assert [] + clean.rules4 == clean.rules4 && [] + clean.rules6 == clean.rules6;
    if r.endpoint.Some? {
      FlushSparesMain(base.links, uplink, r.endpoint.value);
    }
  }

  lemma AtMostOneMore(n: nat, rules: seq<Rule>)
    requires n <= 2
    ensures Count(InstalledRules(DEFAULT_MARK, n) + rules, OURS) <= Count(rules, OURS) + 1
    ensures Count(InstalledRules(DEFAULT_MARK, n) + rules, SuppressDefault) <= Count(rules, SuppressDefault) + 1
  {
    var added := InstalledRules(DEFAULT_MARK, n);
    assert multiset(added + rules) == multiset(added) + multiset(rules);
  }

  lemma FlushSparesMain(links: Links, uplink: string, r: Route)
    requires r.table == MAIN
    ensures Flushed(WithoutManaged(PlusRoute(links, uplink, r))) == PlusRoute(Flushed(WithoutManaged(links)), uplink, r)
  {
    var a := Flushed(WithoutManaged(PlusRoute(links, uplink, r)));
    var b := PlusRoute(Flushed(WithoutManaged(links)), uplink, r);
    forall dev | dev in a ensures a[dev] == b[dev] {
      if dev == uplink {
        assert a[dev].routes == b[dev].routes;
      }
    }
  }

  function Flushed(links: Links): Links {
    map dev | dev in links :: FlushTable(links[dev], DEFAULT_MARK)
  }

  // ---- The command ----

  /** Deletes every managed interface that is there. */
  method DeleteInterfaces(host: Host)
    modifies host
    ensures host.clock > old(host.clock)
    ensures host.QuietFrom(old(host.clock)) ==>
      host.kernel == old(host.kernel).(links := WithoutManaged(old(host.kernel).links))
    ensures host.kernel == old(host.kernel).(links := host.kernel.links)
  {
    var managed := [InterfaceName(AmneziaWG), InterfaceName(WireGuard), InterfaceName(OpenVPN)];
    for i := 0 to 3
      invariant host.clock >= old(host.clock) + i
      invariant host.kernel == old(host.kernel).(links := host.kernel.links)
      invariant host.QuietFrom(old(host.clock)) ==> host.kernel.links == old(host.kernel).links - Named(managed, i)
    {
      ghost var before := host.kernel.links;
      var present := host.Run(LinkShow(managed[i]));
      if present {
        var _ := host.Run(LinkDel(managed[i]));
      } else if managed[i] !in before {
        assert before - {managed[i]} == before;
      }
      assert before - {managed[i]} == old(host.kernel).links - Named(managed, i) - {managed[i]}
        || !host.QuietFrom(old(host.clock));
      ghost var links := old(host.kernel).links;
      assert links - Named(managed, i) - {managed[i]} == links - Named(managed, i + 1);
    }
    assert Named(managed, 3) == {managed[0], managed[1], managed[2]};
  }

  ghost function Named(names: seq<string>, n: nat): set<string>
    requires n <= |names|
  {
    set i | 0 <= i < n :: names[i]
  }

  /** Deletes the guard tables that are there. */
  method DeleteTables(host: Host)
    modifies host
    ensures host.clock > old(host.clock)
    ensures host.kernel == old(host.kernel).(tables := host.kernel.tables)
    ensures host.QuietFrom(old(host.clock)) ==>
      host.kernel.tables == old(host.kernel).tables - {IPV6_GUARD_TABLE, TRANSITION_GUARD_TABLE, CONNMARK_TABLE}
  {
    var names := [IPV6_GUARD_TABLE, TRANSITION_GUARD_TABLE, CONNMARK_TABLE];
    for i := 0 to 3
      invariant host.clock >= old(host.clock) + i
      invariant host.kernel == old(host.kernel).(tables := host.kernel.tables)
      invariant host.QuietFrom(old(host.clock)) ==> host.kernel.tables == old(host.kernel).tables - Named(names, i)
    {
      ghost var before := host.kernel.tables;
      var ok := host.Run(NftDelete(names[i]));
      if names[i] !in before {
        assert before - {names[i]} == before;
      }
      assert old(host.kernel).tables - Named(names, i) - {names[i]} == old(host.kernel).tables - Named(names, i + 1);
    }
    assert Named(names, 3) == {names[0], names[1], names[2]};
  }

  /** Neither family lost or moved a rule of someone else. */
  predicate OthersKept(k: State, before: State) {
    Others(k.rules4) == Others(before.rules4) && Others(k.rules6) == Others(before.rules6)
  }

  /** One deletion of a rule in one family, best effort. */
  method DeleteRule(host: Host, v6: bool, r: Rule)
    requires r == OURS || r == SuppressDefault
    modifies host
    ensures OthersKept(host.kernel, old(host.kernel))
    ensures host.clock == old(host.clock) + 1
    ensures host.kernel == old(host.kernel) ||
      host.kernel == WithRules(old(host.kernel), v6, RemoveFirst(Rules(old(host.kernel), v6), r))
    ensures !host.fails(old(host.clock)) ==>
      host.kernel == WithRules(old(host.kernel), v6, RemoveFirst(Rules(old(host.kernel), v6), r))
  {
    RemoveKeepsOthers(Rules(host.kernel, v6), r);
    if r !in Rules(host.kernel, v6) {
      RemoveAbsent(Rules(host.kernel, v6), r);
    }
    var _ := host.Run(RuleDel(v6, r));
  }

  /** Four rounds over both rules and both families. */
  method DeleteRules(host: Host)
    modifies host
    ensures host.clock > old(host.clock)
    ensures host.kernel == old(host.kernel).(rules4 := host.kernel.rules4, rules6 := host.kernel.rules6)
    ensures OthersKept(host.kernel, old(host.kernel))
    ensures host.QuietFrom(old(host.clock)) ==>
      host.kernel.rules4 == Cleared(old(host.kernel).rules4) && host.kernel.rules6 == Cleared(old(host.kernel).rules6)
  {
    ghost var k := host.kernel;
    for i := 0 to ROUNDS
      invariant host.clock >= old(host.clock) + i
      invariant host.kernel == k.(rules4 := host.kernel.rules4, rules6 := host.kernel.rules6)
      invariant OthersKept(host.kernel, k)
      invariant host.QuietFrom(old(host.clock)) ==>
        && host.kernel.rules4 == DropFirst(DropFirst(k.rules4, OURS, i), SuppressDefault, i)
        && host.kernel.rules6 == DropFirst(DropFirst(k.rules6, OURS, i), SuppressDefault, i)
    {
      OneRound(k.rules4, i);
      OneRound(k.rules6, i);
      DeleteRule(host, false, OURS);
      DeleteRule(host, true, OURS);
      DeleteRule(host, false, SuppressDefault);
      DeleteRule(host, true, SuppressDefault);
    }
  }

  lemma OneRound(rules: seq<Rule>, i: nat)
    ensures RemoveFirst(RemoveFirst(DropFirst(DropFirst(rules, OURS, i), SuppressDefault, i), OURS), SuppressDefault) ==
      DropFirst(DropFirst(rules, OURS, i + 1), SuppressDefault, i + 1)
  {
    var ours := DropFirst(rules, OURS, i);
    DropCommutes(ours, SuppressDefault, i, OURS);
    DropOneMore(rules, OURS, i);
    DropOneMore(RemoveFirst(ours, OURS), SuppressDefault, i);
  }

  /**
   * cmdRecover's effect on the kernel: interfaces, tables, rules and the default table, in that
   * order. Whatever fails, no rule of someone else is lost or moved.
   */
  method Recover(host: Host)
    modifies host
    ensures host.clock > old(host.clock)
    ensures host.QuietFrom(old(host.clock)) ==> host.kernel == Recovered(old(host.kernel))
    ensures OthersKept(host.kernel, old(host.kernel))
  {
    DeleteInterfaces(host);
    DeleteTables(host);
    DeleteRules(host);
    var _ := host.Run(RouteFlush(DEFAULT_MARK));
  }

  /**
   * An Up whose routing layer failed, for whatever commands, followed by a recovery: the rules it
   * left are gone, and what remains of it is the endpoint's route and the sysctl.
   */
  method RescueFailedUp(host: Host, proto: Protocol, cfg: Config, opts: Connect.Options)
    returns (r: Connect.UpResult, ghost residue: Residue, ghost unwound: nat)
    requires host.engine == None && Connect.Clean(host.kernel, opts.granted) && EffectiveMark(cfg) == DEFAULT_MARK
    requires forall v6 ::
      Count(Rules(host.kernel, v6), OURS) < 4 && Count(Rules(host.kernel, v6), SuppressDefault) < 4
    modifies host
    ensures r == Connect.RoutesFailed && host.QuietFrom(unwound) ==>
      host.kernel == WithResidue(Recovered(old(host.kernel)), residue.(rules4 := [], rules6 := []), opts.uplink)
  {
    ghost var base := host.kernel;
    var c;
    c, r, residue, unwound := Connect.Conn.Up(host, proto, cfg, opts);
    if r == Connect.RoutesFailed {
      if host.QuietFrom(unwound) {
        RecoverAfterCutShort(base, residue, cfg, opts.uplink);
      }
      Recover(host);
    }
  }
}
