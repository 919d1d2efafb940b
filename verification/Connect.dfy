/**
 * The connection stack: IPv6 guard, engine, policy routing, connmark and DNS applied in that order,
 * and one teardown in reverse order for both a Down and a failed Up.
 */
module Connect {
  import opened Wrappers
  import opened Kernel
  import opened Guards
  import opened Routes
  import opened Dns

  datatype UpResult =
    | Connected | Unsupported | BootRecoveryPending | GuardFailed | EngineFailed | ReaffirmFailed
    | RoutesFailed | DnsFailed

  /**
   * What a caller chooses and what the host decides: the boot gate's answer if there is a gate, the
   * uplink, the interface name the kernel grants, and the DNS backend it offers.
   */
  datatype Options = Options(bootGate: Option<bool>, uplink: string, granted: string, backend: Option<Backend>)

  /** A kernel without leftovers of an earlier connection: our tables, and records for the interface. */
  predicate Clean(k: State, iface: string) {
    && IPV6_GUARD_TABLE !in k.tables && CONNMARK_TABLE !in k.tables
    && iface !in k.resolvconf
  }

  /** What a connection has to take down, read off its fields. */
  datatype TeardownPlan = TeardownPlan(
    iface: string, dns: Option<Backend>, connmark: bool, routes: bool, mark: nat, v4: bool, v6: bool,
    pin: Option<(string, Route)>, engine: bool, guard: bool)

  function UndoDns(k: State, p: TeardownPlan): State {
    if p.dns.Some? then Manager.Reverted(k, p.iface, p.dns.value) else k
  }

  function UndoConnmark(k: State, p: TeardownPlan): State {
    k.(tables := if p.connmark then k.tables - {CONNMARK_TABLE} else k.tables)
  }

  function UndoRoutes(k: State, p: TeardownPlan): State {
    k.(rules4 := Dropped(k.rules4, p.mark, p.v4), rules6 := Dropped(k.rules6, p.mark, p.v6),
       links := if p.pin.Some? then MinusRoute(k.links, p.pin.value.0, p.pin.value.1) else k.links)
  }

  function UndoEngine(k: State, p: TeardownPlan): State {
    k.(links := if p.engine then k.links - {p.iface} else k.links)
  }

  function UndoGuard(k: State, p: TeardownPlan): State {
    k.(tables := if p.guard then k.tables - {IPV6_GUARD_TABLE} else k.tables)
  }

  /** Whatever the plan takes down above the engine is there. */
  predicate UpperThere(k: State, p: TeardownPlan) {
    && (p.dns.Some? ==> Manager.Revertible(k, p.iface, p.dns.value))
    && (p.connmark ==> CONNMARK_TABLE in k.tables)
    && RoutingThere(k, p)
  }

  predicate RoutingThere(k: State, p: TeardownPlan) {
    && (p.v4 ==> RulesThere(k.rules4, p.mark)) && (p.v6 ==> RulesThere(k.rules6, p.mark))
    && (p.pin.Some? ==> p.pin.value.0 in k.links && p.pin.value.1 in k.links[p.pin.value.0].routes)
  }

  /** Everything that the plan takes down by a command is there. */
  predicate Undoable(k: State, p: TeardownPlan) {
    UpperThere(k, p) && (p.guard ==> IPV6_GUARD_TABLE in k.tables)
  }

  /** The routing layer is not touched by the layers above it. */
  lemma RoutingStays(k: State, p: TeardownPlan)
    ensures RoutingThere(UndoConnmark(UndoDns(k, p), p), p) <==> RoutingThere(k, p)
    ensures CONNMARK_TABLE in UndoDns(k, p).tables <==> CONNMARK_TABLE in k.tables
    ensures IPV6_GUARD_TABLE in UndoEngine(UndoRoutes(UndoConnmark(UndoDns(k, p), p), p), p).tables <==>
      IPV6_GUARD_TABLE in k.tables
  {
  }

  /** One layer after another, each by the plan that is left. */
  lemma LayersInTurn(k: State, k1: State, k2: State, p: TeardownPlan)
    requires k1 == UndoDns(k, p) && k2 == UndoConnmark(k1, p.(dns := None))
    ensures k2 == UndoConnmark(UndoDns(k, p), p)
    ensures UndoRoutes(k2, p.(dns := None).(connmark := false)) == UndoRoutes(k2, p)
    ensures UpperThere(k, p) <==>
      && (p.dns.Some? ==> Manager.Revertible(k, p.iface, p.dns.value))
      && (p.connmark ==> CONNMARK_TABLE in k1.tables)
      && RoutingThere(k2, p.(dns := None).(connmark := false))
  {
    RoutingStays(k, p);
  }

  /** The whole teardown, every command doing its work. */
  function Undo(k: State, p: TeardownPlan): State {
    UndoGuard(UndoEngine(UndoRoutes(UndoConnmark(UndoDns(k, p), p), p), p), p)
  }

  /**
   * The kernel `k` is `base` with the connection's layers on it: the guard and possibly connmark
   * tables, the routing residue, resolvconf records, and anything at all on the interface.
   */
  ghost predicate Stacked(k: State, base: State, p: TeardownPlan, r: Residue, uplink: string) {
    && k.tables - {IPV6_GUARD_TABLE, CONNMARK_TABLE} == base.tables - {IPV6_GUARD_TABLE, CONNMARK_TABLE}
    && (IPV6_GUARD_TABLE in k.tables ==> p.guard) && (CONNMARK_TABLE in k.tables ==> p.connmark)
    && k.rules4 == r.rules4 + base.rules4 && k.rules6 == r.rules6 + base.rules6
    && k.srcValidMark == (base.srcValidMark || r.srcValidMark)
    && WithoutLink(k, p.iface).links == WithoutLink(WithResidue(base, r, uplink), p.iface).links
    && (p.iface in k.links ==> p.engine)
    && k.resolvconf - {p.iface} == base.resolvconf - {p.iface}
    && (p.iface in k.resolvconf ==> p.dns == Some(Resolvconf))
  }

  // Undo, read field by field.

  function UndoneTables(t: map<string, seq<Ruleset>>, p: TeardownPlan): map<string, seq<Ruleset>> {
    var u := if p.connmark then t - {CONNMARK_TABLE} else t;
    if p.guard then u - {IPV6_GUARD_TABLE} else u
  }

  function WithoutServers(l: Links, p: TeardownPlan): Links {
    if p.dns == Some(Resolvectl) && p.iface in l then l[p.iface := l[p.iface].(dns := [])] else l
  }

  function WithoutRoutes(l: Links, p: TeardownPlan): Links {
    var noPin := if p.pin.Some? then MinusRoute(l, p.pin.value.0, p.pin.value.1) else l;
    if p.engine then noPin - {p.iface} else noPin
  }

  function UndoneLinks(l: Links, p: TeardownPlan): Links {
    WithoutRoutes(WithoutServers(l, p), p)
  }

  function UndoneRecords(m: map<string, seq<string>>, p: TeardownPlan): map<string, seq<string>> {
    if p.dns == Some(Resolvconf) then m - {p.iface} else m
  }

  lemma DnsByField(k: State, p: TeardownPlan)
    ensures UndoDns(k, p) == k.(links := WithoutServers(k.links, p), resolvconf := UndoneRecords(k.resolvconf, p))
  {
  }

  lemma RestByField(k: State, p: TeardownPlan)
    ensures UndoGuard(UndoEngine(UndoRoutes(UndoConnmark(k, p), p), p), p) ==
      State(UndoneTables(k.tables, p), Dropped(k.rules4, p.mark, p.v4), Dropped(k.rules6, p.mark, p.v6),
            WithoutRoutes(k.links, p), k.resolvconf, k.srcValidMark)
  {
  }

  lemma UndoByField(k: State, p: TeardownPlan)
    ensures Undo(k, p) == State(UndoneTables(k.tables, p), Dropped(k.rules4, p.mark, p.v4),
      Dropped(k.rules6, p.mark, p.v6), UndoneLinks(k.links, p), UndoneRecords(k.resolvconf, p), k.srcValidMark)
  {
    DnsByField(k, p);
    RestByField(UndoDns(k, p), p);
  }

  lemma TablesRestored(t: map<string, seq<Ruleset>>, base: map<string, seq<Ruleset>>, p: TeardownPlan)
    requires IPV6_GUARD_TABLE !in base && CONNMARK_TABLE !in base
    requires t - {IPV6_GUARD_TABLE, CONNMARK_TABLE} == base - {IPV6_GUARD_TABLE, CONNMARK_TABLE}
    requires (IPV6_GUARD_TABLE in t ==> p.guard) && (CONNMARK_TABLE in t ==> p.connmark)
    ensures UndoneTables(t, p) == base
  {
    assert base - {IPV6_GUARD_TABLE, CONNMARK_TABLE} == base;
    assert UndoneTables(t, p) == t - {IPV6_GUARD_TABLE, CONNMARK_TABLE};
  }

  lemma RecordsRestored(m: map<string, seq<string>>, base: map<string, seq<string>>, p: TeardownPlan)
    requires p.iface !in base && m - {p.iface} == base - {p.iface} && (p.iface in m ==> p.dns == Some(Resolvconf))
    ensures UndoneRecords(m, p) == base
  {
    assert base - {p.iface} == base;
    assert UndoneRecords(m, p) == m - {p.iface};
  }

  /** The interface's own link is gone, and the pinned route is gone from its uplink if the plan drops it. */
  lemma LinksRestored(l: Links, base: Links, p: TeardownPlan, pinned: Option<Route>, uplink: string)
    requires p.iface !in base && (p.iface in l ==> p.engine)
    requires l - {p.iface} == (if pinned.Some? then PlusRoute(base, uplink, pinned.value) else base) - {p.iface}
    requires p.pin == None || (pinned.Some? && p.pin == Some((uplink, pinned.value)))
    requires p.pin.Some? && uplink in base ==> pinned.value !in base[uplink].routes
    ensures UndoneLinks(l, p) == if p.pin.None? && pinned.Some? then PlusRoute(base, uplink, pinned.value) else base
  {
    var with := if pinned.Some? then PlusRoute(base, uplink, pinned.value) else base;
    assert with - {p.iface} == with;
    var u := UndoneLinks(l, p);
    assert u.Keys == (if p.engine then l.Keys - {p.iface} else l.Keys);
    assert (l - {p.iface}).Keys == base.Keys;
    forall d | d in base ensures u[d] == if p.pin.None? then with[d] else base[d] {
      assert (l - {p.iface})[d] == with[d];
      if p.pin.Some? && d == uplink {
        assert base[d].routes + {pinned.value} - {pinned.value} == base[d].routes;
      }
    }
  }

  /** Tearing a stack down leaves the base with whatever of the routing layer the plan does not drop. */
  lemma UndoStacked(k: State, base: State, p: TeardownPlan, r: Residue, uplink: string)
    requires Clean(base, p.iface) && p.iface !in base.links && Stacked(k, base, p, r, uplink)
    requires !p.v4 && !p.v6 && p.pin.None?
    ensures Undo(k, p) == WithResidue(base, r, uplink)
  {
    UndoByField(k, p);
    TablesRestored(k.tables, base.tables, p);
    RecordsRestored(k.resolvconf, base.resolvconf, p);
    LinksRestored(k.links, base.links, p, r.endpoint, uplink);
  }

  /** Tearing a complete stack down restores the base, except for the sysctl. */
  lemma UndoComplete(k: State, base: State, p: TeardownPlan, r: Residue, uplink: string)
    requires Clean(base, p.iface) && p.iface !in base.links && Stacked(k, base, p, r, uplink)
    requires r.rules4 == (if p.v4 then InstalledRules(p.mark, 2) else [])
    requires r.rules6 == (if p.v6 then InstalledRules(p.mark, 2) else [])
    requires p.pin == if r.endpoint.Some? then Some((uplink, r.endpoint.value)) else None
    requires r.endpoint.Some? ==> !HasRoute(base, r.endpoint.value)
    ensures Undo(k, p) == base.(srcValidMark := base.srcValidMark || r.srcValidMark)
  {
    UndoByField(k, p);
    TablesRestored(k.tables, base.tables, p);
    RecordsRestored(k.resolvconf, base.resolvconf, p);
    DropUndoesInstall(p.mark, base.rules4);
    DropUndoesInstall(p.mark, base.rules6);
    assert [] + base.rules4 == base.rules4 && [] + base.rules6 == base.rules6;
    LinksRestored(k.links, base.links, p, r.endpoint, uplink);
  }

  /**
   * A kernel after the connection has gone: `base` itself, except that full tunnels leave
   * src_valid_mark set, and that a routing layer cut short leaves its residue.
   */
  ghost predicate Restored(k: State, base: State, r: UpResult, residue: Residue, cfg: Config, uplink: string) {
    match r
    case RoutesFailed => CutShort(residue, cfg, uplink) && k == WithResidue(base, residue, uplink)
    case Connected => k == base.(srcValidMark := base.srcValidMark || FullTunnel(cfg, false))
    case DnsFailed => k == base.(srcValidMark := base.srcValidMark || FullTunnel(cfg, false))
    case _ => k == base
  }

  /** The kernel grants a new name, and one that the guard can be installed for again if it is another one. */
  predicate Startable(k: State, proto: Protocol, granted: string) {
    && ValidInterface(InterfaceName(proto)) && granted !in k.links
    && (granted == InterfaceName(proto) || ValidInterface(granted))
  }

  /** The two gates in front of a connection. */
  predicate Admitted(proto: Protocol, opts: Options) {
    (proto == AmneziaWG || proto == WireGuard) && opts.bootGate != Some(false)
  }

  /**
   * The calls of a start, counted from its first: the guard's table is deleted, a file is written and
   * loaded into it, and the engine starts. The deletion may fail.
   */
  predicate Launches(fails: nat -> bool, first: nat, k: State, proto: Protocol, granted: string) {
    && ValidInterface(InterfaceName(proto)) && !fails(first + 1) && !fails(first + 2)
    && !fails(first + 3) && granted !in k.links
  }

  /** The engine comes up under another valid name, and the next call deletes the guard's table. */
  predicate LaunchExposes(fails: nat -> bool, first: nat, k: State, proto: Protocol, granted: string) {
    && Launches(fails, first, k, proto, granted)
    && granted != InterfaceName(proto) && ValidInterface(granted) && !fails(first + 4)
  }

  /** Nothing is in the way of a connection, so that it comes up when no command is made to fail. */
  ghost predicate Feasible(k: State, proto: Protocol, cfg: Config, opts: Options) {
    var started := WithLink(k, opts.granted, Link({}, {}, []));
    Startable(k, proto, opts.granted) && Fits(started, cfg, opts.granted, opts.uplink)
    && Settable(started, opts.granted, cfg.dns, opts.backend)
  }

  lemma OtherTableStays(a: map<string, seq<Ruleset>>, b: map<string, seq<Ruleset>>)
    requires a - {CONNMARK_TABLE} == b - {CONNMARK_TABLE} && IPV6_GUARD_TABLE in a
    ensures IPV6_GUARD_TABLE in b && b[IPV6_GUARD_TABLE] == a[IPV6_GUARD_TABLE]
  {
    assert IPV6_GUARD_TABLE in b - {CONNMARK_TABLE};
    assert (b - {CONNMARK_TABLE})[IPV6_GUARD_TABLE] == a[IPV6_GUARD_TABLE];
  }

  /** The links with one interface's servers taken from other links. */
  function ServersOn(l: Links, other: Links, dev: string): Links {
    if dev in l && dev in other then l[dev := l[dev].(dns := other[dev].dns)] else l
  }

  /** Whether the routing layer fits depends on the links alone. */
  lemma FitsByLinks(a: State, b: State, cfg: Config, iface: string, uplink: string)
    requires a.links == b.links
    ensures Fits(a, cfg, iface, uplink) <==> Fits(b, cfg, iface, uplink)
  {
    assert forall q :: HasRoute(a, q) <==> HasRoute(b, q);
  }

  /** The same as Feasible, on the kernel once the engine has started. */
  lemma FeasibleOnceStarted(base: State, k: State, proto: Protocol, cfg: Config, opts: Options)
    requires k.links == WithLink(base, opts.granted, Link({}, {}, [])).links
    ensures Feasible(base, proto, cfg, opts) <==>
      Startable(base, proto, opts.granted) && Fits(k, cfg, opts.granted, opts.uplink)
      && Settable(k, opts.granted, cfg.dns, opts.backend)
  {
    FitsByLinks(k, WithLink(base, opts.granted, Link({}, {}, [])), cfg, opts.granted, opts.uplink);
  }

  class Conn {
    const host: Host
    const guard: Guard
    var iface: string
    var engineOn: bool
    var routes: Applier?
    var dns: Manager?
    var ipv6GuardOn: bool
    var routesOn: bool
    var dnsOn: bool
    var connmarkOn: bool

    constructor (host: Host)
      ensures this.host == host && guard.host == host && routes == null && dns == null
      ensures !engineOn && !ipv6GuardOn && !routesOn && !dnsOn && !connmarkOn
    {
      this.host := host;
      guard := new Guard(host);
      iface, engineOn, routes, dns := "", false, null, null;
      ipv6GuardOn, routesOn, dnsOn, connmarkOn := false, false, false, false;
    }

    /** The layers belong to this host and interface, and a running engine is behind the guard. */
    ghost predicate Valid()
      reads this, host, routes, dns
    {
      && guard.host == host
      && (routes != null ==>
            && routes.host == host && routes.iface == iface
            && (routes.appliedEndpoint.Some? ==> routes.appliedEndpoint.value.Literal?))
      && (dns != null ==> dns.host == host && dns.iface == iface && (dns.applied ==> dns.backend.Some?))
      && (routesOn ==> routes != null) && (dnsOn ==> dns != null)
      && (engineOn <==> host.engine.Some?)
      && (engineOn ==> host.engine.value.iface == iface && ipv6GuardOn)
      && host.Latched()
    }

    predicate AllOff()
      reads this
    {
      !engineOn && !ipv6GuardOn && !routesOn && !dnsOn && !connmarkOn
    }

    ghost function Plan(): TeardownPlan
      requires Valid()
      reads this, host, routes, dns
    {
      TeardownPlan(iface,
        if dnsOn && dns.applied then dns.backend else None,
        connmarkOn, routesOn,
        if routesOn then routes.table else 0,
        routesOn && routes.Applied(false), routesOn && routes.Applied(true),
        if routesOn && routes.appliedEndpoint.Some?
        then Some((routes.uplink, HostRoute(routes.appliedEndpoint.value))) else None,
        engineOn, ipv6GuardOn)
    }

    method DropDns() returns (ok: bool)
      requires Valid()
      modifies host, this`dnsOn
      ensures Valid() && !dnsOn
      ensures Plan() == old(Plan()).(dns := None)
      ensures host.engine == old(host.engine) && host.exposed == old(host.exposed) && host.clock >= old(host.clock)
      ensures ok || host.QuietFrom(old(host.clock)) ==> host.kernel == UndoDns(old(host.kernel), old(Plan()))
      ensures host.QuietFrom(old(host.clock)) ==>
        (ok <==> (old(Plan()).dns.Some? ==> Manager.Revertible(old(host.kernel), iface, old(Plan()).dns.value)))
      ensures !old(dnsOn) ==> ok && host.kernel == old(host.kernel) && host.clock == old(host.clock)
    {
      ok := true;
      if dnsOn {
        ok := dns.Down();
        dnsOn := false;
      }
    }

    method DropConnmark() returns (ok: bool)
      requires Valid()
      modifies host, this`connmarkOn
      ensures Valid() && !connmarkOn
      ensures Plan() == old(Plan()).(connmark := false)
      ensures host.engine == old(host.engine) && host.exposed == old(host.exposed) && host.clock >= old(host.clock)
      ensures ok || host.QuietFrom(old(host.clock)) ==> host.kernel == UndoConnmark(old(host.kernel), old(Plan()))
      ensures host.QuietFrom(old(host.clock)) ==>
        (ok <==> (old(connmarkOn) ==> CONNMARK_TABLE in old(host.kernel).tables))
      ensures !old(connmarkOn) ==> ok && host.kernel == old(host.kernel) && host.clock == old(host.clock)
    {
      ok := true;
      if connmarkOn {
        ghost var tables := host.kernel.tables;
        assert CONNMARK_TABLE !in tables ==> tables - {CONNMARK_TABLE} == tables;
        ok := guard.DeleteTable(CONNMARK_TABLE);
        connmarkOn := false;
      }
    }

    method DropRoutes() returns (ok: bool)
      requires Valid()
      modifies host, this`routesOn, if routes == null then {} else {routes}
      ensures Valid() && !routesOn
      ensures Plan().engine == old(Plan().engine) && Plan().guard == old(Plan().guard)
      ensures Plan().iface == old(Plan().iface)
      ensures host.engine == old(host.engine) && host.exposed == old(host.exposed) && host.clock >= old(host.clock)
      ensures ok || host.QuietFrom(old(host.clock)) ==> host.kernel == UndoRoutes(old(host.kernel), old(Plan()))
      ensures host.QuietFrom(old(host.clock)) ==> (ok <==> RoutingThere(old(host.kernel), old(Plan())))
      ensures !old(routesOn) ==> ok && host.kernel == old(host.kernel) && host.clock == old(host.clock)
    {
      ok := true;
      if routesOn {
        ok := routes.Down();
        routesOn := false;
      }
    }

    method DropEngine()
      requires Valid()
      modifies host, this`engineOn
      ensures Valid() && !engineOn && host.engine == None
      ensures host.exposed == old(host.exposed) && host.clock == old(host.clock)
      ensures host.kernel == UndoEngine(old(host.kernel), old(Plan()))
    {
      if engineOn {
        host.StopEngine(iface);
        engineOn := false;
      }
    }

    method DropGuard() returns (ok: bool)
      requires Valid() && !engineOn
      modifies host, this`ipv6GuardOn
      ensures Valid() && !ipv6GuardOn
      ensures host.engine == None && host.exposed == old(host.exposed) && host.clock >= old(host.clock)
      ensures ok || host.QuietFrom(old(host.clock)) ==> host.kernel == UndoGuard(old(host.kernel), old(Plan()))
      ensures host.QuietFrom(old(host.clock)) ==>
        (ok <==> (old(ipv6GuardOn) ==> IPV6_GUARD_TABLE in old(host.kernel).tables))
      ensures !old(ipv6GuardOn) ==> ok && host.kernel == old(host.kernel) && host.clock == old(host.clock)
    {
      ok := true;
      if ipv6GuardOn {
        ghost var tables := host.kernel.tables;
        assert IPV6_GUARD_TABLE !in tables ==> tables - {IPV6_GUARD_TABLE} == tables;
        ok := guard.DeleteTable(IPV6_GUARD_TABLE);
        ipv6GuardOn := false;
      }
    }

    /** The layers above the engine, the last one first. */
    method DropLayers() returns (ok: bool)
      requires Valid()
      modifies host, this`dnsOn, this`connmarkOn, this`routesOn, if routes == null then {} else {routes}
      ensures Valid() && !dnsOn && !connmarkOn && !routesOn
      ensures Plan().engine == old(Plan()).engine && Plan().guard == old(Plan()).guard
      ensures host.engine == old(host.engine) && host.exposed == old(host.exposed) && host.clock >= old(host.clock)
      ensures ok || host.QuietFrom(old(host.clock)) ==>
        host.kernel == UndoRoutes(UndoConnmark(UndoDns(old(host.kernel), old(Plan())), old(Plan())), old(Plan()))
      ensures host.QuietFrom(old(host.clock)) ==> (ok <==> UpperThere(old(host.kernel), old(Plan())))
      ensures old(!dnsOn && !connmarkOn && !routesOn) ==>
        ok && host.kernel == old(host.kernel) && host.clock == old(host.clock)
    {
      ghost var k, p := host.kernel, Plan();
      var a := DropDns();
      ghost var k1 := host.kernel;
      var b := DropConnmark();
      ghost var k2 := host.kernel;
      var c := DropRoutes();
      ok := a && b && c;
      if ok || host.QuietFrom(old(host.clock)) {
        LayersInTurn(k, k1, k2, p);
      }
    }

    /**
     * teardown, for Down and unwind alike. No pattern of command failures keeps the engine up or
     * exposes the host at any moment. When it reports success, or no command is made to fail, the
     * kernel is exactly Undo of the plan, and in the latter case it reports success exactly if
     * everything it takes down was there. A connection that is down issues nothing.
     */
    method Teardown() returns (ok: bool)
      requires Valid()
      modifies host, this`dnsOn, this`connmarkOn, this`routesOn, this`engineOn, this`ipv6GuardOn
      modifies if routes == null then {} else {routes}
      ensures Valid() && AllOff() && host.engine == None
      ensures host.exposed == old(host.exposed) && host.clock >= old(host.clock)
      ensures ok || host.QuietFrom(old(host.clock)) ==> host.kernel == Undo(old(host.kernel), old(Plan()))
      ensures host.QuietFrom(old(host.clock)) ==> (ok <==> Undoable(old(host.kernel), old(Plan())))
      ensures old(AllOff()) ==> ok && host.kernel == old(host.kernel) && host.clock == old(host.clock)
    {
      RoutingStays(host.kernel, Plan());
      var upper := DropLayers();
      DropEngine();
      var lower := DropGuard();
      ok := upper && lower;
    }

    /** Arms the guard for the name the protocol asks for, then starts the engine behind it. */
    method ArmAndStart(proto: Protocol, mark: nat, granted: string) returns (r: UpResult)
      requires Valid() && AllOff() && routes == null && dns == null && host.engine == None
      modifies host, this`iface, this`engineOn, this`ipv6GuardOn
      ensures Valid() && host.clock >= old(host.clock) && host.exposed == old(host.exposed)
      ensures r == Connected || r == GuardFailed || r == EngineFailed
      ensures r == GuardFailed ==> AllOff()
      ensures r == EngineFailed ==> !engineOn && ipv6GuardOn
      ensures r == Connected ==>
        && engineOn && ipv6GuardOn && iface == granted && granted !in old(host.kernel).links
        && host.engine == Some(Engine(granted, mark)) && granted in host.kernel.links
        && InForce(host.kernel, IPV6_GUARD_TABLE, Ipv6Guard(InterfaceName(proto))) && host.clock == old(host.clock) + 4
      ensures host.kernel.tables - {IPV6_GUARD_TABLE} == old(host.kernel).tables - {IPV6_GUARD_TABLE}
      ensures host.kernel == old(host.kernel).(tables := host.kernel.tables, links := host.kernel.links)
      ensures host.kernel.links ==
        if r == Connected then old(host.kernel).links[granted := Link({}, {}, [])] else old(host.kernel).links
      ensures r == GuardFailed && IPV6_GUARD_TABLE !in old(host.kernel).tables ==> host.kernel == old(host.kernel)
      ensures r == Connected <==> Launches(host.fails, old(host.clock), old(host.kernel), proto, granted)
      ensures host.QuietFrom(old(host.clock)) ==>
        && (r == GuardFailed <==> !ValidInterface(InterfaceName(proto)))
        && (r != GuardFailed ==> (r == EngineFailed <==> granted in old(host.kernel).links))
    {
      var armed := guard.InstallIPv6Guard(InterfaceName(proto));
      if !armed {
        return GuardFailed;
      }
      ipv6GuardOn := true;
      var started := host.StartEngine(granted, mark);
      if !started {
        return EngineFailed;
      }
      engineOn, iface := true, granted;
      return Connected;
    }

    /** The routing layer is complete and knows how to take itself down. */
    ghost predicate RoutingOf(cfg: Config, residue: Residue, uplink: string)
      reads this, routes, host
    {
      && routes != null && routes.host == host && routesOn
      && residue == CompleteResidue(cfg, uplink) && routes.table == EffectiveMark(cfg) && routes.uplink == uplink
      && (forall v6 :: routes.Applied(v6) <==> FullTunnel(cfg, v6))
      && (forall v6 :: FullTunnel(cfg, v6) ==> routes.Carries(DefaultRoute(v6, EffectiveMark(cfg))))
      && routes.appliedEndpoint == (if residue.endpoint.Some? then Some(cfg.endpoint) else None)
      && forall i :: 0 <= i < |cfg.addresses| ==> cfg.addresses[i].Some? && routes.Bound(cfg.addresses[i].value)
    }

    /** The servers of the configuration are set, when there are any. */
    ghost predicate DnsOf(cfg: Config)
      reads this, dns, host
    {
      && dns != null && dns.applied == (cfg.dns != [])
      && (dns.applied ==> dns.backend.Some? && Served(host.kernel, iface, cfg.dns, dns.backend.value))
    }

    /** The routing layer on the interface the kernel granted. */
    method AddRouting(cfg: Config, uplink: string) returns (ok: bool, ghost residue: Residue)
      requires Valid() && engineOn && !routesOn && !dnsOn && !connmarkOn && routes == null && dns == null
      modifies host, this`routes, this`routesOn
      ensures Valid() && host.clock >= old(host.clock) && host.exposed == old(host.exposed)
      ensures host.engine == old(host.engine)
      ensures routes != null && fresh(routes) && routesOn == ok
      ensures routes.table == EffectiveMark(cfg) && routes.uplink == uplink
      ensures !ok ==> CutShort(residue, cfg, uplink)
      ensures ok ==> RoutingOf(cfg, residue, uplink)
      ensures host.QuietFrom(old(host.clock)) ==> (ok <==> Fits(old(host.kernel), cfg, iface, uplink))
      ensures residue.endpoint.Some? ==> !HasRoute(old(host.kernel), residue.endpoint.value)
      ensures SameBeyond(host.kernel, WithResidue(old(host.kernel), residue, uplink), iface)
    {
      routes := new Applier(host, iface, cfg, uplink);
      ok := routes.Up(cfg);
      residue := routes.residue;
      routesOn := ok;
    }

    /** Connmark, best effort: a failure only leaves it off. */
    method AddConnmark(mark: nat)
      requires Valid() && engineOn && !connmarkOn && IPV6_GUARD_TABLE in host.kernel.tables
      modifies host, this`connmarkOn
      ensures Valid() && host.clock >= old(host.clock)
      ensures host.exposed == old(host.exposed) && host.engine == old(host.engine)
      ensures host.kernel == old(host.kernel).(tables := host.kernel.tables)
      ensures host.kernel.tables - {CONNMARK_TABLE} == old(host.kernel).tables - {CONNMARK_TABLE}
      ensures IPV6_GUARD_TABLE in host.kernel.tables
        && host.kernel.tables[IPV6_GUARD_TABLE] == old(host.kernel).tables[IPV6_GUARD_TABLE]
      ensures connmarkOn ==> InForce(host.kernel, CONNMARK_TABLE, Connmark(mark))
      ensures CONNMARK_TABLE in host.kernel.tables ==> connmarkOn || CONNMARK_TABLE in old(host.kernel).tables
      ensures host.QuietFrom(old(host.clock)) ==> connmarkOn
    {
      ghost var k := host.kernel;
      connmarkOn := guard.InstallConnmark(mark);
      OtherTableStays(k.tables, host.kernel.tables);
    }

    /** DNS on the interface, which touches nothing but the interface and its resolvconf record. */
    method AddDns(servers: seq<Option<string>>, backend: Option<Backend>) returns (ok: bool)
      requires Valid() && engineOn && !dnsOn && dns == null
      modifies host, this`dns, this`dnsOn
      ensures Valid() && host.clock >= old(host.clock) && host.exposed == old(host.exposed)
      ensures host.engine == old(host.engine) && dnsOn == ok && dns != null && fresh(dns)
      ensures ok ==> dns.applied == (servers != [])
      ensures ok && dns.applied ==> dns.backend.Some? && Served(host.kernel, iface, servers, dns.backend.value)
      ensures host.QuietFrom(old(host.clock)) ==> (ok <==> Settable(old(host.kernel), iface, servers, backend))
      ensures host.kernel == old(host.kernel).(links := host.kernel.links, resolvconf := host.kernel.resolvconf)
      ensures host.kernel.links == ServersOn(old(host.kernel).links, host.kernel.links, iface)
      ensures host.kernel.resolvconf - {iface} == old(host.kernel).resolvconf - {iface}
      ensures iface in host.kernel.resolvconf ==>
        iface in old(host.kernel).resolvconf || (dnsOn && dns.applied && dns.backend == Some(Resolvconf))
    {
      dns := new Manager(host, iface);
      ok := dns.Up(servers, backend);
      dnsOn := ok;
    }

    /** Connmark, best effort, and DNS. */
    method AddConnmarkAndDns(cfg: Config, opts: Options, ghost base: State, ghost residue: Residue) returns (ok: bool)
      requires Valid() && engineOn && !dnsOn && !connmarkOn && dns == null && RoutingOf(cfg, residue, opts.uplink)
      requires IPV6_GUARD_TABLE in host.kernel.tables
      requires Clean(base, iface) ==> Stacked(host.kernel, base, Plan(), residue, opts.uplink)
      modifies host, this`dns, this`dnsOn, this`connmarkOn
      ensures Valid() && host.clock >= old(host.clock) && host.exposed == old(host.exposed)
      ensures host.engine == old(host.engine) && dnsOn == ok && dns != null && fresh(dns)
      ensures RoutingOf(cfg, residue, opts.uplink)
      ensures connmarkOn ==> InForce(host.kernel, CONNMARK_TABLE, Connmark(EffectiveMark(cfg)))
      ensures forall rs ::
        InForce(old(host.kernel), IPV6_GUARD_TABLE, rs) ==> InForce(host.kernel, IPV6_GUARD_TABLE, rs)
      ensures ok ==> DnsOf(cfg)
      ensures host.QuietFrom(old(host.clock)) ==>
        connmarkOn && (ok <==> Settable(old(host.kernel), iface, cfg.dns, opts.backend))
      ensures host.kernel.rules4 == old(host.kernel).rules4 && host.kernel.rules6 == old(host.kernel).rules6
      ensures Clean(base, iface) ==> Stacked(host.kernel, base, Plan(), residue, opts.uplink)
    {
      ghost var k, p := host.kernel, Plan();
      AddConnmark(EffectiveMark(cfg));
      ok := AddDns(cfg.dns, opts.backend);
      if Clean(base, iface) {
        FinishedStack(host.kernel, k, base, p, Plan(), residue, opts.uplink);
      }
    }

    /** 2b of Up: when the kernel granted another name, the guard is installed again for that name. */
    method Reaffirm(proto: Protocol) returns (ok: bool)
      requires Valid() && engineOn && InForce(host.kernel, IPV6_GUARD_TABLE, Ipv6Guard(InterfaceName(proto)))
      modifies host
      ensures ok ==> InForce(host.kernel, IPV6_GUARD_TABLE, Ipv6Guard(iface))
      ensures host.QuietFrom(old(host.clock)) ==> (ok <==> iface == InterfaceName(proto) || ValidInterface(iface))
      ensures Valid() && host.clock >= old(host.clock) && host.engine == old(host.engine)
      ensures host.kernel == old(host.kernel).(tables := host.kernel.tables)
      ensures host.kernel.tables - {IPV6_GUARD_TABLE} == old(host.kernel).tables - {IPV6_GUARD_TABLE}
      ensures host.exposed == (old(host.exposed) ||
        (iface != InterfaceName(proto) && ValidInterface(iface) && !host.fails(old(host.clock))))
    {
      ok := true;
      if iface != InterfaceName(proto) {
        ok := guard.InstallIPv6Guard(iface);
      }
    }

    /** Guard, engine and re-affirmed guard. */
    method StartGuarded(proto: Protocol, mark: nat, opts: Options) returns (r: UpResult)
      requires Valid() && AllOff() && routes == null && dns == null && host.engine == None
      modifies host, this`iface, this`engineOn, this`ipv6GuardOn
      ensures Valid() && host.clock >= old(host.clock)
      ensures r == GuardFailed || r == EngineFailed || r == ReaffirmFailed || r == Connected
      ensures r == GuardFailed ==>
        AllOff() && (IPV6_GUARD_TABLE !in old(host.kernel).tables ==> host.kernel == old(host.kernel))
      ensures r == EngineFailed ==>
        && !engineOn && ipv6GuardOn
        && host.kernel == old(host.kernel).(tables := host.kernel.tables)
        && host.kernel.tables - {IPV6_GUARD_TABLE} == old(host.kernel).tables - {IPV6_GUARD_TABLE}
      ensures Started(r) ==>
        && engineOn && ipv6GuardOn && iface == opts.granted && iface !in old(host.kernel).links
        && host.engine == Some(Engine(iface, mark)) && iface in host.kernel.links
        && host.kernel == old(host.kernel).(tables := host.kernel.tables, links := host.kernel.links)
        && (forall q :: HasRoute(old(host.kernel), q) ==> HasRoute(host.kernel, q))
        && (Clean(old(host.kernel), iface) ==> Stacked(host.kernel, old(host.kernel), Plan(), NOTHING, opts.uplink))
        && host.kernel.links == WithLink(old(host.kernel), iface, Link({}, {}, [])).links
      ensures r == Connected ==> InForce(host.kernel, IPV6_GUARD_TABLE, Ipv6Guard(iface))
      ensures host.QuietFrom(old(host.clock)) ==> (r == Connected <==> Startable(old(host.kernel), proto, opts.granted))
      ensures Started(r) <==> Launches(host.fails, old(host.clock), old(host.kernel), proto, opts.granted)
      ensures host.exposed == (old(host.exposed) ||
        LaunchExposes(host.fails, old(host.clock), old(host.kernel), proto, opts.granted))
    {
      ghost var base := host.kernel;
      r := ArmAndStart(proto, mark, opts.granted);
      if r != Connected {
        return;
      }
      var ok := Reaffirm(proto);
      RoutesStay(host.kernel, base, iface);
      if Clean(base, iface) {
        GuardedStack(host.kernel, base, Plan(), opts.uplink);
      }
      r := if ok then Connected else ReaffirmFailed;
    }

    /** The routing layer on a started engine, still a stack on `base`. */
    method RouteOn(cfg: Config, opts: Options, ghost base: State) returns (ok: bool, ghost residue: Residue)
      requires Valid() && engineOn && !routesOn && !dnsOn && !connmarkOn && routes == null && dns == null
      requires iface in host.kernel.links && iface !in base.links
      requires host.kernel == base.(tables := host.kernel.tables, links := host.kernel.links)
      requires forall q :: HasRoute(base, q) ==> HasRoute(host.kernel, q)
      requires Clean(base, iface) ==> Stacked(host.kernel, base, Plan(), NOTHING, opts.uplink)
      modifies host, this`routes, this`routesOn
      ensures Valid() && host.clock >= old(host.clock) && host.exposed == old(host.exposed)
      ensures host.engine == old(host.engine) && routes != null && fresh(routes) && routesOn == ok
      ensures if ok then RoutingOf(cfg, residue, opts.uplink) else CutShort(residue, cfg, opts.uplink)
      ensures host.QuietFrom(old(host.clock)) ==> (ok <==> Fits(old(host.kernel), cfg, iface, opts.uplink))
      ensures residue.endpoint.Some? ==> !HasRoute(base, residue.endpoint.value)
      ensures iface in host.kernel.links && host.kernel.tables == old(host.kernel).tables
      ensures host.kernel.rules4 == residue.rules4 + base.rules4 && host.kernel.rules6 == residue.rules6 + base.rules6
      ensures Clean(base, iface) ==> Stacked(host.kernel, base, Plan(), residue, opts.uplink)
    {
      ghost var k, p := host.kernel, Plan();
      ok, residue := AddRouting(cfg, opts.uplink);
      if Clean(base, iface) {
        RoutedStack(host.kernel, k, base, p, residue, opts.uplink);
      }
    }

    /** Routing, connmark and DNS on a started engine; `base` is the kernel before the connection. */
    method AddLayers(cfg: Config, opts: Options, ghost base: State) returns (r: UpResult, ghost residue: Residue)
      requires Valid() && engineOn && !routesOn && !dnsOn && !connmarkOn && routes == null && dns == null
      requires iface in host.kernel.links && iface !in base.links
      requires InForce(host.kernel, IPV6_GUARD_TABLE, Ipv6Guard(iface))
      requires host.kernel == base.(tables := host.kernel.tables, links := host.kernel.links)
      requires forall q :: HasRoute(base, q) ==> HasRoute(host.kernel, q)
      requires Clean(base, iface) ==> Stacked(host.kernel, base, Plan(), NOTHING, opts.uplink)
      modifies host, this
      ensures Valid() && engineOn && ipv6GuardOn && iface == old(iface) && host.clock >= old(host.clock)
      ensures host.exposed == old(host.exposed) && host.engine == old(host.engine)
      ensures routes != null && fresh(routes) && (dns != null ==> fresh(dns))
      ensures r == Connected || r == RoutesFailed || r == DnsFailed
      ensures r == RoutesFailed ==> CutShort(residue, cfg, opts.uplink) && !routesOn && !connmarkOn && !dnsOn
      ensures r != RoutesFailed ==> RoutingOf(cfg, residue, opts.uplink)
      ensures r == Connected ==> dnsOn && DnsOf(cfg)
      ensures connmarkOn ==> InForce(host.kernel, CONNMARK_TABLE, Connmark(EffectiveMark(cfg)))
      ensures InForce(host.kernel, IPV6_GUARD_TABLE, Ipv6Guard(iface))
      ensures host.QuietFrom(old(host.clock)) ==>
        && (r == Connected <==>
              && Fits(old(host.kernel), cfg, iface, opts.uplink)
              && Settable(old(host.kernel), iface, cfg.dns, opts.backend))
        && (r == Connected ==> connmarkOn)
      ensures residue.endpoint.Some? ==> !HasRoute(base, residue.endpoint.value)
      ensures Clean(base, iface) ==> Stacked(host.kernel, base, Plan(), residue, opts.uplink)
      ensures host.kernel.rules4 == residue.rules4 + base.rules4 && host.kernel.rules6 == residue.rules6 + base.rules6
    {
      var ok;
      ok, residue := RouteOn(cfg, opts, base);
      if !ok {
        return RoutesFailed, residue;
      }
      ok := AddConnmarkAndDns(cfg, opts, base, residue);
      r := if ok then Connected else DnsFailed;
    }

    /** A live connection: every layer is on, and tearing down its plan restores `base` but for the sysctl. */
    ghost predicate Live(cfg: Config, opts: Options, base: State, residue: Residue)
      requires Valid()
      reads this, host, routes, dns
    {
      && engineOn && ipv6GuardOn && dnsOn && iface == opts.granted
      && host.engine == Some(Engine(iface, EffectiveMark(cfg)))
      && RoutingOf(cfg, residue, opts.uplink) && DnsOf(cfg)
      && InForce(host.kernel, IPV6_GUARD_TABLE, Ipv6Guard(iface))
      && (connmarkOn ==> InForce(host.kernel, CONNMARK_TABLE, Connmark(EffectiveMark(cfg))))
      && host.kernel.rules4 == residue.rules4 + base.rules4 && host.kernel.rules6 == residue.rules6 + base.rules6
      && (Clean(base, iface) ==>
            Undo(host.kernel, Plan()) == base.(srcValidMark := base.srcValidMark || FullTunnel(cfg, false)))
    }

    /** One mark is on the engine's socket, in both installed rules' list, names the table, and goes into connmark. */
    ghost predicate MarkedBy(m: nat, cfg: Config)
      requires Valid()
      reads this, host, routes, dns
    {
      && host.engine == Some(Engine(iface, m))
      && (connmarkOn ==> InForce(host.kernel, CONNMARK_TABLE, Connmark(m)))
      && forall v6 :: FullTunnel(cfg, v6) ==>
           && |Rules(host.kernel, v6)| >= 2
           && Rules(host.kernel, v6)[0] == SuppressDefault && Rules(host.kernel, v6)[1] == NotFwmark(m)
           && iface in host.kernel.links && Route(Prefix(v6, 0, 0), m) in host.kernel.links[iface].routes
    }

    /** The mark of a live connection is the profile's, or 51820 where it has none. */
    lemma LiveIsMarked(cfg: Config, opts: Options, base: State, residue: Residue)
      requires Valid() && Live(cfg, opts, base, residue)
      ensures MarkedBy(if cfg.fwMark != 0 then cfg.fwMark else 51820, cfg)
    {
      var m := if cfg.fwMark != 0 then cfg.fwMark else 51820;
      forall v6 | FullTunnel(cfg, v6)
        ensures |Rules(host.kernel, v6)| >= 2
        ensures Rules(host.kernel, v6)[0] == SuppressDefault && Rules(host.kernel, v6)[1] == NotFwmark(m)
      {
        assert Rules(host.kernel, v6) == InstalledRules(m, 2) + Rules(base, v6);
      }
    }

    /** Undoing what is on leaves what the result says, once the engine has come up. */
    lemma StartUndone(base: State, r: UpResult, residue: Residue, cfg: Config, uplink: string)
      requires Valid() && Started(r) && Clean(base, iface) && iface !in base.links
      requires Stacked(host.kernel, base, Plan(), residue, uplink)
      requires r == ReaffirmFailed ==> residue == NOTHING && !routesOn
      requires r == RoutesFailed ==> CutShort(residue, cfg, uplink) && !routesOn
      requires r == DnsFailed || r == Connected ==>
        RoutingOf(cfg, residue, uplink) && (residue.endpoint.Some? ==> !HasRoute(base, residue.endpoint.value))
      ensures Restored(Undo(host.kernel, Plan()), base, r, residue, cfg, uplink)
    {
      UnwindExact(host.kernel, base, Plan(), r, residue, cfg, uplink);
    }

    /** Every layer in order, up to the first that fails; what is on can be taken down again. */
    method Apply(proto: Protocol, cfg: Config, opts: Options) returns (r: UpResult, ghost residue: Residue)
      requires Valid() && AllOff() && routes == null && dns == null && host.engine == None
      modifies host, this
      ensures Valid() && host.clock >= old(host.clock)
      ensures (routes != null ==> fresh(routes)) && (dns != null ==> fresh(dns))
      ensures r == GuardFailed || r == EngineFailed || Started(r)
      ensures r == GuardFailed ==>
        AllOff() && (IPV6_GUARD_TABLE !in old(host.kernel).tables ==> host.kernel == old(host.kernel))
      ensures r != GuardFailed && Clean(old(host.kernel), opts.granted) ==>
        Restored(Undo(host.kernel, Plan()), old(host.kernel), r, residue, cfg, opts.uplink)
      ensures r == Connected ==> Live(cfg, opts, old(host.kernel), residue)
      ensures host.QuietFrom(old(host.clock)) ==>
        (r == Connected <==> Feasible(old(host.kernel), proto, cfg, opts)) && (r == Connected ==> connmarkOn)
      ensures Started(r) <==> Launches(host.fails, old(host.clock), old(host.kernel), proto, opts.granted)
      ensures host.exposed == (old(host.exposed) ||
        LaunchExposes(host.fails, old(host.clock), old(host.kernel), proto, opts.granted))
    {
      ghost var base := host.kernel;
      residue := NOTHING;
      r := StartGuarded(proto, EffectiveMark(cfg), opts);
      if r == GuardFailed {
        return;
      }
      if r == Connected {
        FeasibleOnceStarted(base, host.kernel, proto, cfg, opts);
        r, residue := AddLayers(cfg, opts, base);
      }
      if Clean(base, opts.granted) {
        if r == EngineFailed {
          UnwindExact(host.kernel, base, Plan(), r, residue, cfg, opts.uplink);
        } else {
          StartUndone(base, r, residue, cfg, opts.uplink);
        }
      }
    }

    /**
     * Up. When no command is made to fail it connects exactly if that is feasible. On success the
     * connection is live. On failure everything is torn down again, except that a
     * routing layer cut short leaves exactly `residue`; `unwound` is the number of the first call of
     * the unwind. The host is exposed at some moment if and only if the start goes through under
     * another (valid) name than the one asked for and the next call, the table's deletion, works.
     */
    static method Up(host: Host, proto: Protocol, cfg: Config, opts: Options)
      returns (c: Conn?, r: UpResult, ghost residue: Residue, ghost unwound: nat)
      requires host.engine == None
      modifies host
      ensures r == Unsupported <==> proto != AmneziaWG && proto != WireGuard
      ensures r == BootRecoveryPending <==> r != Unsupported && opts.bootGate == Some(false)
      ensures r == Unsupported || r == BootRecoveryPending ==>
        host.kernel == old(host.kernel) && host.clock == old(host.clock)
      ensures c != null <==> r == Connected
      ensures c != null ==>
        && fresh(c) && c.host == host && (c.routes != null ==> fresh(c.routes)) && (c.dns != null ==> fresh(c.dns))
        && c.Valid() && c.Live(cfg, opts, old(host.kernel), residue)
      ensures c != null && cfg.fwMark != 0 ==> c.MarkedBy(cfg.fwMark, cfg)
      ensures c != null && cfg.fwMark == 0 ==> c.MarkedBy(51820, cfg)
      ensures c == null ==> host.engine == None
      ensures host.QuietFrom(old(host.clock)) && r != Unsupported && r != BootRecoveryPending ==>
        (r == Connected <==> Feasible(old(host.kernel), proto, cfg, opts))
      ensures old(host.clock) <= unwound <= host.clock
      ensures c == null && Clean(old(host.kernel), opts.granted) && host.QuietFrom(unwound) ==>
        Restored(host.kernel, old(host.kernel), r, residue, cfg, opts.uplink)
      ensures Started(r) <==>
        Admitted(proto, opts) && Launches(host.fails, old(host.clock), old(host.kernel), proto, opts.granted)
      ensures host.exposed == (old(host.exposed) || (Admitted(proto, opts) &&
        LaunchExposes(host.fails, old(host.clock), old(host.kernel), proto, opts.granted)))
    {
      c, residue, unwound := null, NOTHING, host.clock;
      if proto != AmneziaWG && proto != WireGuard {
        return null, Unsupported, residue, unwound;
      }
      if opts.bootGate == Some(false) {
        return null, BootRecoveryPending, residue, unwound;
      }
      var conn := new Conn(host);
      r, residue := conn.Apply(proto, cfg, opts);
      unwound := host.clock;
      if r == GuardFailed {
        return null, r, residue, unwound;
      }
      if r != Connected {
        conn.Unwind();
        return null, r, residue, unwound;
      }
      conn.LiveIsMarked(cfg, opts, old(host.kernel), residue);
      c := conn;
    }

    /** Reverts a partly applied Up and ignores the outcome. */
    method Unwind()
      requires Valid()
      modifies host, this`dnsOn, this`connmarkOn, this`routesOn, this`engineOn, this`ipv6GuardOn
      modifies if routes == null then {} else {routes}
      ensures Valid() && AllOff() && host.engine == None
      ensures host.exposed == old(host.exposed) && host.clock >= old(host.clock)
      ensures host.QuietFrom(old(host.clock)) ==> host.kernel == Undo(old(host.kernel), old(Plan()))
    {
      var _ := Teardown();
    }

    method Down() returns (ok: bool)
      requires Valid()
      modifies host, this`dnsOn, this`connmarkOn, this`routesOn, this`engineOn, this`ipv6GuardOn
      modifies if routes == null then {} else {routes}
      ensures Valid() && AllOff() && host.engine == None
      ensures host.exposed == old(host.exposed) && host.clock >= old(host.clock)
      ensures ok || host.QuietFrom(old(host.clock)) ==> host.kernel == Undo(old(host.kernel), old(Plan()))
      ensures host.QuietFrom(old(host.clock)) ==> (ok <==> Undoable(old(host.kernel), old(Plan())))
      ensures old(AllOff()) ==> ok && host.kernel == old(host.kernel) && host.clock == old(host.clock)
    {
      ok := Teardown();
    }
  }

  /** What the unwind of each failure leaves, and what a Down of a live connection would leave. */
  lemma UnwindExact(k: State, base: State, p: TeardownPlan, r: UpResult, residue: Residue, cfg: Config, uplink: string)
    requires r == EngineFailed || Started(r)
    requires r == EngineFailed ==>
      && p == p.(dns := None, connmark := false, v4 := false, v6 := false, pin := None, engine := false, guard := true)
      && IPV6_GUARD_TABLE !in base.tables && k == base.(tables := k.tables)
      && k.tables - {IPV6_GUARD_TABLE} == base.tables - {IPV6_GUARD_TABLE}
    requires Started(r) ==>
      Clean(base, p.iface) && p.iface !in base.links && Stacked(k, base, p, residue, uplink)
    requires r == ReaffirmFailed || r == RoutesFailed ==> !p.v4 && !p.v6 && p.pin.None?
    requires r == ReaffirmFailed ==> residue == NOTHING
    requires r == DnsFailed || r == Connected ==>
      && residue == CompleteResidue(cfg, uplink) && p.mark == EffectiveMark(cfg)
      && p.v4 == FullTunnel(cfg, false) && p.v6 == FullTunnel(cfg, true)
      && p.pin == (if residue.endpoint.Some? then Some((uplink, residue.endpoint.value)) else None)
      && (residue.endpoint.Some? ==> !HasRoute(base, residue.endpoint.value))
    requires r == RoutesFailed ==> CutShort(residue, cfg, uplink)
    ensures Restored(Undo(k, p), base, r, residue, cfg, uplink)
  {
    if r == EngineFailed {
      UndoByField(k, p);
      assert base.tables - {IPV6_GUARD_TABLE} == base.tables;
    } else if r == ReaffirmFailed || r == RoutesFailed {
      UndoStacked(k, base, p, residue, uplink);
      NothingAdded(base, uplink);
    } else {
      UndoComplete(k, base, p, residue, uplink);
    }
  }

  /**
   * Undo is exact: with no command failing after a successful Up, a Down restores the kernel as it
   * was before, except for src_valid_mark, and a second Down issues no command at all.
   */
  method UpThenDown(host: Host, proto: Protocol, cfg: Config, opts: Options)
    returns (r: UpResult, ghost residue: Residue)
    requires host.engine == None && Clean(host.kernel, opts.granted) && host.QuietFrom(host.clock)
    modifies host
    ensures host.engine == None
    ensures r != Unsupported && r != BootRecoveryPending ==>
      (r == Connected <==> Feasible(old(host.kernel), proto, cfg, opts))
    ensures Restored(host.kernel, old(host.kernel), r, residue, cfg, opts.uplink)
  {
    var c;
    ghost var unwound;
    c, r, residue, unwound := Conn.Up(host, proto, cfg, opts);
    if c != null {
      var _ := c.Down();
      label once:
      var _ := c.Down();
      assert host.clock == old@once(host.clock) && host.kernel == old@once(host.kernel);
    }
  }

  /** The engine came up. */
  predicate Started(r: UpResult) {
    r == Connected || r == ReaffirmFailed || r == RoutesFailed || r == DnsFailed
  }

  /** The guard and a fresh link on the base: a stack without routing, connmark or DNS. */
  lemma GuardedStack(k: State, base: State, p: TeardownPlan, uplink: string)
    requires Clean(base, p.iface) && p.iface !in base.links && p.guard && p.engine
    requires k == base.(tables := k.tables, links := k.links)
    requires k.tables - {IPV6_GUARD_TABLE} == base.tables - {IPV6_GUARD_TABLE}
    requires k.links == base.links[p.iface := Link({}, {}, [])]
    ensures Stacked(k, base, p, NOTHING, uplink)
  {
    assert [] + base.rules4 == base.rules4 && [] + base.rules6 == base.rules6;
    assert CONNMARK_TABLE !in k.tables by {
      assert CONNMARK_TABLE !in base.tables - {IPV6_GUARD_TABLE};
    }
    assert k.tables - {IPV6_GUARD_TABLE, CONNMARK_TABLE} == k.tables - {IPV6_GUARD_TABLE};
    assert base.tables - {IPV6_GUARD_TABLE, CONNMARK_TABLE} == base.tables - {IPV6_GUARD_TABLE};
    assert WithoutLink(k, p.iface).links == WithoutLink(base, p.iface).links;
  }

  /** The routing layer on such a stack. */
  lemma RoutedStack(k: State, k1: State, base: State, p: TeardownPlan, r: Residue, uplink: string)
    requires Stacked(k1, base, p, NOTHING, uplink) && p.iface !in base.links && p.iface in k1.links
    requires SameBeyond(k, WithResidue(k1, r, uplink), p.iface)
    ensures Stacked(k, base, p, r, uplink)
    ensures r.endpoint.Some? && HasRoute(base, r.endpoint.value) ==> HasRoute(k1, r.endpoint.value)
  {
    RoutingOnFreshLink(k1.links, base.links, p.iface, r, uplink);
    assert WithoutLink(k, p.iface) == WithoutLink(WithResidue(k1, r, uplink), p.iface);
    assert k1.rules4 == base.rules4 && k1.rules6 == base.rules6 by {
      assert [] + base.rules4 == base.rules4 && [] + base.rules6 == base.rules6;
    }
  }

  lemma RoutingOnFreshLink(l: Links, base: Links, dev: string, r: Residue, uplink: string)
    requires dev !in base && dev in l && l - {dev} == base - {dev}
    ensures r.endpoint.Some? ==>
      PlusRoute(l, uplink, r.endpoint.value) - {dev} == PlusRoute(base, uplink, r.endpoint.value) - {dev}
    ensures forall d :: d in base ==> d in l && l[d] == base[d]
  {
    assert base - {dev} == base;
    forall d | d in base ensures d in l && l[d] == base[d] {
      assert (l - {dev})[d] == base[d];
    }
    assert l.Keys - {dev} == base.Keys by {
      assert (l - {dev}).Keys == base.Keys;
    }
  }

  /** Connmark and DNS on such a stack, recorded in the plan as far as they are on. */
  lemma FinishedStack(k: State, k2: State, base: State, p2: TeardownPlan, p: TeardownPlan, r: Residue, uplink: string)
    requires Stacked(k2, base, p2, r, uplink) && p.iface == p2.iface && p.guard && p.engine
    requires Clean(base, p.iface) && !p2.connmark && p2.dns.None?
    requires k == k2.(tables := k.tables, links := k.links, resolvconf := k.resolvconf)
    requires k.tables - {CONNMARK_TABLE} == k2.tables - {CONNMARK_TABLE} && (CONNMARK_TABLE in k.tables ==> p.connmark)
    requires WithoutLink(k, p.iface).links == WithoutLink(k2, p.iface).links
    requires k.resolvconf - {p.iface} == k2.resolvconf - {p.iface}
    requires p.iface in k.resolvconf ==> p.dns == Some(Resolvconf)
    ensures Stacked(k, base, p, r, uplink)
  {
    assert k.tables - {IPV6_GUARD_TABLE, CONNMARK_TABLE} == (k.tables - {CONNMARK_TABLE}) - {IPV6_GUARD_TABLE};
    assert k2.tables - {IPV6_GUARD_TABLE, CONNMARK_TABLE} == (k2.tables - {CONNMARK_TABLE}) - {IPV6_GUARD_TABLE};
  }

  lemma RoutesStay(k: State, base: State, dev: string)
    requires dev !in base.links && k.links == base.links[dev := Link({}, {}, [])]
    ensures forall q :: HasRoute(base, q) ==> HasRoute(k, q)
  {
    forall q | HasRoute(base, q) ensures HasRoute(k, q) {
      var d :| d in base.links && q in base.links[d].routes;
      assert k.links[d] == base.links[d];
    }
  }
}
