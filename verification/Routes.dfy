/** Interface addressing and the fwmark policy routing of a full tunnel. */
module Routes {
  import opened Wrappers
  import opened Kernel

  /** The first peer endpoint: none, a hostname, or a literal address. */
  datatype Endpoint = NoEndpoint | Hostname | Literal(v6: bool, addr: nat)

  /**
   * The part of a parsed profile that the layers use. An address, allowed IP or DNS server is None
   * when its text is not one.
   */
  datatype Config = Config(
    fwMark: nat,
    addresses: seq<Option<Prefix>>,
    allowedIps: seq<seq<Option<Prefix>>>,
    endpoint: Endpoint,
    dns: seq<Option<string>>)

  const DEFAULT_MARK: nat := 51820

  /** The one mark for the engine's socket and for the routing table. */
  function EffectiveMark(cfg: Config): (m: nat)
    ensures m != 0 && (cfg.fwMark != 0 ==> m == cfg.fwMark) && (cfg.fwMark == 0 ==> m == 51820)
  {
    if cfg.fwMark != 0 then cfg.fwMark else DEFAULT_MARK
  }

  /** Some peer allows the whole of a family. */
  ghost predicate FullTunnel(cfg: Config, v6: bool) {
    exists i, j :: 0 <= i < |cfg.allowedIps| && 0 <= j < |cfg.allowedIps[i]| && IsDefault(cfg.allowedIps[i][j], v6)
  }

  predicate IsDefault(p: Option<Prefix>, v6: bool) {
    p.Some? && p.value.bits == 0 && p.value.v6 == v6
  }

  /** allowedDefaults: whether any allowed IP is a /0 of each family; text that is no prefix is skipped. */
  method AllowedDefaults(cfg: Config) returns (v4: bool, v6: bool)
    ensures v4 == FullTunnel(cfg, false) && v6 == FullTunnel(cfg, true)
  {
    v4, v6 := false, false;
    for i := 0 to |cfg.allowedIps|
      invariant v4 == FullTunnel(cfg.(allowedIps := cfg.allowedIps[..i]), false)
      invariant v6 == FullTunnel(cfg.(allowedIps := cfg.allowedIps[..i]), true)
    {
      var peer := cfg.allowedIps[i];
      ghost var seen4, seen6 := v4, v6;
      for j := 0 to |peer|
        invariant v4 == (seen4 || exists k :: 0 <= k < j && IsDefault(peer[k], false))
        invariant v6 == (seen6 || exists k :: 0 <= k < j && IsDefault(peer[k], true))
      {
        if peer[j].Some? && peer[j].value.bits == 0 {
          if peer[j].value.v6 {
            v6 := true;
          } else {
            v4 := true;
          }
        }
      }
      OnePeerMore(cfg, i, false);
      OnePeerMore(cfg, i, true);
    }
    assert cfg.allowedIps[..|cfg.allowedIps|] == cfg.allowedIps;
  }

  lemma OnePeerMore(cfg: Config, i: nat, v6: bool)
    requires i < |cfg.allowedIps|
    ensures FullTunnel(cfg.(allowedIps := cfg.allowedIps[..i + 1]), v6) <==>
      FullTunnel(cfg.(allowedIps := cfg.allowedIps[..i]), v6)
      || exists k :: 0 <= k < |cfg.allowedIps[i]| && IsDefault(cfg.allowedIps[i][k], v6)
  {
    var a, b := cfg.allowedIps[..i], cfg.allowedIps[..i + 1];
    if FullTunnel(cfg.(allowedIps := b), v6) {
      var x, y :| 0 <= x < |b| && 0 <= y < |b[x]| && IsDefault(b[x][y], v6);
      if x < i {
        assert IsDefault(a[x][y], v6);
      }
    }
    if FullTunnel(cfg.(allowedIps := a), v6) {
      var x, y :| 0 <= x < |a| && 0 <= y < |a[x]| && IsDefault(a[x][y], v6);
      assert IsDefault(b[x][y], v6);
    }
    if exists k :: 0 <= k < |cfg.allowedIps[i]| && IsDefault(cfg.allowedIps[i][k], v6) {
      var k :| 0 <= k < |cfg.allowedIps[i]| && IsDefault(cfg.allowedIps[i][k], v6);
      assert IsDefault(b[i][k], v6);
    }
  }

  // ---- What the routing layer leaves in the kernel beyond its interface ----

  /** Rules put in front of each family's list, the endpoint's host route on its uplink, and the sysctl. */
  datatype Residue = Residue(rules4: seq<Rule>, rules6: seq<Rule>, endpoint: Option<Route>, srcValidMark: bool)

  const NOTHING := Residue([], [], None, false)

  function WithResidue(k: State, r: Residue, uplink: string): State {
    k.(rules4 := r.rules4 + k.rules4, rules6 := r.rules6 + k.rules6, srcValidMark := k.srcValidMark || r.srcValidMark,
       links := if r.endpoint.Some? then PlusRoute(k.links, uplink, r.endpoint.value) else k.links)
  }

  /** The rules addDefault has installed after its first n rule commands, the last one in front. */
  function InstalledRules(mark: nat, n: nat): seq<Rule> {
    if n == 0 then [] else if n == 1 then [NotFwmark(mark)] else [SuppressDefault, NotFwmark(mark)]
  }

  function DefaultRoute(v6: bool, table: nat): Route {
    Route(Prefix(v6, 0, 0), table)
  }

  function HostRoute(e: Endpoint): Route
    requires e.Literal?
  {
    Route(Prefix(e.v6, e.addr, if e.v6 then 128 else 32), MAIN)
  }

  /** The endpoint route that a configuration pins to an uplink. */
  function PinnedRoute(cfg: Config, uplink: string): Option<Route> {
    if uplink != "" && cfg.endpoint.Literal? then Some(HostRoute(cfg.endpoint)) else None
  }

  /** Two kernels that differ at most in what is bound to `dev`, and agree on which links exist. */
  ghost predicate SameBeyond(a: State, b: State, dev: string) {
    WithoutLink(a, dev) == WithoutLink(b, dev) && a.links.Keys == b.links.Keys
  }

  lemma SameBeyondResidue(a: State, b: State, dev: string, r: Residue, uplink: string)
    requires SameBeyond(a, b, dev)
    ensures SameBeyond(WithResidue(a, r, uplink), WithResidue(b, r, uplink), dev)
  {
    SameBeyondLinks(a, b, dev);
    var a', b' := WithResidue(a, r, uplink), WithResidue(b, r, uplink);
    forall d | d in a'.links && d != dev ensures a'.links[d] == b'.links[d] {}
    LinksSameBeyond(a', b', dev);
  }

  /** The same, read link by link. */
  lemma SameBeyondLinks(a: State, b: State, dev: string)
    requires SameBeyond(a, b, dev)
    ensures a == b.(links := a.links)
    ensures forall d :: d in a.links && d != dev ==> d in b.links && a.links[d] == b.links[d]
  {
    forall d | d in a.links && d != dev ensures d in b.links && a.links[d] == b.links[d] {
      assert WithoutLink(a, dev).links[d] == WithoutLink(b, dev).links[d];
    }
  }

  lemma LinksSameBeyond(a: State, b: State, dev: string)
    requires a == b.(links := a.links) && a.links.Keys == b.links.Keys
    requires forall d :: d in a.links && d != dev ==> a.links[d] == b.links[d]
    ensures SameBeyond(a, b, dev)
  {
    assert WithoutLink(a, dev).links == WithoutLink(b, dev).links;
  }

  /** What one family's addDefault has added after n of its rule commands. */
  function FamilyResidue(v6: bool, mark: nat, n: nat, sysctl: bool): Residue {
    Residue(if v6 then [] else InstalledRules(mark, n), if v6 then InstalledRules(mark, n) else [], None, sysctl)
  }

  /** The three parts of a residue, installed one after the other. */
  lemma ResidueParts(k: State, r: Residue, uplink: string)
    ensures WithResidue(k, r, uplink) ==
      WithResidue(WithResidue(WithResidue(k, NOTHING.(endpoint := r.endpoint), uplink),
        Residue(r.rules4, [], None, r.srcValidMark), uplink), Residue([], r.rules6, None, false), uplink)
  {
    assert [] + k.rules4 == k.rules4 && [] + k.rules6 == k.rules6;
    assert [] + (r.rules4 + k.rules4) == r.rules4 + k.rules4;
  }

  lemma NothingAdded(k: State, uplink: string)
    ensures WithResidue(k, NOTHING, uplink) == k
  {
  }

  /** The rules in front of a family's list, as a residue. */
  lemma RulesAsResidue(k: State, v6: bool, mark: nat, uplink: string)
    ensures WithResidue(k, FamilyResidue(v6, mark, 0, false), uplink) == k
    ensures WithResidue(k, FamilyResidue(v6, mark, 1, false), uplink) ==
      WithRules(k, v6, [NotFwmark(mark)] + Rules(k, v6))
    ensures WithResidue(k, FamilyResidue(v6, mark, 2, false), uplink) ==
      WithRules(k, v6, [SuppressDefault] + ([NotFwmark(mark)] + Rules(k, v6)))
  {
    assert [] + k.rules4 == k.rules4 && [] + k.rules6 == k.rules6;
    assert [SuppressDefault, NotFwmark(mark)] + Rules(k, v6) ==
      [SuppressDefault] + ([NotFwmark(mark)] + Rules(k, v6));
  }

  lemma FamiliesTogether(k0: State, k1: State, k2: State, dev: string, mark: nat, n: nat, m: nat, sysctl: bool,
                         uplink: string)
    requires SameBeyond(k1, WithResidue(k0, FamilyResidue(false, mark, n, sysctl), uplink), dev)
    requires SameBeyond(k2, WithResidue(k1, FamilyResidue(true, mark, m, false), uplink), dev)
    ensures SameBeyond(k2,
      WithResidue(k0, Residue(InstalledRules(mark, n), InstalledRules(mark, m), None, sysctl), uplink), dev)
  {
    SameBeyondResidue(k1, WithResidue(k0, FamilyResidue(false, mark, n, sysctl), uplink), dev,
      FamilyResidue(true, mark, m, false), uplink);
    ResidueParts(k0, Residue(InstalledRules(mark, n), InstalledRules(mark, m), None, sysctl), uplink);
    NothingAdded(k0, uplink);
  }

  /** A family's rules without the first copy of each rule addDefault installs, when it was applied. */
  function Dropped(rules: seq<Rule>, mark: nat, applied: bool): seq<Rule> {
    if applied then RemoveFirst(RemoveFirst(rules, NotFwmark(mark)), SuppressDefault) else rules
  }

  /** What a complete routing layer leaves beyond its interface. */
  ghost function CompleteResidue(cfg: Config, uplink: string): Residue {
    var mark := EffectiveMark(cfg);
    Residue(
      if FullTunnel(cfg, false) then InstalledRules(mark, 2) else [],
      if FullTunnel(cfg, true) then InstalledRules(mark, 2) else [],
      PinnedRoute(cfg, uplink), FullTunnel(cfg, false))
  }

  /** What an Up that failed has installed: the endpoint's route and the rules, cut short at some command. */
  ghost predicate CutShort(r: Residue, cfg: Config, uplink: string) {
    var mark := EffectiveMark(cfg);
    && (exists n, m :: 0 <= n <= 2 && 0 <= m <= 2 &&
          r.rules4 == InstalledRules(mark, n) && r.rules6 == InstalledRules(mark, m))
    && (r.endpoint.Some? ==> r.endpoint == PinnedRoute(cfg, uplink))
    && (r.rules4 != [] ==> FullTunnel(cfg, false) && r.endpoint == PinnedRoute(cfg, uplink))
    && (r.rules6 != [] ==> FullTunnel(cfg, true) && r.endpoint == PinnedRoute(cfg, uplink))
    && (r.rules6 != [] && FullTunnel(cfg, false) ==> r.rules4 == InstalledRules(mark, 2) && r.srcValidMark)
  }

  /** The second family starts only after the first one is complete. */
  lemma FamiliesCutShort(cfg: Config, uplink: string, n: nat, m: nat, sysctl: bool)
    requires n <= 2 && m <= 2
    requires n > 0 ==> FullTunnel(cfg, false)
    requires m > 0 ==> FullTunnel(cfg, true) && (FullTunnel(cfg, false) ==> n == 2 && sysctl)
    ensures var mark := EffectiveMark(cfg);
      CutShort(Residue(InstalledRules(mark, n), InstalledRules(mark, m), PinnedRoute(cfg, uplink), sysctl), cfg, uplink)
  {
  }

  /** Every address is one, none is on the link already, and none comes twice. */
  ghost predicate AddressesFit(on: set<Prefix>, addresses: seq<Option<Prefix>>) {
    forall i :: 0 <= i < |addresses| ==>
      addresses[i].Some? && addresses[i].value !in on && addresses[i] !in addresses[..i]
  }

  /** The routing layer can be added: addresses, pinned route and default routes meet nothing in their way. */
  ghost predicate Fits(k: State, cfg: Config, iface: string, uplink: string) {
    && iface in k.links && AddressesFit(k.links[iface].addresses, cfg.addresses)
    && (PinnedRoute(cfg, uplink).Some? ==> uplink in k.links && !HasRoute(k, PinnedRoute(cfg, uplink).value))
    && forall v6 :: FullTunnel(cfg, v6) ==> !HasRoute(k, DefaultRoute(v6, EffectiveMark(cfg)))
  }

  /** The interface keeps what is bound to it. */
  predicate LinkGrows(a: State, b: State, dev: string) {
    dev in a.links ==>
      dev in b.links && a.links[dev].routes <= b.links[dev].routes && a.links[dev].addresses <= b.links[dev].addresses
  }

  lemma RoutesByLinks(a: State, b: State)
    requires a.links == b.links
    ensures forall q :: HasRoute(a, q) <==> HasRoute(b, q)
  {
  }

  predicate IsNew(l: Links, dev: string, p: Prefix) {
    dev in l && p !in l[dev].addresses
  }

  function Addressed(k: State, dev: string, p: Prefix): State
    requires dev in k.links
  {
    WithLink(k, dev, k.links[dev].(addresses := k.links[dev].addresses + {p}))
  }

  /** The kernel has what it had and the addresses on the link, which were new one after the other. */
  ghost predicate AddedSoFar(before: State, after: State, dev: string, addresses: seq<Option<Prefix>>) {
    if addresses == [] then after == before
    else
      && dev in before.links && dev in after.links
      && after == WithLink(before, dev, before.links[dev].(addresses := after.links[dev].addresses))
      && AddressesFit(before.links[dev].addresses, addresses)
      && forall p :: p in after.links[dev].addresses <==> p in before.links[dev].addresses || Some(p) in addresses
  }

  ghost predicate SameRoutes(a: State, b: State) {
    forall r :: HasRoute(a, r) <==> HasRoute(b, r)
  }

  lemma AddedFaithfully(before: State, after: State, dev: string, addresses: seq<Option<Prefix>>)
    requires AddedSoFar(before, after, dev, addresses)
    ensures SameBeyond(after, before, dev) && SameRoutes(after, before)
    ensures dev in before.links <==> dev in after.links
  {
    assert forall d :: d in after.links ==> d in before.links && after.links[d].routes == before.links[d].routes;
    assert forall d :: d in before.links ==> d in after.links;
  }

  /** The next address stops the list, or is added to what has been. */
  lemma AddedNext(before: State, after: State, dev: string, addresses: seq<Option<Prefix>>, i: nat)
    requires i < |addresses| && AddedSoFar(before, after, dev, addresses[..i])
    ensures addresses[i].None? || !IsNew(after.links, dev, addresses[i].value) ==>
      dev in before.links ==> !AddressesFit(before.links[dev].addresses, addresses)
    ensures addresses[i].Some? && IsNew(after.links, dev, addresses[i].value) ==>
      AddedSoFar(before, Addressed(after, dev, addresses[i].value), dev, addresses[..i + 1])
  {
    AddedFaithfully(before, after, dev, addresses[..i]);
    assert addresses[..i + 1] == addresses[..i] + [addresses[i]];
    if addresses[i].Some? && IsNew(after.links, dev, addresses[i].value) {
      AddedOneMore(before, after, dev, addresses[..i], addresses[i].value);
    }
  }

  lemma AddedOneMore(before: State, after: State, dev: string, addresses: seq<Option<Prefix>>, p: Prefix)
    requires AddedSoFar(before, after, dev, addresses) && IsNew(after.links, dev, p)
    ensures AddedSoFar(before, Addressed(after, dev, p), dev, addresses + [Some(p)])
  {
    AddedFaithfully(before, after, dev, addresses);
    var more := addresses + [Some(p)];
    forall i | 0 <= i < |more|
      ensures more[i].Some? && more[i].value !in before.links[dev].addresses && more[i] !in more[..i]
    {
      assert more[..i] == addresses[..i];
    }
  }

  lemma RouteAdded(k: State, dev: string, r: Route, q: Route)
    requires dev in k.links
    ensures HasRoute(AddRoute(k, dev, r), q) <==> HasRoute(k, q) || q == r
  {
    var l := AddRoute(k, dev, r).links;
    if HasRoute(k, q) {
      var d :| d in k.links && q in k.links[d].routes;
      assert d in l && q in l[d].routes;
    }
    if q == r {
      assert q in l[dev].routes;
    }
    if HasRoute(AddRoute(k, dev, r), q) {
      var d :| d in l && q in l[d].routes;
      assert d in k.links && (q in k.links[d].routes || q == r);
    }
  }

  class Applier {
    const host: Host
    const iface: string
    const table: nat
    const uplink: string
    var appliedAddrs: seq<Prefix>
    var appliedDefault: map<bool, bool>
    var appliedEndpoint: Option<Endpoint>
    ghost var residue: Residue

    constructor (host: Host, iface: string, cfg: Config, uplink: string)
      ensures this.host == host && this.iface == iface && this.table == EffectiveMark(cfg) && this.uplink == uplink
      ensures appliedAddrs == [] && appliedDefault == map[] && appliedEndpoint == None && residue == NOTHING
    {
      this.host, this.iface, this.table, this.uplink := host, iface, EffectiveMark(cfg), uplink;
      appliedAddrs, appliedDefault, appliedEndpoint, residue := [], map[], None, NOTHING;
    }

    predicate Applied(v6: bool)
      reads this
    {
      v6 in appliedDefault && appliedDefault[v6]
    }

    /** The interface is up and carries `r`. */
    ghost predicate Carries(r: Route)
      reads host
    {
      iface in host.kernel.links && r in host.kernel.links[iface].routes
    }

    /** The interface is up and has the address. */
    ghost predicate Bound(p: Prefix)
      reads host
    {
      iface in host.kernel.links && p in host.kernel.links[iface].addresses
    }

    /** One command that leaves the nft tables alone, so that it exposes nothing. */
    method Issue(c: Command) returns (ok: bool)
      requires host.Latched() && !c.NftDelete? && !c.NftLoad?
      modifies host
      ensures host.Latched() && host.engine == old(host.engine) && host.exposed == old(host.exposed)
      ensures host.clock == old(host.clock) + 1
      ensures ok == (!host.fails(old(host.clock)) && Exec(old(host.kernel), c).Some?)
      ensures host.kernel == if ok then Exec(old(host.kernel), c).value else old(host.kernel)
    {
      ok := host.Run(c);
    }

    /** The two rules of one family; on failure, the n installed so far stay. */
    method AddRules(v6: bool) returns (ok: bool, ghost n: nat)
      requires host.Latched()
      modifies host
      ensures host.Latched() && host.engine == old(host.engine) && host.exposed == old(host.exposed)
      ensures host.clock > old(host.clock)
      ensures n <= 2 && (ok ==> n == 2) && (host.QuietFrom(old(host.clock)) ==> ok)
      ensures host.kernel == WithResidue(old(host.kernel), FamilyResidue(v6, table, n, false), uplink)
    {
      n := 0;
      RulesAsResidue(host.kernel, v6, table, uplink);
      ok := Issue(RuleAdd(v6, NotFwmark(table)));
      if !ok {
        return;
      }
      n := 1;
      ok := Issue(RuleAdd(v6, SuppressDefault));
      if ok {
        n := 2;
      }
    }

    /** A default route on the interface itself. */
    method AddDefaultRoute(v6: bool) returns (ok: bool)
      requires host.Latched()
      modifies host
      ensures host.Latched() && host.engine == old(host.engine) && host.exposed == old(host.exposed)
      ensures host.clock == old(host.clock) + 1 && SameBeyond(host.kernel, old(host.kernel), iface)
      ensures ok <==>
        && !host.fails(old(host.clock)) && iface in old(host.kernel).links
        && !HasRoute(old(host.kernel), DefaultRoute(v6, table))
      ensures ok ==> Carries(DefaultRoute(v6, table))
      ensures forall q :: HasRoute(host.kernel, q) <==>
        HasRoute(old(host.kernel), q) || (ok && q == DefaultRoute(v6, table))
      ensures LinkGrows(old(host.kernel), host.kernel, iface)
    {
      ghost var k := host.kernel;
      ok := Issue(RouteAdd(iface, DefaultRoute(v6, table)));
      LinksSameBeyond(host.kernel, k, iface);
      if ok {
        forall q ensures HasRoute(host.kernel, q) <==> HasRoute(k, q) || q == DefaultRoute(v6, table) {
          RouteAdded(k, iface, DefaultRoute(v6, table), q);
        }
      }
    }

    /** The rules, the route and the sysctl of one family. */
    method AddDefault(v6: bool) returns (ok: bool, ghost n: nat)
      requires host.Latched()
      modifies host, this`appliedDefault
      ensures host.Latched() && host.engine == old(host.engine) && host.exposed == old(host.exposed)
      ensures host.clock > old(host.clock)
      ensures n <= 2 && (ok ==> n == 2 && Carries(DefaultRoute(v6, table)))
      ensures SameBeyond(host.kernel,
        WithResidue(old(host.kernel), FamilyResidue(v6, table, n, ok && !v6), uplink), iface)
      ensures forall r :: old(Carries(r)) ==> Carries(r)
      ensures forall p :: old(Bound(p)) ==> Bound(p)
      ensures forall q :: q != DefaultRoute(v6, table) ==> (HasRoute(host.kernel, q) <==> HasRoute(old(host.kernel), q))
      ensures host.QuietFrom(old(host.clock)) ==>
        (ok <==> iface in old(host.kernel).links && !HasRoute(old(host.kernel), DefaultRoute(v6, table)))
      ensures appliedDefault == if ok then old(appliedDefault)[v6 := true] else old(appliedDefault)
    {
      ghost var before := host.kernel;
      ok, n := AddRules(v6);
      RoutesByLinks(host.kernel, before);
      if !ok {
        return;
      }
      ok := AddDefaultRoute(v6);
      assert LinkGrows(before, host.kernel, iface);
      if !ok {
        return;
      }
      if !v6 {
        ghost var routed := host.kernel;
        ok := Issue(SetSrcValidMark);
        RoutesByLinks(host.kernel, routed);
        assert LinkGrows(before, host.kernel, iface);
        if !ok {
          return;
        }
      }
      appliedDefault := appliedDefault[v6 := true];
    }

    /** Pins the endpoint to the uplink; a hostname is skipped. */
    method AddEndpointRoute(e: Endpoint) returns (installed: bool, ok: bool)
      requires host.Latched() && e != NoEndpoint
      modifies host
      ensures host.Latched() && host.engine == old(host.engine) && host.exposed == old(host.exposed)
      ensures host.clock >= old(host.clock)
      ensures installed ==> ok && e.Literal? && uplink in host.kernel.links && !HasRoute(old(host.kernel), HostRoute(e))
      ensures ok && e.Literal? ==> installed
      ensures host.QuietFrom(old(host.clock)) ==>
        (ok <==> (e.Literal? ==> uplink in old(host.kernel).links && !HasRoute(old(host.kernel), HostRoute(e))))
      ensures host.kernel == if installed then AddRoute(old(host.kernel), uplink, HostRoute(e)) else old(host.kernel)
    {
      if e.Hostname? {
        return false, true;
      }
      ok := Issue(RouteAdd(uplink, HostRoute(e)));
      installed := ok;
    }

    /** The uplink step of Up: the endpoint's route, when there is one to pin. */
    method Pin(cfg: Config) returns (ok: bool)
      requires host.Latched() && residue == NOTHING && appliedEndpoint == None
      modifies host, this`appliedEndpoint, this`residue
      ensures host.Latched() && host.engine == old(host.engine) && host.exposed == old(host.exposed)
      ensures host.clock >= old(host.clock)
      ensures residue == NOTHING.(endpoint := if ok then PinnedRoute(cfg, uplink) else None)
      ensures host.kernel == WithResidue(old(host.kernel), residue, uplink)
      ensures residue.endpoint.Some? ==>
        uplink in host.kernel.links && !HasRoute(old(host.kernel), residue.endpoint.value)
      ensures appliedEndpoint == if residue.endpoint.Some? then Some(cfg.endpoint) else None
      ensures host.kernel.links.Keys == old(host.kernel).links.Keys && forall p :: old(Bound(p)) ==> Bound(p)
      ensures forall v6, t ::
        HasRoute(host.kernel, DefaultRoute(v6, t)) <==> HasRoute(old(host.kernel), DefaultRoute(v6, t))
      ensures host.QuietFrom(old(host.clock)) ==>
        (ok <==> (PinnedRoute(cfg, uplink).Some? ==>
          uplink in old(host.kernel).links && !HasRoute(old(host.kernel), PinnedRoute(cfg, uplink).value)))
    {
      ghost var k := host.kernel;
      ok := true;
      if uplink != "" && cfg.endpoint != NoEndpoint {
        var installed;
        installed, ok := AddEndpointRoute(cfg.endpoint);
        if installed {
          appliedEndpoint := Some(cfg.endpoint);
          residue := residue.(endpoint := Some(HostRoute(cfg.endpoint)));
          forall v6, t
            ensures HasRoute(host.kernel, DefaultRoute(v6, t)) <==> HasRoute(k, DefaultRoute(v6, t))
          {
            RouteAdded(k, uplink, HostRoute(cfg.endpoint), DefaultRoute(v6, t));
          }
        }
      }
    }

    /** The kernel refuses an address that is on the link already. */
    method AddAddress(p: Prefix) returns (ok: bool)
      requires host.Latched()
      modifies host
      ensures host.Latched() && host.engine == old(host.engine) && host.exposed == old(host.exposed)
      ensures host.clock == old(host.clock) + 1
      ensures ok <==> !host.fails(old(host.clock)) && IsNew(old(host.kernel).links, iface, p)
      ensures host.kernel == if ok then Addressed(old(host.kernel), iface, p) else old(host.kernel)
    {
      ok := Issue(AddressAdd(iface, p));
    }

    /** The addresses of the interface. */
    method AddAddresses(cfg: Config) returns (ok: bool)
      requires host.Latched()
      modifies host, this`appliedAddrs
      ensures host.Latched() && host.engine == old(host.engine) && host.exposed == old(host.exposed)
      ensures host.clock >= old(host.clock)
      ensures SameBeyond(host.kernel, old(host.kernel), iface) && SameRoutes(host.kernel, old(host.kernel))
      ensures ok ==> forall i :: 0 <= i < |cfg.addresses| ==> cfg.addresses[i].Some? && Bound(cfg.addresses[i].value)
      ensures host.QuietFrom(old(host.clock)) && iface in old(host.kernel).links ==>
        (ok <==> AddressesFit(old(host.kernel).links[iface].addresses, cfg.addresses))
    {
      ghost var k := host.kernel;
      assert cfg.addresses[..0] == [];
      for i := 0 to |cfg.addresses|
        invariant host.Latched() && host.engine == old(host.engine) && host.exposed == old(host.exposed)
        invariant host.clock >= old(host.clock)
        invariant AddedSoFar(k, host.kernel, iface, cfg.addresses[..i])
      {
        AddedNext(k, host.kernel, iface, cfg.addresses, i);
        AddedFaithfully(k, host.kernel, iface, cfg.addresses[..i]);
        if cfg.addresses[i].None? {
          return false;
        }
        ok := AddAddress(cfg.addresses[i].value);
        if !ok {
          return;
        }
        appliedAddrs := appliedAddrs + [cfg.addresses[i].value];
      }
      assert cfg.addresses[..|cfg.addresses|] == cfg.addresses;
      AddedFaithfully(k, host.kernel, iface, cfg.addresses);
      ok := true;
    }

    /** A completed Up: its residue, and the default routes on the interface itself. */
    ghost predicate Complete(cfg: Config)
      reads this, host
    {
      && residue == CompleteResidue(cfg, uplink)
      && forall v6 :: FullTunnel(cfg, v6) ==> Carries(DefaultRoute(v6, table))
    }

    /** The two families' default routes, after everything else. */
    method AddDefaults(cfg: Config) returns (ok: bool)
      requires host.Latched() && table == EffectiveMark(cfg)
      requires residue == NOTHING.(endpoint := PinnedRoute(cfg, uplink)) && appliedDefault == map[]
      modifies host, this`appliedDefault, this`residue
      ensures host.Latched() && host.engine == old(host.engine) && host.exposed == old(host.exposed)
      ensures host.clock >= old(host.clock)
      ensures residue.endpoint == old(residue.endpoint)
      ensures SameBeyond(host.kernel, WithResidue(old(host.kernel), residue.(endpoint := None), uplink), iface)
      ensures ok ==> Complete(cfg)
      ensures !ok ==> CutShort(residue, cfg, uplink)
      ensures ok ==> forall v6 :: Applied(v6) <==> FullTunnel(cfg, v6)
      ensures forall p :: old(Bound(p)) ==> Bound(p)
      ensures host.QuietFrom(old(host.clock)) && iface in old(host.kernel).links ==>
        (ok <==> forall v6 :: FullTunnel(cfg, v6) ==> !HasRoute(old(host.kernel), DefaultRoute(v6, table)))
    {
      ghost var k0, n, m, sysctl := host.kernel, 0, 0, false;
      var needV4, needV6 := AllowedDefaults(cfg);
      ok := true;
      if needV4 {
        ok, n := AddDefault(false);
        sysctl := ok;
        residue := Residue(InstalledRules(table, n), [], residue.endpoint, sysctl);
      }
      ghost var k1 := host.kernel;
      assert SameBeyond(k1, WithResidue(k0, FamilyResidue(false, table, n, sysctl), uplink), iface) by {
        if !needV4 {
          NothingAdded(k0, uplink);
        }
      }
      if ok && needV6 {
        ok, m := AddDefault(true);
        residue := residue.(rules6 := InstalledRules(table, m));
      }
      assert SameBeyond(host.kernel, WithResidue(k1, FamilyResidue(true, table, m, false), uplink), iface) by {
        if m == 0 {
          NothingAdded(k1, uplink);
        }
      }
      FamiliesTogether(k0, k1, host.kernel, iface, table, n, m, sysctl, uplink);
      assert residue == Residue(InstalledRules(table, n), InstalledRules(table, m), residue.endpoint, sysctl);
      FamiliesCutShort(cfg, uplink, n, m, sysctl);
    }

    /**
     * Link, addresses, endpoint route and default routes, in that order. Whatever fails, everything
     * beyond the interface differs from before by exactly `residue`; when no command is made to fail,
     * it succeeds exactly if nothing is in the way.
     */
    method Up(cfg: Config) returns (ok: bool)
      requires host.Latched() && table == EffectiveMark(cfg)
      requires residue == NOTHING && appliedDefault == map[] && appliedEndpoint == None
      modifies host, this
      ensures host.Latched() && host.engine == old(host.engine) && host.exposed == old(host.exposed)
      ensures host.clock > old(host.clock)
      ensures SameBeyond(host.kernel, WithResidue(old(host.kernel), residue, uplink), iface)
      ensures residue.endpoint.Some? ==>
        uplink in old(host.kernel).links && !HasRoute(old(host.kernel), residue.endpoint.value)
      ensures appliedEndpoint == if residue.endpoint.Some? then Some(cfg.endpoint) else None
      ensures residue.endpoint.Some? ==> residue.endpoint == PinnedRoute(cfg, uplink)
      ensures ok ==> Complete(cfg)
      ensures !ok ==> CutShort(residue, cfg, uplink)
      ensures ok ==> forall v6 :: Applied(v6) <==> FullTunnel(cfg, v6)
      ensures ok ==> forall i :: 0 <= i < |cfg.addresses| ==> cfg.addresses[i].Some? && Bound(cfg.addresses[i].value)
      ensures host.QuietFrom(old(host.clock)) ==> (ok <==> Fits(old(host.kernel), cfg, iface, uplink))
    {
      ghost var k0 := host.kernel;
      NothingAdded(k0, uplink);
      assert residue.rules4 == InstalledRules(table, 0) && residue.rules6 == InstalledRules(table, 0);
      ok := Issue(LinkSetUp(iface));
      if !ok {
        return;
      }
      ok := AddAddresses(cfg);
      if !ok {
        return;
      }
      ghost var k1 := host.kernel;
      ok := Pin(cfg);
      ghost var pinned, k2 := residue, host.kernel;
      SameBeyondResidue(k1, k0, iface, pinned, uplink);
      if !ok {
        return;
      }
      ok := AddDefaults(cfg);
      SameBeyondResidue(k2, WithResidue(k0, pinned, uplink), iface, residue.(endpoint := None), uplink);
      ResidueParts(k0, residue, uplink);
      ResidueParts(WithResidue(k0, pinned, uplink), residue.(endpoint := None), uplink);
      NothingAdded(WithResidue(k0, pinned, uplink), uplink);
    }

    method DropRule(v6: bool, r: Rule) returns (ok: bool)
      requires host.Latched()
      modifies host
      ensures host.Latched() && host.engine == old(host.engine) && host.exposed == old(host.exposed)
      ensures host.clock == old(host.clock) + 1
      ensures host.kernel == WithRules(old(host.kernel), v6, Rules(host.kernel, v6))
      ensures ok <==> !host.fails(old(host.clock)) && r in Rules(old(host.kernel), v6)
      ensures ok || !host.fails(old(host.clock)) ==>
        Rules(host.kernel, v6) == RemoveFirst(Rules(old(host.kernel), v6), r)
    {
      if r !in Rules(host.kernel, v6) {
        RemoveAbsent(Rules(host.kernel, v6), r);
      }
      ok := Issue(RuleDel(v6, r));
    }

    method DelDefault(v6: bool) returns (ok: bool)
      requires host.Latched()
      modifies host
      ensures host.Latched() && host.engine == old(host.engine) && host.exposed == old(host.exposed)
      ensures host.clock == old(host.clock) + 2
      ensures host.kernel == WithRules(old(host.kernel), v6, Rules(host.kernel, v6))
      ensures ok || host.QuietFrom(old(host.clock)) ==>
        Rules(host.kernel, v6) ==
          RemoveFirst(RemoveFirst(Rules(old(host.kernel), v6), NotFwmark(table)), SuppressDefault)
      ensures host.QuietFrom(old(host.clock)) ==> (ok <==> RulesThere(Rules(old(host.kernel), v6), table))
    {
      RemoveKeeps(Rules(host.kernel, v6), NotFwmark(table), SuppressDefault);
      var first := DropRule(v6, NotFwmark(table));
      var second := DropRule(v6, SuppressDefault);
      ok := first && second;
    }

    /** The pinned route, if there is one, is on the uplink. */
    predicate PinThere()
      reads this, host
      requires appliedEndpoint.Some? ==> appliedEndpoint.value.Literal?
    {
      appliedEndpoint.Some? ==>
        uplink in host.kernel.links && HostRoute(appliedEndpoint.value) in host.kernel.links[uplink].routes
    }

    method DelEndpointRoute() returns (ok: bool)
      requires host.Latched() && (appliedEndpoint.Some? ==> appliedEndpoint.value.Literal?)
      modifies host, this`appliedEndpoint
      ensures host.Latched() && host.engine == old(host.engine) && host.exposed == old(host.exposed)
      ensures old(host.clock) <= host.clock && (old(appliedEndpoint).None? ==> ok && host.clock == old(host.clock))
      ensures appliedEndpoint == None
      ensures host.kernel == old(host.kernel) || (old(appliedEndpoint).Some? &&
        host.kernel == DropRoute(old(host.kernel), uplink, HostRoute(old(appliedEndpoint).value)))
      ensures (ok || host.QuietFrom(old(host.clock))) && old(appliedEndpoint).Some? ==>
        host.kernel == DropRoute(old(host.kernel), uplink, HostRoute(old(appliedEndpoint).value))
      ensures host.QuietFrom(old(host.clock)) ==> (ok <==> old(PinThere()))
    {
      if appliedEndpoint.None? {
        return true;
      }
      ghost var k := host.kernel;
      ok := Issue(RouteDel(uplink, HostRoute(appliedEndpoint.value)));
      if uplink in k.links && HostRoute(appliedEndpoint.value) !in k.links[uplink].routes {
        assert k.links[uplink].routes - {HostRoute(appliedEndpoint.value)} == k.links[uplink].routes;
        assert DropRoute(k, uplink, HostRoute(appliedEndpoint.value)).links == k.links;
      }
      appliedEndpoint := None;
    }

    /** Every applied family's rules, in any order of the families. */
    method DropFamilies() returns (ok: bool)
      requires host.Latched()
      modifies host
      ensures host.Latched() && host.engine == old(host.engine) && host.exposed == old(host.exposed)
      ensures old(host.clock) <= host.clock
      ensures host.kernel == old(host.kernel).(rules4 := host.kernel.rules4, rules6 := host.kernel.rules6)
      ensures host.QuietFrom(old(host.clock)) ==>
        (ok <==> forall v6 :: Applied(v6) ==> RulesThere(Rules(old(host.kernel), v6), table))
      ensures ok || host.QuietFrom(old(host.clock)) ==>
        && host.kernel.rules4 == Dropped(old(host.kernel).rules4, table, Applied(false))
        && host.kernel.rules6 == Dropped(old(host.kernel).rules6, table, Applied(true))
    {
      var first: bool := *;
      ok := true;
      for i := 0 to 2
        invariant host.Latched() && host.engine == old(host.engine) && host.exposed == old(host.exposed)
        invariant old(host.clock) <= host.clock
        invariant host.kernel == old(host.kernel).(rules4 := host.kernel.rules4, rules6 := host.kernel.rules6)
        invariant host.QuietFrom(old(host.clock)) ==>
          (ok <==> forall v6 :: i == 2 || (i == 1 && v6 == first) ==>
             (Applied(v6) ==> RulesThere(Rules(old(host.kernel), v6), table)))
        invariant ok || host.QuietFrom(old(host.clock)) ==> forall v6 ::
          Rules(host.kernel, v6) ==
            if i == 0 || (i == 1 && v6 != first) then Rules(old(host.kernel), v6)
            else Dropped(Rules(old(host.kernel), v6), table, Applied(v6))
      {
        var v6 := if i == 0 then first else !first;
        if Applied(v6) {
          var dropped := DelDefault(v6);
          ok := ok && dropped;
        }
      }
      assert ok || host.QuietFrom(old(host.clock)) ==>
        Rules(host.kernel, false) == Dropped(old(host.kernel).rules4, table, Applied(false))
        && Rules(host.kernel, true) == Dropped(old(host.kernel).rules6, table, Applied(true));
    }

    /**
     * Every applied family's rules and the pinned route. When it reports success, or no command is
     * made to fail, exactly those are gone; in the latter case it succeeds exactly if all were there.
     */
    method Down() returns (ok: bool)
      requires host.Latched() && (appliedEndpoint.Some? ==> appliedEndpoint.value.Literal?)
      modifies host, this`appliedEndpoint
      ensures host.Latched() && host.engine == old(host.engine) && host.exposed == old(host.exposed)
      ensures old(host.clock) <= host.clock && appliedEndpoint == None
      ensures host.kernel == old(host.kernel).(
        rules4 := host.kernel.rules4, rules6 := host.kernel.rules6, links := host.kernel.links)
      ensures host.kernel.links.Keys == old(host.kernel).links.Keys
      ensures host.QuietFrom(old(host.clock)) ==>
        (ok <==> old(PinThere()) && forall v6 :: Applied(v6) ==> RulesThere(Rules(old(host.kernel), v6), table))
      ensures ok || host.QuietFrom(old(host.clock)) ==>
        && host.kernel.rules4 == Dropped(old(host.kernel).rules4, table, Applied(false))
        && host.kernel.rules6 == Dropped(old(host.kernel).rules6, table, Applied(true))
        && host.kernel.links == if old(appliedEndpoint).Some?
             then DropRoute(old(host.kernel), uplink, HostRoute(old(appliedEndpoint).value)).links
             else old(host.kernel).links
    {
      ok := DropFamilies();
      var unpinned := DelEndpointRoute();
      ok := ok && unpinned;
    }
  }

  /** Both rules of a mark are in the list. */
  predicate RulesThere(rules: seq<Rule>, mark: nat) {
    NotFwmark(mark) in rules && SuppressDefault in rules
  }

  lemma {:induction false} RemoveKeeps(rules: seq<Rule>, r: Rule, q: Rule)
    requires r != q
    ensures q in RemoveFirst(rules, r) <==> q in rules
  {
    if rules != [] && rules[0] != r {
      RemoveKeeps(rules[1..], r, q);
      assert rules == [rules[0]] + rules[1..];
    }
  }

  /** Dropping the first copies takes away what was put in front, even if older copies lie behind. */
  lemma DropUndoesInstall(mark: nat, rest: seq<Rule>)
    ensures Dropped(InstalledRules(mark, 2) + rest, mark, true) == rest
  {
    var rules := InstalledRules(mark, 2) + rest;
    assert rules[1..] == [NotFwmark(mark)] + rest && rules[1..][1..] == rest;
    assert RemoveFirst(rules, NotFwmark(mark)) == [SuppressDefault] + rest;
    assert ([SuppressDefault] + rest)[1..] == rest;
  }
}
