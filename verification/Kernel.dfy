/**
 * The part of the host that the connection layers change, as a value, the commands that change it,
 * and a runner that issues them one at a time and may fail at any call.
 */
module Kernel {
  import opened Wrappers

  /** Protocols of the connection stack, with the interface name each one asks for. */
  datatype Protocol = AmneziaWG | WireGuard | OpenVPN | L2TP

  function InterfaceName(p: Protocol): string {
    match p
    case AmneziaWG => "vpnaw0"
    case WireGuard => "vpnwg0"
    case OpenVPN => "vpnovpn0"
    case L2TP => ""
  }

  /** An address prefix of either family. */
  datatype Prefix = Prefix(v6: bool, addr: nat, bits: nat)

  /** The routing tables that every kernel has. */
  const DEFAULT_TABLE: nat := 253
  const MAIN: nat := 254
  const LOCAL: nat := 255

  /** `not fwmark m table m`, `table main suppress_prefixlength 0`, and every rule of someone else. */
  datatype Rule = NotFwmark(mark: nat) | SuppressDefault | Foreign(id: nat)

  /** A route as its interface holds it: destination and routing table. */
  datatype Route = Route(dst: Prefix, table: nat)

  /** What is bound to one interface and disappears with it. */
  datatype Link = Link(addresses: set<Prefix>, routes: set<Route>, dns: seq<string>)

  datatype Ruleset = Ipv6Guard(iface: string) | FailClosed | Connmark(mark: nat)

  /**
   * Rules are listed in the order the kernel consults them after the local table; nft tables hold
   * the rulesets loaded into them; resolvconf keeps its records apart from the interfaces.
   */
  datatype State = State(
    tables: map<string, seq<Ruleset>>,
    rules4: seq<Rule>,
    rules6: seq<Rule>,
    links: map<string, Link>,
    resolvconf: map<string, seq<string>>,
    srcValidMark: bool)

  datatype Command =
    | LinkSetUp(dev: string) | LinkShow(dev: string) | LinkDel(dev: string)
    | AddressAdd(dev: string, prefix: Prefix)
    | RuleAdd(v6: bool, rule: Rule) | RuleDel(v6: bool, rule: Rule)
    | RouteAdd(dev: string, route: Route) | RouteDel(dev: string, route: Route) | RouteFlush(table: nat)
    | SetSrcValidMark
    | NftDelete(name: string) | NftLoad(name: string, ruleset: Ruleset)
    | ResolvectlDns(dev: string, servers: seq<string>) | ResolvectlRevert(dev: string)
    | ResolvconfAdd(dev: string, servers: seq<string>) | ResolvconfDel(dev: string)
    | WriteTempFile

  function Rules(k: State, v6: bool): seq<Rule> {
    if v6 then k.rules6 else k.rules4
  }

  function WithRules(k: State, v6: bool, rules: seq<Rule>): State {
    if v6 then k.(rules6 := rules) else k.(rules4 := rules)
  }

  /** The list without its first occurrence of `r`. */
  function RemoveFirst(rules: seq<Rule>, r: Rule): seq<Rule> {
    if rules == [] then []
    else if rules[0] == r then rules[1..]
    else [rules[0]] + RemoveFirst(rules[1..], r)
  }

  lemma RemoveAbsent(rules: seq<Rule>, r: Rule)
    requires r !in rules
    ensures RemoveFirst(rules, r) == rules
  {
  }

  /** The kernel after an interface has gone, with everything that was bound to it. */
  function WithoutLink(k: State, dev: string): State {
    k.(links := k.links - {dev})
  }

  function WithLink(k: State, dev: string, l: Link): State {
    k.(links := k.links[dev := l])
  }

  /** Some interface carries a route to that destination in that table. */
  predicate HasRoute(k: State, r: Route) {
    exists dev :: dev in k.links && r in k.links[dev].routes
  }

  type Links = map<string, Link>

  function PlusRoute(links: Links, dev: string, r: Route): Links {
    if dev in links then links[dev := links[dev].(routes := links[dev].routes + {r})] else links
  }

  function MinusRoute(links: Links, dev: string, r: Route): Links {
    if dev in links then links[dev := links[dev].(routes := links[dev].routes - {r})] else links
  }

  function AddRoute(k: State, dev: string, r: Route): State {
    k.(links := PlusRoute(k.links, dev, r))
  }

  function DropRoute(k: State, dev: string, r: Route): State {
    k.(links := MinusRoute(k.links, dev, r))
  }

  /** `ip route flush table` without a family flushes IPv4 only. */
  function FlushTable(l: Link, t: nat): Link {
    l.(routes := set r | r in l.routes && (r.table != t || r.dst.v6))
  }

  /** What a command does to the kernel; None when the kernel refuses it. */
  function Exec(k: State, c: Command): Option<State> {
    match c
    case LinkSetUp(dev) => if dev in k.links then Some(k) else None
    case LinkShow(dev) => if dev in k.links then Some(k) else None
    case LinkDel(dev) => if dev in k.links then Some(WithoutLink(k, dev)) else None
    case AddressAdd(dev, p) =>
      if dev in k.links && p !in k.links[dev].addresses
      then Some(WithLink(k, dev, k.links[dev].(addresses := k.links[dev].addresses + {p}))) else None
    case RuleAdd(v6, r) => Some(WithRules(k, v6, [r] + Rules(k, v6)))
    case RuleDel(v6, r) =>
      if r in Rules(k, v6) then Some(WithRules(k, v6, RemoveFirst(Rules(k, v6), r))) else None
    case RouteAdd(dev, r) => if dev in k.links && !HasRoute(k, r) then Some(AddRoute(k, dev, r)) else None
    case RouteDel(dev, r) =>
      if dev in k.links && r in k.links[dev].routes then Some(DropRoute(k, dev, r)) else None
    case RouteFlush(t) => Some(k.(links := map dev | dev in k.links :: FlushTable(k.links[dev], t)))
    case SetSrcValidMark => Some(k.(srcValidMark := true))
    case NftDelete(t) => if t in k.tables then Some(k.(tables := k.tables - {t})) else None
    case NftLoad(t, rs) =>
      Some(k.(tables := k.tables[t := if t in k.tables then k.tables[t] + [rs] else [rs]]))
    case ResolvectlDns(dev, servers) =>
      if dev in k.links then Some(WithLink(k, dev, k.links[dev].(dns := servers))) else None
    case ResolvectlRevert(dev) =>
      if dev in k.links then Some(WithLink(k, dev, k.links[dev].(dns := []))) else None
    case ResolvconfAdd(dev, servers) => Some(k.(resolvconf := k.resolvconf[dev := servers]))
    case ResolvconfDel(dev) =>
      if dev in k.resolvconf then Some(k.(resolvconf := k.resolvconf - {dev})) else None
    case WriteTempFile => Some(k)
  }

  /** A running engine: the interface the kernel gave it and the mark on its socket. */
  datatype Engine = Engine(iface: string, mark: nat)

  const IPV6_GUARD_TABLE := "mazzy_vpn_ipv6_guard"
  const TRANSITION_GUARD_TABLE := "mazzy_vpn_transition_guard"
  const CONNMARK_TABLE := "mazzy_vpn_connmark"

  /** An engine runs while the IPv6 guard table is not installed. */
  predicate Exposed(k: State, engine: Option<Engine>) {
    engine.Some? && IPV6_GUARD_TABLE !in k.tables
  }

  /**
   * The host and the runner. Call number n of the environment fails when `fails(n)`, and a failed
   * call changes nothing. `exposed` records whether any moment so far, after any single call or
   * change of the engine, was exposed.
   */
  class Host {
    const fails: nat -> bool
    var kernel: State
    var engine: Option<Engine>
    var clock: nat
    ghost var exposed: bool

    constructor (kernel: State, fails: nat -> bool)
      ensures this.kernel == kernel && this.fails == fails && engine == None && clock == 0 && !exposed
    {
      this.kernel, this.fails, engine, clock, exposed := kernel, fails, None, 0, false;
    }

    /** No call from number n on is made to fail from outside. */
    ghost predicate QuietFrom(n: nat) {
      forall i :: i >= n ==> !fails(i)
    }

    /** The record is up to date. */
    ghost predicate Latched()
      reads this
    {
      Exposed(kernel, engine) ==> exposed
    }

    method Run(c: Command) returns (ok: bool)
      modifies this
      ensures clock == old(clock) + 1 && engine == old(engine)
      ensures ok == (!fails(old(clock)) && Exec(old(kernel), c).Some?)
      ensures kernel == if ok then Exec(old(kernel), c).value else old(kernel)
      ensures exposed == (old(exposed) || Exposed(kernel, engine))
    {
      var after := Exec(kernel, c);
      ok := !fails(clock) && after.Some?;
      if ok {
        kernel := after.value;
      }
      clock := clock + 1;
      exposed := exposed || Exposed(kernel, engine);
    }

    /**
     * The engine's start: it fails, or the kernel creates an interface that did not exist.
     * `granted` is the name the kernel chose, whatever was asked for.
     */
    method StartEngine(granted: string, mark: nat) returns (ok: bool)
      modifies this
      ensures clock == old(clock) + 1
      ensures ok == (!fails(old(clock)) && granted !in old(kernel).links)
      ensures kernel == if ok then WithLink(old(kernel), granted, Link({}, {}, [])) else old(kernel)
      ensures engine == if ok then Some(Engine(granted, mark)) else old(engine)
      ensures exposed == (old(exposed) || Exposed(kernel, engine))
    {
      ok := !fails(clock) && granted !in kernel.links;
      if ok {
        kernel := WithLink(kernel, granted, Link({}, {}, []));
        engine := Some(Engine(granted, mark));
      }
      clock := clock + 1;
      exposed := exposed || Exposed(kernel, engine);
    }

    /** Closing the device cannot fail and takes its interface with it. */
    method StopEngine(iface: string)
      modifies this
      ensures clock == old(clock) && engine == None && kernel == WithoutLink(old(kernel), iface)
      ensures exposed == (old(exposed) || Exposed(kernel, engine))
    {
      kernel := WithoutLink(kernel, iface);
      engine := None;
      exposed := exposed || Exposed(kernel, engine);
    }
  }
}
