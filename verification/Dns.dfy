/** VPN DNS for one interface, through resolvectl when it is there and resolvconf otherwise. */
module Dns {
  import opened Wrappers
  import opened Kernel

  datatype Backend = Resolvectl | Resolvconf

  /** The servers of a list in which every text is an address. */
  function Values(servers: seq<Option<string>>): (v: seq<string>)
    requires forall s :: s in servers ==> s.Some?
    ensures |v| == |servers| && forall i :: 0 <= i < |v| ==> v[i] == servers[i].value
  {
    if servers == [] then [] else [servers[0].value] + Values(servers[1..])
  }

  /** The servers are addresses and there is a backend that can set them, or there is nothing to set. */
  predicate Settable(k: State, iface: string, servers: seq<Option<string>>, available: Option<Backend>) {
    servers == [] ||
    ((forall s :: s in servers ==> s.Some?) && available.Some? && (available == Some(Resolvectl) ==> iface in k.links))
  }

  /** The servers are set for the interface. */
  ghost predicate Served(k: State, iface: string, servers: seq<Option<string>>, b: Backend) {
    && (forall s :: s in servers ==> s.Some?)
    && match b
       case Resolvectl => iface in k.links && k.links[iface].dns == Values(servers)
       case Resolvconf => iface in k.resolvconf && k.resolvconf[iface] == Values(servers)
  }

  class Manager {
    const host: Host
    const iface: string
    var applied: bool
    var backend: Option<Backend>

    constructor (host: Host, iface: string)
      ensures this.host == host && this.iface == iface && !applied && backend == None
    {
      this.host, this.iface, applied, backend := host, iface, false, None;
    }

    /** What a successful Up does to the kernel; only resolvconf records outlive the interface. */
    ghost function Configured(k: State, servers: seq<Option<string>>): State
      requires forall s :: s in servers ==> s.Some?
      reads this
    {
      if !applied then k
      else if backend == Some(Resolvconf) then k.(resolvconf := k.resolvconf[iface := Values(servers)])
      else if iface in k.links then WithLink(k, iface, k.links[iface].(dns := Values(servers)))
      else k
    }

    /** `available` is the first backend found on the host; no servers is no work. */
    method Up(servers: seq<Option<string>>, available: Option<Backend>) returns (ok: bool)
      requires host.Latched() && !applied
      modifies host, this
      ensures host.Latched()
      ensures host.engine == old(host.engine) && host.exposed == old(host.exposed)
      ensures old(host.clock) <= host.clock
      ensures ok ==> applied == (servers != []) && (applied ==> backend == available && available.Some?)
      ensures ok ==> forall s :: s in servers ==> s.Some?
      ensures ok ==> host.kernel == Configured(old(host.kernel), servers)
      ensures ok && applied && backend == Some(Resolvectl) ==> iface in old(host.kernel).links
      ensures !ok ==> !applied && host.kernel == old(host.kernel)
      ensures host.QuietFrom(old(host.clock)) ==> (ok <==> Settable(old(host.kernel), iface, servers, available))
    {
      if servers == [] {
        return true;
      }
      for i := 0 to |servers|
        invariant forall j :: 0 <= j < i ==> servers[j].Some?
      {
        if servers[i].None? {
          assert servers[i] in servers;
          return false;
        }
      }
      match available
      case None => return false;
      case Some(b) =>
        backend := available;
        var values := Values(servers);
        ok := host.Run(if b == Resolvectl then ResolvectlDns(iface, values) else ResolvconfAdd(iface, values));
        applied := ok;
    }

    /** What undoes the servers of a backend. */
    static function Reverted(k: State, iface: string, b: Backend): State {
      match b
      case Resolvectl => if iface in k.links then WithLink(k, iface, k.links[iface].(dns := [])) else k
      case Resolvconf => k.(resolvconf := k.resolvconf - {iface})
    }

    /** There is something for the backend to undo. */
    static predicate Revertible(k: State, iface: string, b: Backend) {
      match b
      case Resolvectl => iface in k.links
      case Resolvconf => iface in k.resolvconf
    }

    /** `applied` stays set: the owner calls Down once. */
    method Down() returns (ok: bool)
      requires host.Latched() && (applied ==> backend.Some?)
      modifies host
      ensures host.Latched()
      ensures host.engine == old(host.engine) && host.exposed == old(host.exposed)
      ensures old(host.clock) <= host.clock
      ensures !applied ==> ok && host.clock == old(host.clock) && host.kernel == old(host.kernel)
      ensures applied && (ok || host.QuietFrom(old(host.clock))) ==>
        host.kernel == Reverted(old(host.kernel), iface, backend.value)
      ensures applied && host.QuietFrom(old(host.clock)) ==>
        (ok <==> Revertible(old(host.kernel), iface, backend.value))
      ensures host.kernel.tables == old(host.kernel).tables
    {
      if !applied {
        return true;
      }
      match backend.value
      case Resolvectl => ok := host.Run(ResolvectlRevert(iface));
      case Resolvconf =>
        ghost var records := host.kernel.resolvconf;
        assert iface !in records ==> records - {iface} == records;
        ok := host.Run(ResolvconfDel(iface));
    }
  }
}
