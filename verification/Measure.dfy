/** Probing endpoints and ranking them: the outcome of one probe, the order, and the best choice. */
module Measure {
  import opened Wrappers
  import Sorting
  import WorkerPool

  /** Latencies are in nanoseconds. */
  datatype Probed = Probed(
    name: string, endpoint: string, reachable: bool, icmpAlive: bool, err: string, latency: int)

  /** What the network answers to one probe. */
  datatype Network = Network(
    splitError: Option<string>, literal: bool, dnsError: Option<string>, dialError: Option<string>,
    writeError: Option<string>, elapsed: nat, pingRtt: Option<nat>)

  const SECOND: int := 1_000_000_000

  /** One probe: resolve, dial, write, and then prefer a ping's round-trip time. */
  function Probe(name: string, endpoint: string, timeout: nat, net: Network): Probed {
    var late := timeout + SECOND;
    if endpoint == "" then Probed(name, endpoint, false, false, "no endpoint", 0)
    else if net.splitError.Some? then
      Probed(name, endpoint, false, false, "bad endpoint: " + net.splitError.value, late)
    else if !net.literal && net.dnsError.Some? then
      Probed(name, endpoint, false, false, "dns: " + net.dnsError.value, late)
    else if net.dialError.Some? then Probed(name, endpoint, false, false, net.dialError.value, late)
    else if net.writeError.Some? then Probed(name, endpoint, false, false, net.writeError.value, late)
    else if net.pingRtt.Some? then Probed(name, endpoint, true, true, "", net.pingRtt.value)
    else Probed(name, endpoint, true, false, "", net.elapsed)
  }

  /** ICMP-alive first, then reachable, then by latency. */
  predicate Better(a: Probed, b: Probed) {
    if a.icmpAlive != b.icmpAlive then a.icmpAlive
    else if a.reachable != b.reachable then a.reachable
    else a.latency < b.latency
  }

  lemma BetterIsStrictWeak()
    ensures Sorting.StrictWeakOrder(Better)
  {
  }

  /** For any two places: who answers a ping is before who does not, then who is reachable, then the faster. */
  predicate Ranked(rs: seq<Probed>) {
    forall i, j :: 0 <= i < j < |rs| ==>
      && (rs[j].icmpAlive ==> rs[i].icmpAlive)
      && (rs[i].icmpAlive == rs[j].icmpAlive && rs[j].reachable ==> rs[i].reachable)
      && (rs[i].icmpAlive == rs[j].icmpAlive && rs[i].reachable == rs[j].reachable ==> rs[i].latency <= rs[j].latency)
  }

  lemma OrderedIsRanked(rs: seq<Probed>)
    ensures Sorting.Ordered(Better, rs) <==> Ranked(rs)
  {
    forall i, j | 0 <= i < j < |rs| ensures Better(rs[j], rs[i]) || !Better(rs[j], rs[i]) {}
  }

  predicate Usable(r: Probed) {
    r.icmpAlive || r.reachable
  }

  /** The first ICMP-alive result, or, where there is none, the first reachable one. */
  predicate FirstUsable(results: seq<Probed>, i: nat)
    requires i < |results|
  {
    if results[i].icmpAlive then forall j :: 0 <= j < i ==> !results[j].icmpAlive
    else
      && results[i].reachable && (forall j :: 0 <= j < i ==> !results[j].reachable)
      && forall j :: 0 <= j < |results| ==> !results[j].icmpAlive
  }

  method BestAlive(results: seq<Probed>) returns (best: Option<Probed>)
    ensures best.None? <==> forall r :: r in results ==> !Usable(r)
    ensures best.Some? ==> exists i :: 0 <= i < |results| && best.value == results[i] && FirstUsable(results, i)
  {
    for i := 0 to |results|
      invariant forall j :: 0 <= j < i ==> !results[j].icmpAlive
    {
      if results[i].icmpAlive {
        assert Usable(results[i]) && results[i] in results && FirstUsable(results, i);
        return Some(results[i]);
      }
    }
    for i := 0 to |results|
      invariant forall j :: 0 <= j < i ==> !results[j].reachable
    {
      if results[i].reachable {
        assert Usable(results[i]) && results[i] in results && FirstUsable(results, i);
        return Some(results[i]);
      }
    }
    best := None;
  }

  /** A probe never reports an ICMP answer from an unreachable endpoint, nor an error from a reachable one. */
  predicate Coherent(r: Probed) {
    (r.icmpAlive ==> r.reachable) && (r.reachable <==> r.err == "")
  }

  predicate Spoken(net: Network) {
    && net.dialError != Some("") && net.writeError != Some("")
  }

  /** What the network must answer for an endpoint to count as reachable, and what is reported then and otherwise. */
  lemma ProbeDecided(name: string, endpoint: string, timeout: nat, net: Network)
    ensures var r := Probe(name, endpoint, timeout, net);
      && r.name == name && r.endpoint == endpoint
      && (r.reachable <==>
            && endpoint != "" && net.splitError.None? && (net.literal || net.dnsError.None?)
            && net.dialError.None? && net.writeError.None?)
      && (r.icmpAlive <==> r.reachable && net.pingRtt.Some?)
      && (r.reachable ==> r.latency == if net.pingRtt.Some? then net.pingRtt.value else net.elapsed)
      && (!r.reachable ==> r.latency == if endpoint == "" then 0 else timeout + 1_000_000_000)
  {
  }

  lemma ProbesAreCoherent(name: string, endpoint: string, timeout: nat, net: Network)
    requires Spoken(net)
    ensures Coherent(Probe(name, endpoint, timeout, net))
  {
  }

  /** In a ranking, whoever is usable is behind a usable first element, and ICMP answers come first. */
  lemma FirstIsBest(ranked: seq<Probed>)
    requires Sorting.Ordered(Better, ranked) && forall r :: r in ranked ==> (r.icmpAlive ==> r.reachable)
    ensures (exists r :: r in ranked && Usable(r)) ==> Usable(ranked[0])
    ensures (exists r :: r in ranked && r.icmpAlive) ==> ranked[0].icmpAlive
    ensures forall i, j :: 0 <= i < j < |ranked| && Usable(ranked[j]) ==> Usable(ranked[i])
  {
    forall i, j | 0 <= i < j < |ranked| && Usable(ranked[j]) ensures Usable(ranked[i]) {
      assert !Better(ranked[j], ranked[i]);
      assert ranked[j] in ranked;
    }
    if r :| r in ranked && r.icmpAlive {
      var j :| 0 <= j < |ranked| && ranked[j] == r;
      if j > 0 {
        assert !Better(ranked[j], ranked[0]);
      }
    }
  }

  /** On a ranking, the best choice is its first element, whenever anything is usable at all. */
  method BestOfRanking(ranked: seq<Probed>) returns (best: Option<Probed>)
    requires Sorting.Ordered(Better, ranked) && forall r :: r in ranked ==> (r.icmpAlive ==> r.reachable)
    ensures best == if exists r :: r in ranked && Usable(r) then Some(ranked[0]) else None
  {
    best := BestAlive(ranked);
    FirstIsBest(ranked);
    if best.Some? {
      var i :| 0 <= i < |ranked| && best.value == ranked[i] && FirstUsable(ranked, i);
      assert ranked[0] in ranked && ranked[i] in ranked;
    }
  }

  function Results(probes: nat -> Probed, n: nat): (rs: seq<Probed>)
    ensures |rs| == n && forall i :: 0 <= i < n ==> rs[i] == probes(i)
  {
    if n == 0 then [] else Results(probes, n - 1) + [probes(n - 1)]
  }

  /**
   * RankBest: whatever interleaving of the workers ran to its end, and whatever stable sort then
   * arranged the results, the ranking is the one of the probes in the order of the targets. It is a
   * rearrangement of the probes, and in order.
   */
  lemma RankingIsDetermined(n: nat, run: seq<WorkerPool.Label>, probes: nat -> Probed, ranked: seq<Probed>)
    requires WorkerPool.Run(WorkerPool.Init(n), run, probes).Some?
    requires WorkerPool.Finished(WorkerPool.Run(WorkerPool.Init(n), run, probes).value)
    requires Sorting.StablySorted(Better, Filled(WorkerPool.Run(WorkerPool.Init(n), run, probes).value.results), ranked)
    ensures ranked == Sorting.StableSort(Better, Results(probes, n))
    ensures multiset(ranked) == multiset(Results(probes, n)) && Ranked(ranked)
  {
    var results := WorkerPool.Run(WorkerPool.Init(n), run, probes).value.results;
    WorkerPool.EveryRun(n, run, probes);
    assert Filled(results) == Results(probes, n);
    BetterIsStrictWeak();
    Sorting.StableSortSorts(Better, Results(probes, n));
    Sorting.SortedIsUnique(Better, ranked, Sorting.StableSort(Better, Results(probes, n)));
    OrderedIsRanked(ranked);
  }

  /** The slots of the results slice; a slot that nobody has filled holds the zero value. */
  function Filled(slots: seq<Option<Probed>>): (rs: seq<Probed>)
    ensures |rs| == |slots| && forall i :: 0 <= i < |slots| && slots[i].Some? ==> rs[i] == slots[i].value
  {
    if slots == [] then []
    else
      var last := slots[|slots| - 1];
      Filled(slots[..|slots| - 1]) + [if last.Some? then last.value else Probed("", "", false, false, "", 0)]
  }
}
