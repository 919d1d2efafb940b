/**
 * The bounded probe pool as a transition system: the launching loop, one worker a target, a
 * semaphore of four slots and a buffered channel of finished workers, interleaved in every way.
 */
module WorkerPool {
  import opened Wrappers

  const SLOTS: nat := 4

  /** Waiting to be launched; running the probe; result stored; slot given back; reported as done. */
  datatype Phase = Waiting | Probing | Stored | Released | Reported

  datatype State<R> = State(
    slots: nat, holding: bool, launched: nat, workers: seq<Phase>, results: seq<Option<R>>, done: seq<nat>, joined: nat)

  /** The launching loop takes a slot, then starts a worker; a worker's three steps; the join loop. */
  datatype Label = Acquire | Launch | Probe(i: nat) | Release(i: nat) | Report(i: nat) | Join

  function Init<R>(n: nat): State<R> {
    State(0, false, 0, seq(n, _ => Waiting), seq(n, _ => None), [], 0)
  }

  predicate Worker<R>(s: State<R>, i: nat, p: Phase) {
    i < |s.workers| && s.workers[i] == p
  }

  /** A blocked or impossible step is None. `probe(i)` is what probing target i gives. */
  function Next<R>(s: State<R>, l: Label, probe: nat -> R): Option<State<R>> {
    match l
    case Acquire =>
      if !s.holding && s.launched < |s.workers| && s.slots < SLOTS
      then Some(s.(slots := s.slots + 1, holding := true)) else None
    case Launch =>
      if s.holding && s.launched < |s.workers|
      then Some(s.(holding := false, launched := s.launched + 1, workers := s.workers[s.launched := Probing])) else None
    case Probe(i) =>
      if Worker(s, i, Probing) && i < |s.results|
      then Some(s.(workers := s.workers[i := Stored], results := s.results[i := Some(probe(i))])) else None
    case Release(i) =>
      if Worker(s, i, Stored) && s.slots > 0
      then Some(s.(workers := s.workers[i := Released], slots := s.slots - 1)) else None
    case Report(i) =>
      if Worker(s, i, Released) && |s.done| < |s.workers|
      then Some(s.(workers := s.workers[i := Reported], done := s.done + [i])) else None
    case Join =>
      if s.launched == |s.workers| && !s.holding && s.joined < |s.workers| && s.done != []
      then Some(s.(done := s.done[1..], joined := s.joined + 1)) else None
  }

  predicate Finished<R>(s: State<R>) {
    s.joined == |s.workers|
  }

  // ---- Counting workers ----

  predicate Holds(p: Phase) {
    p.Probing? || p.Stored?
  }

  function Holding(ws: seq<Phase>): nat {
    if ws == [] then 0 else Holding(ws[..|ws| - 1]) + if Holds(ws[|ws| - 1]) then 1 else 0
  }

  function ReportedCount(ws: seq<Phase>): (c: nat)
    ensures c <= |ws|
  {
    if ws == [] then 0 else ReportedCount(ws[..|ws| - 1]) + if ws[|ws| - 1].Reported? then 1 else 0
  }

  function Left(p: Phase): nat {
    match p
    case Waiting => 4
    case Probing => 3
    case Stored => 2
    case Released => 1
    case Reported => 0
  }

  function LeftOver(ws: seq<Phase>): nat {
    if ws == [] then 0 else LeftOver(ws[..|ws| - 1]) + Left(ws[|ws| - 1])
  }

  lemma {:induction false} OneWorkerMoves(ws: seq<Phase>, i: nat, p: Phase)
    requires i < |ws|
    ensures Holding(ws[i := p]) == Holding(ws) - (if Holds(ws[i]) then 1 else 0) + (if Holds(p) then 1 else 0)
    ensures ReportedCount(ws[i := p]) ==
      ReportedCount(ws) - (if ws[i].Reported? then 1 else 0) + (if p.Reported? then 1 else 0)
    ensures LeftOver(ws[i := p]) == LeftOver(ws) - Left(ws[i]) + Left(p)
  {
    var front := ws[..|ws| - 1];
    if i < |ws| - 1 {
      OneWorkerMoves(front, i, p);
      assert ws[i := p][..|ws| - 1] == front[i := p];
    } else {
      assert ws[i := p][..|ws| - 1] == front;
    }
  }

  // ---- What every state keeps ----

  /** Every taken slot is held by the launching loop or by a worker that has not given it back. */
  ghost predicate Inv<R>(s: State<R>, probe: nat -> R) {
    && s.slots == Holding(s.workers) + (if s.holding then 1 else 0) && s.slots <= SLOTS
    && s.launched <= |s.workers| && |s.results| == |s.workers| && (s.holding ==> s.launched < |s.workers|)
    && (forall i :: 0 <= i < |s.workers| ==> (s.workers[i].Waiting? <==> i >= s.launched))
    && s.joined + |s.done| == ReportedCount(s.workers)
    && (s.joined > 0 ==> s.launched == |s.workers|)
    && forall i :: 0 <= i < |s.workers| ==>
         s.results[i] == if Left(s.workers[i]) <= 2 then Some(probe(i)) else None
  }

  lemma {:induction false} WaitingCounts(n: nat)
    ensures Holding(seq(n, _ => Waiting)) == 0 && ReportedCount(seq(n, _ => Waiting)) == 0
    ensures LeftOver(seq(n, _ => Waiting)) == 4 * n
  {
    if n > 0 {
      WaitingCounts(n - 1);
      assert seq(n, _ => Waiting)[..n - 1] == seq(n - 1, _ => Waiting);
    }
  }

  lemma InitInv<R>(n: nat, probe: nat -> R)
    ensures Inv(Init(n), probe)
  {
    WaitingCounts(n);
  }

  lemma LaunchKeeps<R>(s: State<R>, probe: nat -> R)
    requires Inv(s, probe) && Next(s, Launch, probe).Some?
    ensures Inv(Next(s, Launch, probe).value, probe)
  {
    OneWorkerMoves(s.workers, s.launched, Probing);
  }

  lemma ProbeKeeps<R>(s: State<R>, i: nat, probe: nat -> R)
    requires Inv(s, probe) && Next(s, Probe(i), probe).Some?
    ensures Inv(Next(s, Probe(i), probe).value, probe)
  {
    OneWorkerMoves(s.workers, i, Stored);
  }

  lemma ReleaseKeeps<R>(s: State<R>, i: nat, probe: nat -> R)
    requires Inv(s, probe) && Next(s, Release(i), probe).Some?
    ensures Inv(Next(s, Release(i), probe).value, probe)
  {
    OneWorkerMoves(s.workers, i, Released);
  }

  lemma ReportKeeps<R>(s: State<R>, i: nat, probe: nat -> R)
    requires Inv(s, probe) && Next(s, Report(i), probe).Some?
    ensures Inv(Next(s, Report(i), probe).value, probe)
  {
    OneWorkerMoves(s.workers, i, Reported);
  }

  lemma StepKeepsInv<R>(s: State<R>, l: Label, probe: nat -> R)
    requires Inv(s, probe) && Next(s, l, probe).Some?
    ensures Inv(Next(s, l, probe).value, probe)
  {
    match l
    case Acquire =>
    case Launch => LaunchKeeps(s, probe);
    case Probe(i) => ProbeKeeps(s, i, probe);
    case Release(i) => ReleaseKeeps(s, i, probe);
    case Report(i) => ReportKeeps(s, i, probe);
    case Join =>
  }

  /** Never more than four probes are in flight. */
  lemma AtMostFourInFlight<R>(s: State<R>, probe: nat -> R)
    requires Inv(s, probe)
    ensures Probes(s.workers) <= 4
  {
    ProbingHolds(s.workers);
  }

  /** The launching loop gets a slot exactly while fewer than four workers have one. */
  lemma SlotsExactly<R>(n: nat, ls: seq<Label>, probe: nat -> R)
    requires Run(Init(n), ls, probe).Some?
    ensures var s := Run(Init(n), ls, probe).value;
      !s.holding && s.launched < |s.workers| ==> (Next(s, Acquire, probe).Some? <==> Holding(s.workers) < 4)
  {
    EveryRun(n, ls, probe);
  }

  function Probes(ws: seq<Phase>): nat {
    if ws == [] then 0 else Probes(ws[..|ws| - 1]) + if ws[|ws| - 1].Probing? then 1 else 0
  }

  lemma {:induction false} ProbingHolds(ws: seq<Phase>)
    ensures Probes(ws) <= Holding(ws)
  {
    if ws != [] {
      ProbingHolds(ws[..|ws| - 1]);
    }
  }

  // ---- No deadlock, and an end ----

  lemma {:induction false} SomeoneMoves(ws: seq<Phase>) returns (i: nat)
    requires Holding(ws) > 0 || exists j :: 0 <= j < |ws| && ws[j].Released?
    ensures i < |ws| && (Holds(ws[i]) || ws[i].Released?)
  {
    var last := ws[|ws| - 1];
    if Holds(last) || last.Released? {
      i := |ws| - 1;
    } else {
      i := SomeoneMoves(ws[..|ws| - 1]);
    }
  }

  lemma {:induction false} AllReported(ws: seq<Phase>)
    ensures (forall i :: 0 <= i < |ws| ==> ws[i].Reported?) <==> ReportedCount(ws) == |ws|
    ensures (exists i :: 0 <= i < |ws| && !ws[i].Reported?) ==> ReportedCount(ws) < |ws|
  {
    if ws != [] {
      AllReported(ws[..|ws| - 1]);
    }
  }

  /** In every reachable state that has not joined all workers, some step is possible. */
  lemma NeverStuck<R>(s: State<R>, probe: nat -> R) returns (l: Label)
    requires Inv(s, probe) && !Finished(s)
    ensures Next(s, l, probe).Some?
  {
    if i :| 0 <= i < |s.workers| && (Holds(s.workers[i]) || s.workers[i].Released?) {
      AllReported(s.workers);
      l := if s.workers[i].Probing? then Probe(i) else if s.workers[i].Stored? then Release(i) else Report(i);
      if s.workers[i].Stored? {
        HeldCounts(s.workers, i);
      }
    } else if s.holding {
      l := Launch;
    } else if s.launched < |s.workers| {
      NoneHeld(s.workers);
      l := Acquire;
    } else {
      AllReported(s.workers);
      l := Join;
    }
  }

  lemma {:induction false} HeldCounts(ws: seq<Phase>, i: nat)
    requires i < |ws| && Holds(ws[i])
    ensures Holding(ws) > 0
  {
    if i < |ws| - 1 {
      HeldCounts(ws[..|ws| - 1], i);
    }
  }

  lemma {:induction false} NoneHeld(ws: seq<Phase>)
    requires forall i :: 0 <= i < |ws| ==> !Holds(ws[i])
    ensures Holding(ws) == 0
  {
    if ws != [] {
      NoneHeld(ws[..|ws| - 1]);
    }
  }

  /** How many steps are left. */
  function Remaining<R>(s: State<R>): int {
    LeftOver(s.workers) + 2 * (|s.workers| - s.launched) - (if s.holding then 1 else 0) + (|s.workers| - s.joined)
  }

  lemma MoveRunsOut<R>(s: State<R>, t: State<R>, i: nat, p: Phase)
    requires i < |s.workers| && t.workers == s.workers[i := p]
    ensures Remaining(t) == Remaining(s) - Left(s.workers[i]) + Left(p) - 2 * (t.launched - s.launched)
      + (if s.holding then 1 else 0) - (if t.holding then 1 else 0) + s.joined - t.joined
  {
    OneWorkerMoves(s.workers, i, p);
  }

  lemma StepsRunOut<R>(s: State<R>, l: Label, probe: nat -> R)
    requires Next(s, l, probe).Some? && (s.holding ==> s.launched < |s.workers|)
    requires s.launched < |s.workers| ==> s.workers[s.launched].Waiting?
    ensures Remaining(Next(s, l, probe).value) < Remaining(s)
  {
    var t := Next(s, l, probe).value;
    match l
    case Acquire =>
    case Launch => MoveRunsOut(s, t, s.launched, Probing);
    case Probe(i) => MoveRunsOut(s, t, i, Stored);
    case Release(i) => MoveRunsOut(s, t, i, Released);
    case Report(i) => MoveRunsOut(s, t, i, Reported);
    case Join =>
  }

  lemma NeverNegative<R>(s: State<R>, probe: nat -> R)
    requires Inv(s, probe)
    ensures Remaining(s) >= 0
  {
  }

  /** The state after a list of steps, if all of them were possible. */
  function Run<R>(s: State<R>, ls: seq<Label>, probe: nat -> R): Option<State<R>> {
    if ls == [] then Some(s)
    else
      var front := Run(s, ls[..|ls| - 1], probe);
      if front.None? then None else Next(front.value, ls[|ls| - 1], probe)
  }

  lemma {:induction false} RunKeepsInv<R>(n: nat, ls: seq<Label>, probe: nat -> R)
    requires Run(Init(n), ls, probe).Some?
    ensures var s := Run(Init(n), ls, probe).value;
      Inv(s, probe) && |s.workers| == n && |ls| + Remaining(s) <= 7 * n
  {
    if ls == [] {
      InitInv(n, probe);
      WaitingCounts(n);
    } else {
      var front, last := ls[..|ls| - 1], ls[|ls| - 1];
      RunKeepsInv(n, front, probe);
      var before := Run(Init(n), front, probe).value;
      StepKeepsInv(before, last, probe);
      StepsRunOut(before, last, probe);
    }
  }

  lemma FinishedHasAll<R>(s: State<R>, probe: nat -> R)
    requires Inv(s, probe) && Finished(s)
    ensures forall i :: 0 <= i < |s.workers| ==> s.results[i] == Some(probe(i))
  {
    AllReported(s.workers);
    assert forall i :: 0 <= i < |s.workers| ==> s.workers[i].Reported?;
  }

  /**
   * Every interleaving: the invariant holds throughout, so at most four probes run at once; no run
   * is longer than seven steps a target; and a run that cannot go on has joined every worker, with
   * the probe of target i in results[i].
   */
  lemma EveryRun<R>(n: nat, ls: seq<Label>, probe: nat -> R)
    requires Run(Init(n), ls, probe).Some?
    ensures var s := Run(Init(n), ls, probe).value;
      && Inv(s, probe) && |s.workers| == n && Probes(s.workers) <= 4
      && |ls| + Remaining(s) <= 7 * n && Remaining(s) >= 0
      && ((forall l :: Next(s, l, probe).None?) ==> Finished(s))
      && (Finished(s) ==> forall i :: 0 <= i < n ==> s.results[i] == Some(probe(i)))
  {
    var s := Run(Init(n), ls, probe).value;
    RunKeepsInv(n, ls, probe);
    NeverNegative(s, probe);
    AtMostFourInFlight(s, probe);
    if Finished(s) {
      FinishedHasAll(s, probe);
    } else {
      var l := NeverStuck(s, probe);
    }
  }
}
