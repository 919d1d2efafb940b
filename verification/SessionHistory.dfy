/**
 * What lies behind a published connection, over every run of the VPN service, and how a session ends:
 * connected when nothing fails, in ERROR without a tunnel when something does, and not at all when it
 * is cancelled in the queue.
 */
module SessionHistory {
  import opened HandleTable
  import opened VpnSession

  // ---- What a run has seen ----

  /** A start that was accepted, and what a step of the executor was answered and could read. */
  datatype Event =
    | Started(gen: nat)
    | Took(at: Executor, answer: Answer)
    | Read(at: Executor, generation: nat, interrupted: bool)

  function Events(s: Service, l: Label): set<Event> {
    match l
    case StartCommand => if s.main == Ready && s.state in {IDLE, ERROR} then {Started(s.generation + 1)} else {}
    case ExecutorStep(a) => {Took(s.executor, a), Read(s.executor, s.generation, s.interrupted)}
    case _ => {}
  }

  function History(s: Service, ls: seq<Label>): set<Event>
    decreases |ls|
  {
    if ls == [] then {} else Events(s, ls[0]) + History(Next(s, ls[0]), ls[1..])
  }

  /** The executor took a step at `e`, and it did not throw. */
  predicate NotFailed(e: Executor, seen: set<Event>) {
    Took(e, Succeed) in seen || Took(e, Retry) in seen
  }

  /** Session g was asked for, has loaded its profile, resolved the endpoint, and turned a tunnel on. */
  predicate Established(g: nat, seen: set<Event>) {
    && Started(g) in seen
    && NotFailed(Connecting(g, LoadProfile), seen)
    && Read(Connecting(g, FirstCheck), g, false) in seen
    && NotFailed(Connecting(g, Resolve), seen)
    && Read(Connecting(g, SecondCheck), g, false) in seen
    && NotFailed(Connecting(g, Establish), seen)
  }

  /**
   * All that session g must have passed to be published: the above, protected sockets, a handshake
   * that the peer answered, and the checks between them, each finding g current and not interrupted.
   */
  predicate Earned(g: nat, seen: set<Event>) {
    && Established(g, seen)
    && Read(Verifying(g, ThirdCheck), g, false) in seen
    && NotFailed(Verifying(g, Protect), seen)
    && Took(Verifying(g, Handshake), Succeed) in seen
    && Read(Verifying(g, Handshake), g, false) in seen
    && Read(Verifying(g, LastCheck), g, false) in seen
    && Read(Verifying(g, Publish), g, false) in seen
  }

  // ---- Nothing is published unearned ----

  predicate ConnectingBehind(g: nat, stage: Stage, seen: set<Event>) {
    && Started(g) in seen
    && (stage != LoadProfile ==> NotFailed(Connecting(g, LoadProfile), seen))
    && (stage != LoadProfile && stage != FirstCheck ==> Read(Connecting(g, FirstCheck), g, false) in seen)
    && (stage == SecondCheck || stage == Establish ==> NotFailed(Connecting(g, Resolve), seen))
    && (stage == Establish ==> Read(Connecting(g, SecondCheck), g, false) in seen)
  }

  predicate VerifyingBehind(g: nat, step: Verification, seen: set<Event>) {
    && Established(g, seen)
    && (step != ThirdCheck ==> Read(Verifying(g, ThirdCheck), g, false) in seen)
    && (step != ThirdCheck && step != Protect ==> NotFailed(Verifying(g, Protect), seen))
    && (step == LastCheck || step == Publish ==>
          Took(Verifying(g, Handshake), Succeed) in seen && Read(Verifying(g, Handshake), g, false) in seen)
    && (step == Publish ==> Read(Verifying(g, LastCheck), g, false) in seen)
  }

  predicate Behind(e: Executor, seen: set<Event>) {
    match e
    case Connecting(g, stage) => ConnectingBehind(g, stage, seen)
    case TurnedOn(g, _) => Established(g, seen)
    case Verifying(g, step) => VerifyingBehind(g, step, seen)
    case _ => true
  }

  predicate AskedByMain(m: MainThread, seen: set<Event>) {
    match m
    case StartForeground(g) => Started(g) in seen
    case SubmitSession(g) => Started(g) in seen
    case _ => true
  }

  ghost predicate AllAsked(q: seq<Task>, seen: set<Event>) {
    forall t :: t in q && t.Session? ==> Started(t.gen) in seen
  }

  /** The executor, the queue, the delivering thread and the state have behind them what they must. */
  ghost predicate Remembered(s: Service, seen: set<Event>) {
    && Behind(s.executor, seen) && AllAsked(s.queue, seen) && AskedByMain(s.main, seen)
    && (s.state == CONNECTED && !s.destroyed ==> Earned(s.generation, seen))
  }

  lemma BehindMore(e: Executor, seen: set<Event>, more: set<Event>)
    requires Behind(e, seen) && seen <= more
    ensures Behind(e, more)
  {
  }

  lemma RememberedMore(s: Service, seen: set<Event>, more: set<Event>)
    requires Remembered(s, seen) && seen <= more
    ensures Remembered(s, more)
  {
    BehindMore(s.executor, seen, more);
  }

  lemma ConnectingRemembers(s: Service, g: nat, stage: Stage, a: Answer, seen: set<Event>)
    requires s.executor == Connecting(g, stage) && ConnectingBehind(g, stage, seen)
    requires Took(s.executor, a) in seen && Read(s.executor, s.generation, s.interrupted) in seen
    ensures var t := ConnectingNext(s, g, stage, a);
      Behind(t.executor, seen) && t.state == s.state && t.queue == s.queue && t.main == s.main
      && t.generation == s.generation && t.destroyed == s.destroyed
  {
    match stage
    case LoadProfile =>
    case FirstCheck =>
    case Resolve =>
    case SecondCheck =>
    case Establish =>
  }

  lemma VerifyingRemembers(s: Service, g: nat, step: Verification, a: Answer, seen: set<Event>)
    requires s.executor == Verifying(g, step) && VerifyingBehind(g, step, seen)
    requires Took(s.executor, a) in seen && Read(s.executor, s.generation, s.interrupted) in seen
    ensures var t := VerifyingNext(s, g, step, a);
      Behind(t.executor, seen) && t.queue == s.queue && t.main == s.main
      && t.generation == s.generation && t.destroyed == s.destroyed
      && (t.state == s.state || (t.state == CONNECTED && t.generation == g && Earned(g, seen)))
  {
    match step
    case ThirdCheck =>
    case Protect =>
    case Handshake =>
    case LastCheck =>
    case Publish =>
  }

  lemma ExecutorRemembers(s: Service, a: Answer, seen: set<Event>)
    requires Remembered(s, seen)
    requires Took(s.executor, a) in seen && Read(s.executor, s.generation, s.interrupted) in seen
    ensures Remembered(ExecutorNext(s, a), seen)
  {
    match s.executor
    case Connecting(g, stage) => ConnectingRemembers(s, g, stage, a, seen);
    case Verifying(g, step) => VerifyingRemembers(s, g, step, a, seen);
    case _ =>
  }

  lemma CancelGrows(s: Service)
    ensures s.cancelled <= CancelActive(s).cancelled
  {
  }

  /** All that a step of the delivering thread does to what is remembered. */
  predicate MainTouches(s: Service, t: Service) {
    && t.executor == s.executor && t.generation == s.generation && t.destroyed == s.destroyed
    && (t.state == s.state || t.state == CONNECTING || t.state == IDLE)
    && s.cancelled <= t.cancelled
    && (t.queue == s.queue || t.queue == []
        || (s.main.SubmitSession? && t.queue == s.queue + [Session(s.main.gen)])
        || (s.main.StopSubmit? && t.queue == s.queue + [Cleanup(s.main.gen)])
        || t.queue == s.queue + [FinalCleanup])
    && (t.main.SubmitSession? ==> s.main == t.main || s.main == StartForeground(t.main.gen))
    && (t.main.StartForeground? ==> s.main == t.main)
  }

  lemma MainSteps(s: Service)
    ensures MainTouches(s, MainNext(s))
  {
    match s.main
    case StopCancel(_) => CancelChanges(s); CancelGrows(s);
    case DestroyCancel => CancelChanges(s); CancelGrows(s);
    case _ =>
  }

  lemma RevokeSteps(s: Service)
    ensures var t := RevokeNext(s);
      && t == s.(revoke := t.revoke, queue := t.queue, cancelled := t.cancelled, interrupted := t.interrupted)
      && s.cancelled <= t.cancelled
      && (t.queue == s.queue || (s.revoke.RevokeSubmit? && t.queue == s.queue + [Cleanup(s.revoke.gen)]))
  {
    match s.revoke
    case RevokeCancel(_) => CancelChanges(s); CancelGrows(s);
    case _ =>
  }

  lemma MainRemembers(s: Service, t: Service, seen: set<Event>)
    requires Remembered(s, seen) && MainTouches(s, t)
    ensures Remembered(t, seen)
  {
  }

  lemma StepRemembers(s: Service, l: Label, seen: set<Event>)
    requires Remembered(s, seen)
    ensures Remembered(Next(s, l), seen + Events(s, l))
  {
    RememberedMore(s, seen, seen + Events(s, l));
    match l
    case MainStep =>
      MainSteps(s);
      MainRemembers(s, MainNext(s), seen);
    case RevokeStep => RevokeSteps(s);
    case ExecutorStep(a) => ExecutorRemembers(s, a, seen + Events(s, l));
    case _ =>
  }

  lemma {:induction false} RunRemembers(s: Service, ls: seq<Label>, seen: set<Event>)
    requires Remembered(s, seen)
    ensures Remembered(Run(s, ls), seen + History(s, ls))
    decreases |ls|
  {
    if ls == [] {
      assert seen + History(s, ls) == seen;
    } else {
      StepRemembers(s, ls[0], seen);
      RunRemembers(Next(s, ls[0]), ls[1..], seen + Events(s, ls[0]));
      assert seen + History(s, ls) == seen + Events(s, ls[0]) + History(Next(s, ls[0]), ls[1..]);
    }
  }

  /**
   * Over every run: a service that is connected has behind it all that its session must pass, and so
   * has the very step that publishes it, which finds the session current.
   */
  lemma ConnectedIsEarned(ls: seq<Label>, l: Label)
    ensures var s, seen := Run(INITIAL, ls), History(INITIAL, ls);
      && (s.state == CONNECTED && !s.destroyed ==> Earned(s.generation, seen))
      && (s.state != CONNECTED && Next(s, l).state == CONNECTED ==>
            && l.ExecutorStep? && s.executor == Verifying(s.generation, Publish) && !s.interrupted
            && Earned(s.generation, seen + Events(s, l)))
  {
    RunRemembers(INITIAL, ls, {});
    assert {} + History(INITIAL, ls) == History(INITIAL, ls);
    var s, seen := Run(INITIAL, ls), History(INITIAL, ls);
    if s.state != CONNECTED && Next(s, l).state == CONNECTED {
      PublishedByPublish(s, l);
    }
  }

  lemma PublishedByPublish(s: Service, l: Label)
    requires s.state != CONNECTED && Next(s, l).state == CONNECTED
    ensures l.ExecutorStep? && s.executor == Verifying(s.generation, Publish) && !s.interrupted
  {
    match l
    case MainStep => MainSteps(s);
    case RevokeStep => RevokeSteps(s);
    case ExecutorStep(a) => ExecutorPublishes(s, a);
    case _ =>
  }

  lemma ExecutorPublishes(s: Service, a: Answer)
    requires s.state != CONNECTED && ExecutorNext(s, a).state == CONNECTED
    ensures s.executor == Verifying(s.generation, Publish) && !s.interrupted
  {
    match s.executor
    case Connecting(_, stage) => ConnectingMoves(s, a);
    case Verifying(g, step) =>
      match step {
        case Publish =>
        case Handshake =>
        case _ =>
      }
    case _ =>
  }

  // ---- A failure ends in ERROR ----

  /** A position at which session g waits for an answer that may be a failure. */
  predicate MayFail(e: Executor, g: nat) {
    || e == Connecting(g, LoadProfile) || e == Connecting(g, Resolve) || e == Connecting(g, Establish)
    || e == Verifying(g, Protect) || e == Verifying(g, Handshake)
  }

  /** Nobody starts, stops, revokes or destroys. */
  predicate WithoutCommands(ls: seq<Label>) {
    forall l :: l in ls ==> Runs(l)
  }

  predicate Runs(l: Label) {
    l.MainStep? || l.RevokeStep? || l.ExecutorStep?
  }

  /** Generation g is current, and nobody but the executor has anything left to do about it. */
  ghost predicate LeftAlone(s: Service, g: nat) {
    && Inv(s) && !s.destroyed && s.generation == g && s.queue == []
    && s.revoke == NotRevoking && (s.main == Ready || s.main == RecordTask(g))
  }

  /** The executor is in the disconnect that follows a failure of session g. */
  predicate TakingDown(e: Executor, g: nat) {
    match e
    case Disconnecting(after) => after == AfterFail(g)
    case Clearing(_, after) => after == AfterFail(g)
    case TurningOff(_, after) => after == AfterFail(g)
    case Finishing(after) => after == AfterFail(g)
    case _ => false
  }

  /** The session failed, and its tunnel is being taken down. */
  ghost predicate Failing(s: Service, g: nat) {
    LeftAlone(s, g) && TakingDown(s.executor, g)
  }

  /** The failure is reported, and no tunnel is alive. */
  ghost predicate Failed(s: Service, g: nat) {
    LeftAlone(s, g) && s.executor == Waiting && s.state == ERROR && s.tunnelHandle == NO_HANDLE
    && s.native.table == map[]
  }

  lemma CurrentIsLeftAlone(s: Service)
    requires Inv(s) && RunsSession(s.executor, s.generation)
    ensures LeftAlone(s, s.generation) && s.state == CONNECTING
  {
  }

  lemma FailureBegins(s: Service)
    requires Inv(s) && MayFail(s.executor, s.generation)
    ensures Sinking(ExecutorNext(s, Fail), s.generation)
  {
    ExecutorKeepsInv(s, Fail);
    CurrentIsLeftAlone(s);
    FailureAnswered(s, s.generation);
    SinkingBegins(s, ExecutorNext(s, Fail), s.generation);
  }

  /** The disconnect has four steps before it at most. */
  ghost predicate Sinking(t: Service, g: nat) {
    Failing(t, g) && ExecutorWork(t.executor) == 4
  }

  lemma SinkingBegins(s: Service, t: Service, g: nat)
    requires LeftAlone(s, g) && Inv(t) && t == s.(executor := Disconnecting(AfterFail(g)))
    ensures Sinking(t, g)
  {
  }

  lemma FailureAnswered(s: Service, g: nat)
    requires MayFail(s.executor, g)
    ensures ExecutorNext(s, Fail) == s.(executor := Disconnecting(AfterFail(g)))
  {
    match s.executor
    case Connecting(_, stage) =>
    case Verifying(_, step) =>
  }

  /** A step of that disconnect, apart from the invariant. */
  predicate Sinks(s: Service, t: Service, g: nat) {
    || (s.executor.Finishing? && t == s.(state := ERROR, executor := Waiting))
    || (t == s.(native := t.native, tunnelHandle := t.tunnelHandle, executor := t.executor)
        && TakingDown(t.executor, g) && ExecutorWork(t.executor) < ExecutorWork(s.executor))
  }

  lemma SinkingSteps(s: Service, a: Answer, g: nat)
    requires TakingDown(s.executor, g) && s.generation == g
    ensures Sinks(s, ExecutorNext(s, a), g)
  {
    match s.executor
    case Disconnecting(_) =>
    case Clearing(h, _) =>
    case TurningOff(_, _) =>
    case Finishing(_) =>
  }

  /** The disconnect goes on with less left to do, or the failure is reported. */
  ghost predicate GoesDown(s: Service, t: Service, g: nat) {
    (Failing(t, g) && ExecutorWork(t.executor) < ExecutorWork(s.executor)) || Failed(t, g)
  }

  lemma FailingTo(s: Service, t: Service, g: nat)
    requires Failing(s, g) && Inv(t) && Sinks(s, t, g)
    ensures GoesDown(s, t, g)
  {
    NothingLeft(t.native.table);
  }

  lemma FailingMoves(s: Service, a: Answer, g: nat)
    requires Failing(s, g)
    ensures GoesDown(s, ExecutorNext(s, a), g)
  {
    ExecutorKeepsInv(s, a);
    SinkingSteps(s, a, g);
    FailingTo(s, ExecutorNext(s, a), g);
  }

  lemma NothingLeft(table: map<int, Tunnel>)
    ensures table.Keys == {} ==> table == map[]
  {
  }

  lemma OthersWait(s: Service, l: Label, g: nat)
    requires LeftAlone(s, g) && (l.MainStep? || l.RevokeStep?)
    ensures var t := Next(s, l);
      LeftAlone(t, g) && t == s.(main := t.main, activeSession := t.activeSession)
  {
    StepKeepsInv(s, l);
  }

  lemma FailureGoesOn(s: Service, l: Label, g: nat)
    requires (Failing(s, g) || Failed(s, g)) && Runs(l)
    ensures var t := Next(s, l);
      || Failed(t, g)
      || (Failing(t, g) && ExecutorWork(t.executor) + (if l.ExecutorStep? then 1 else 0) <= ExecutorWork(s.executor))
  {
    match l
    case ExecutorStep(a) =>
      if Failing(s, g) {
        FailingMoves(s, a, g);
      }
    case _ => OthersWait(s, l, g);
  }

  lemma {:induction false} FailureRuns(s: Service, ls: seq<Label>, g: nat)
    requires (Failing(s, g) || Failed(s, g)) && WithoutCommands(ls)
    ensures Failing(Run(s, ls), g) || Failed(Run(s, ls), g)
    ensures Turns(ls) >= ExecutorWork(s.executor) ==> Failed(Run(s, ls), g)
    decreases |ls|
  {
    if ls != [] {
      FailureGoesOn(s, ls[0], g);
      FailureRuns(Next(s, ls[0]), ls[1..], g);
    }
  }

  /** A run that takes step `l` in between. */
  lemma RunThrough(before: seq<Label>, l: Label, after: seq<Label>)
    ensures Run(INITIAL, before + [l] + after) == Run(Next(Run(INITIAL, before), l), after)
  {
    RunAppend(INITIAL, before, [l]);
    RunAppend(INITIAL, before + [l], after);
    assert [l][1..] == [];
  }

  /**
   * Over every run: when the current session is answered with a failure, then without any further
   * command four turns of the executor report ERROR, with every tunnel that was ever created closed.
   */
  lemma FailureEndsInError(before: seq<Label>, after: seq<Label>)
    requires MayFail(Run(INITIAL, before).executor, Run(INITIAL, before).generation)
    requires WithoutCommands(after) && Turns(after) >= 4
    ensures var s, end := Run(INITIAL, before), Run(INITIAL, before + [ExecutorStep(Fail)] + after);
      && end.state == ERROR && end.executor == Waiting && end.generation == s.generation
      && end.native.table == map[] && end.tunnelHandle == NO_HANDLE
      && |end.native.turnedOff| == end.native.turnedOn
  {
    var s := Run(INITIAL, before);
    InitialInv();
    RunKeepsInv(INITIAL, before);
    RunThrough(before, ExecutorStep(Fail), after);
    FailureBegins(s);
    SinkingEnds(ExecutorNext(s, Fail), after, s.generation);
  }

  lemma SinkingEnds(t: Service, after: seq<Label>, g: nat)
    requires Sinking(t, g) && WithoutCommands(after) && Turns(after) >= 4
    ensures Failed(Run(t, after), g)
  {
    FailureRuns(t, after, g);
  }

  // ---- A session that nothing disturbs is published ----

  /** The executor is on its way up in session g. */
  predicate InSession(e: Executor, g: nat) {
    match e
    case Connecting(h, _) => h == g
    case TurnedOn(h, _) => h == g
    case Verifying(h, _) => h == g
    case _ => false
  }

  /** A start on its way: its callback, its task in the queue, or its task on the executor. */
  ghost predicate Rising(s: Service, g: nat) {
    && Inv(s) && !s.destroyed && s.generation == g && s.revoke == NotRevoking
    && match s.executor
       case Waiting =>
         if s.main == StartForeground(g) then s.state == PREPARING && s.queue == []
         else if s.main == SubmitSession(g) then s.state == CONNECTING && s.queue == []
         else s.state == CONNECTING && s.queue == [Session(g)] && (s.main == RecordTask(g) || s.main == Ready)
       case e => InSession(e, g) && !s.interrupted
  }

  ghost predicate Risen(s: Service, g: nat) {
    LeftAlone(s, g) && s.state == CONNECTED
  }

  /** No command, and no failure; a peer may take its time to answer the handshake. */
  predicate Smooth(l: Label) {
    l.MainStep? || l.RevokeStep? || (l.ExecutorStep? && !l.answer.Fail?)
  }

  /** A step of an undisturbed session, apart from the invariant. */
  predicate Advances(s: Service, t: Service, a: Answer, g: nat) {
    || (t == s && a == Retry)
    || t == s.(state := CONNECTED, executor := Waiting)
    || (t == s.(native := t.native, tunnelHandle := t.tunnelHandle, executor := t.executor)
        && InSession(t.executor, g) && ExecutorWork(t.executor) < ExecutorWork(s.executor))
  }

  lemma ConnectingAdvances(s: Service, g: nat, stage: Stage, a: Answer)
    requires !a.Fail? && s.executor == Connecting(g, stage) && s.generation == g && !s.interrupted
    requires stage == Establish ==> LeastUnused(s.native.table.Keys) == 0
    ensures Advances(s, ConnectingNext(s, g, stage, a), a, g)
  {
    match stage
    case LoadProfile =>
    case FirstCheck =>
    case Resolve =>
    case SecondCheck =>
    case Establish =>
  }

  lemma VerifyingAdvances(s: Service, g: nat, step: Verification, a: Answer)
    requires !a.Fail? && s.executor == Verifying(g, step) && s.generation == g && !s.interrupted
    ensures Advances(s, VerifyingNext(s, g, step, a), a, g)
  {
    match step
    case ThirdCheck =>
    case Protect =>
    case Handshake =>
    case LastCheck =>
    case Publish =>
  }

  lemma SessionAdvances(s: Service, g: nat, a: Answer)
    requires !a.Fail? && Inv(s) && InSession(s.executor, g) && s.generation == g && !s.interrupted
    ensures Advances(s, ExecutorNext(s, a), a, g)
  {
    match s.executor
    case Connecting(_, stage) =>
      if stage == Establish {
        NothingLeft(s.native.table);
        FirstTunnel(s.native, g);
      }
      ConnectingAdvances(s, g, stage, a);
    case TurnedOn(_, _) =>
    case Verifying(_, step) => VerifyingAdvances(s, g, step, a);
  }

  /** A step on the way up: published, or still on the way, with less left to do if anything moved. */
  ghost predicate GoesUp(s: Service, t: Service, g: nat) {
    Risen(t, g) || (Rising(t, g) && (t == s || Work(t) < Work(s)))
  }

  lemma RisingTo(s: Service, t: Service, a: Answer, g: nat)
    requires Rising(s, g) && s.executor != Waiting && LeftAlone(s, g) && Inv(t) && Advances(s, t, a, g)
    ensures GoesUp(s, t, g)
  {
  }

  lemma RisingSession(s: Service, a: Answer, g: nat)
    requires Rising(s, g) && s.executor != Waiting && !a.Fail?
    ensures GoesUp(s, ExecutorNext(s, a), g)
  {
    CurrentIsLeftAlone(s);
    ExecutorKeepsInv(s, a);
    SessionAdvances(s, g, a);
    RisingTo(s, ExecutorNext(s, a), a, g);
  }

  /** The session is taken from the queue, or there is none yet. */
  lemma RisingTask(s: Service, a: Answer, g: nat)
    requires Rising(s, g) && s.executor == Waiting
    ensures StaysUp(s, ExecutorNext(s, a), g)
  {
    if s.queue != [] {
      ExecutorKeepsInv(s, a);
      OneTask(s.queue, g);
      assert g !in s.cancelled;
      TaskTaken(s, ExecutorNext(s, a), g);
    }
  }

  /** Still on the way up, with less left to do if anything moved. */
  ghost predicate StaysUp(s: Service, t: Service, g: nat) {
    Rising(t, g) && (t == s || Work(t) < Work(s))
  }

  lemma TaskTaken(s: Service, t: Service, g: nat)
    requires Rising(s, g) && s.executor == Waiting && QueueWork(s.queue) == 16 && Inv(t)
    requires t == s.(queue := [], interrupted := false, executor := Connecting(g, LoadProfile))
    ensures StaysUp(s, t, g)
  {
    assert QueueWork([]) == 0;
  }

  lemma OneTask(q: seq<Task>, g: nat)
    requires q == [Session(g)]
    ensures q[1..] == [] && QueueWork(q) == 16 && QueueWork(q[1..]) == 0
  {
  }

  lemma RisingFront(s: Service, g: nat)
    requires Rising(s, g) && s.executor == Waiting
    ensures StaysUp(s, MainNext(s), g)
  {
    MainKeepsInv(s);
    RisingCallback(s, MainNext(s), g);
  }

  lemma RisingAlone(s: Service, g: nat)
    requires Rising(s, g)
    ensures RevokeNext(s) == s && StaysUp(s, s, g)
  {
  }

  lemma RisingBeside(s: Service, g: nat)
    requires Rising(s, g) && s.executor != Waiting
    ensures StaysUp(s, MainNext(s), g)
  {
    CurrentIsLeftAlone(s);
    MainKeepsInv(s);
    MainRecords(s, g);
    Recorded(s, MainNext(s), g);
  }

  lemma MainRecords(s: Service, g: nat)
    requires s.main == Ready || s.main == RecordTask(g)
    ensures MainNext(s) == s || (s.main == RecordTask(g) && MainNext(s) == s.(main := Ready, activeSession := g))
  {
  }

  lemma Recorded(s: Service, t: Service, g: nat)
    requires Rising(s, g) && s.executor != Waiting && Inv(t)
    requires t == s || (s.main == RecordTask(g) && t == s.(main := Ready, activeSession := g))
    ensures StaysUp(s, t, g)
  {
  }

  lemma RisingCallback(s: Service, t: Service, g: nat)
    requires Rising(s, g) && s.executor == Waiting && t == MainNext(s) && Inv(t)
    ensures StaysUp(s, t, g)
  {
    match s.main
    case SubmitSession(_) =>
      assert t.queue == [Session(g)];
      OneTask(t.queue, g);
    case _ =>
  }

  lemma RisingByMain(s: Service, g: nat)
    requires Rising(s, g)
    ensures StaysUp(s, MainNext(s), g)
  {
    if s.executor == Waiting {
      RisingFront(s, g);
    } else {
      RisingBeside(s, g);
    }
  }

  lemma RisingByExecutor(s: Service, a: Answer, g: nat)
    requires Rising(s, g) && !a.Fail?
    ensures Risen(ExecutorNext(s, a), g) || StaysUp(s, ExecutorNext(s, a), g)
  {
    if s.executor == Waiting {
      RisingTask(s, a, g);
    } else {
      RisingSession(s, a, g);
    }
  }

  lemma RisingStep(s: Service, l: Label, g: nat)
    requires Rising(s, g) && Smooth(l)
    ensures Risen(Next(s, l), g) || StaysUp(s, Next(s, l), g)
  {
    match l
    case MainStep => RisingByMain(s, g);
    case RevokeStep => RisingAlone(s, g);
    case ExecutorStep(a) => RisingByExecutor(s, a, g);
  }

  lemma RisenStays(s: Service, l: Label, g: nat)
    requires Risen(s, g) && Smooth(l)
    ensures Risen(Next(s, l), g)
  {
    match l
    case MainStep =>
      OthersWait(s, l, g);
    case RevokeStep =>
    case ExecutorStep(_) =>
  }

  /** Part of a round: risen, or less work, or nothing that was in it could move. */
  ghost predicate Rose(s: Service, ls: seq<Label>, t: Service, g: nat) {
    || Risen(t, g)
    || (Rising(t, g) && (Work(t) < Work(s) || (t == s && forall l :: l in ls ==> Next(s, l) == s)))
  }

  lemma {:induction false} RisingRun(s: Service, ls: seq<Label>, g: nat)
    requires (Rising(s, g) || Risen(s, g)) && forall l :: l in ls ==> Smooth(l)
    ensures if Risen(s, g) then Risen(Run(s, ls), g) else Rose(s, ls, Run(s, ls), g)
    decreases |ls|
  {
    if ls != [] {
      if Risen(s, g) {
        RisenStays(s, ls[0], g);
      } else {
        RisingStep(s, ls[0], g);
      }
      RisingRun(Next(s, ls[0]), ls[1..], g);
    }
  }

  /** A round in which the callback thread and the executor both have a turn. */
  predicate SmoothRound(r: seq<Label>) {
    MainStep in r && ExecutorStep(Succeed) in r && forall l :: l in r ==> Smooth(l)
  }

  lemma RisingCanMove(s: Service, g: nat)
    requires Rising(s, g)
    ensures Next(s, MainStep) != s || Next(s, ExecutorStep(Succeed)) != s
  {
    if s.executor != Waiting {
      SessionAdvances(s, g, Succeed);
    } else if s.main.StartForeground? {
      assert MainNext(s).main != s.main;
    } else if s.main.SubmitSession? {
      assert MainNext(s).main != s.main;
    } else {
      assert ExecutorNext(s, Succeed).queue == s.queue[1..];
    }
  }

  /** A round on the way up: published, or on the way with less left to do. */
  ghost predicate Climbs(s: Service, t: Service, g: nat) {
    Risen(t, g) || (Rising(t, g) && Work(t) < Work(s))
  }

  lemma OneRoundRises(s: Service, r: seq<Label>, g: nat)
    requires Rising(s, g) && SmoothRound(r)
    ensures Climbs(s, Run(s, r), g)
  {
    RisingRun(s, r, g);
    RisingCanMove(s, g);
  }

  lemma RisenRound(s: Service, r: seq<Label>, g: nat)
    requires Risen(s, g) && SmoothRound(r)
    ensures Risen(Run(s, r), g)
  {
    RisingRun(s, r, g);
  }

  lemma {:induction false} RoundsRise(s: Service, rounds: seq<seq<Label>>, g: nat)
    requires forall r :: r in rounds ==> SmoothRound(r)
    ensures Risen(s, g) ==> Risen(Run(s, Flatten(rounds)), g)
    ensures Rising(s, g) ==> Risen(Run(s, Flatten(rounds)), g) || |rounds| <= Work(s)
    decreases |rounds|
  {
    if rounds != [] {
      var r, rest := rounds[0], rounds[1..];
      assert SmoothRound(r);
      RunAppend(s, r, Flatten(rest));
      RoundsRise(Run(s, r), rest, g);
      if Risen(s, g) {
        RisenRound(s, r, g);
      }
      if Rising(s, g) {
        OneRoundRises(s, r, g);
      }
    }
  }

  /** Idle or failed, between two callbacks, with nothing left to run. */
  predicate AtRest(s: Service) {
    (s.state == IDLE || s.state == ERROR) && s.main == Ready && s.executor == Waiting && s.queue == []
  }

  lemma StartRises(s: Service)
    requires Inv(s) && AtRest(s)
    ensures Rising(Next(s, StartCommand), s.generation + 1) && Work(Next(s, StartCommand)) == 19
  {
    StepKeepsInv(s, StartCommand);
    assert QueueWork([]) == 0;
  }

  /**
   * Over every run: a start on a service at rest, with nothing failing and no other command, however
   * often the handshake is asked for again, is published within twenty rounds, in the generation
   * after, with its tunnel alive.
   */
  lemma StartConnects(before: seq<Label>, rounds: seq<seq<Label>>)
    requires AtRest(Run(INITIAL, before))
    requires |rounds| >= 20 && forall r :: r in rounds ==> SmoothRound(r)
    ensures var s, end := Run(INITIAL, before), Run(INITIAL, before + [StartCommand] + Flatten(rounds));
      && end.state == CONNECTED && end.generation == s.generation + 1
      && end.tunnelHandle in end.native.table && end.native.table[end.tunnelHandle].owner == end.generation
  {
    var s := Run(INITIAL, before);
    InitialInv();
    RunKeepsInv(INITIAL, before);
    RunThrough(before, StartCommand, Flatten(rounds));
    StartedSession(s, rounds);
  }

  lemma StartedSession(s: Service, rounds: seq<seq<Label>>)
    requires Inv(s) && AtRest(s)
    requires |rounds| >= 20 && forall r :: r in rounds ==> SmoothRound(r)
    ensures Risen(Run(Next(s, StartCommand), Flatten(rounds)), s.generation + 1)
  {
    StartRises(s);
    RoundsRise(Next(s, StartCommand), rounds, s.generation + 1);
  }

  // ---- A cancelled session ----

  /** A session that is cancelled before the executor takes it never runs. */
  lemma {:induction false} CancelledNeverRuns(s: Service, ls: seq<Label>, g: nat)
    requires g in s.cancelled && !RunsSession(s.executor, g)
    ensures g in Run(s, ls).cancelled && !RunsSession(Run(s, ls).executor, g)
    decreases |ls|
  {
    if ls != [] {
      CancelledStays(s, ls[0], g);
      CancelledNeverRuns(Next(s, ls[0]), ls[1..], g);
    }
  }

  lemma CancelledStays(s: Service, l: Label, g: nat)
    requires g in s.cancelled && !RunsSession(s.executor, g)
    ensures g in Next(s, l).cancelled && !RunsSession(Next(s, l).executor, g)
  {
    match l
    case MainStep => MainSteps(s);
    case RevokeStep => RevokeSteps(s);
    case ExecutorStep(a) => ExecutorSkips(s, a, g);
    case _ =>
  }

  lemma ExecutorSkips(s: Service, a: Answer, g: nat)
    requires g in s.cancelled && !RunsSession(s.executor, g)
    ensures g in ExecutorNext(s, a).cancelled && !RunsSession(ExecutorNext(s, a).executor, g)
  {
    match s.executor
    case Connecting(h, stage) => ConnectingMoves(s, a);
    case Verifying(h, step) =>
      match step {
        case Handshake =>
        case Publish =>
        case _ =>
      }
    case _ =>
  }

  /** The steps that cancel the active session: of a stop, of a destroy and of a revocation. */
  predicate Cancels(s: Service, l: Label) {
    (l == MainStep && (s.main.StopCancel? || s.main.DestroyCancel?)) || (l == RevokeStep && s.revoke.RevokeCancel?)
  }

  /**
   * A stop, a destroy and a revocation alike: the active session, if still in the queue, never runs
   * afterwards, and if it is running it is interrupted, so that its next check takes it down.
   */
  lemma CancelTakesEffect(s: Service, l: Label, ls: seq<Label>)
    requires Cancels(s, l) && s.activeSession >= 0
    ensures Session(s.activeSession) in s.queue && !RunsSession(s.executor, s.activeSession) ==>
      !RunsSession(Run(Next(s, l), ls).executor, s.activeSession)
    ensures Session(s.activeSession) !in s.queue && RunsSession(s.executor, s.activeSession) ==> Next(s, l).interrupted
  {
    if Session(s.activeSession) in s.queue && !RunsSession(s.executor, s.activeSession) {
      CancelledNeverRuns(Next(s, l), ls, s.activeSession);
    }
  }

  /** An interrupted session fails at whichever check it comes to, whatever the answer. */
  lemma InterruptedFails(s: Service, a: Answer, g: nat)
    requires s.interrupted
    requires s.executor in {Connecting(g, FirstCheck), Connecting(g, SecondCheck), Verifying(g, ThirdCheck),
                            Verifying(g, Handshake), Verifying(g, LastCheck), Verifying(g, Publish)}
    ensures Next(s, ExecutorStep(a)) == s.(executor := Disconnecting(AfterFail(g)))
  {
  }

  /**
   * A service that gives up waiting for its executor interrupts it, so that a session on its way up
   * fails at the next check; one whose executor has nothing left to do is left as it is.
   */
  lemma DestroyInterrupts(s: Service, a: Answer, g: nat)
    requires s.main == DestroyAwait
    ensures s.executor in {Connecting(g, FirstCheck), Connecting(g, SecondCheck), Verifying(g, ThirdCheck),
                           Verifying(g, Handshake), Verifying(g, LastCheck), Verifying(g, Publish)} ==>
      Next(Next(s, MainStep), ExecutorStep(a)).executor == Disconnecting(AfterFail(g))
    ensures s.executor == Waiting && s.queue == [] ==> Next(s, MainStep) == s.(main := DestroyFinish)
    ensures Next(s, MainStep).queue == []
  {
  }

  lemma GoneStaysIdle(s: Service, l: Label)
    requires Inv(s) && s.main == Gone && s.state == IDLE
    ensures Next(s, l).main == Gone && Next(s, l).state == IDLE
  {
    match l
    case MainStep =>
    case RevokeStep => RevokeSteps(s);
    case ExecutorStep(a) => StaleKeepsState(s, a);
    case _ =>
  }

  lemma StaleKeepsState(s: Service, a: Answer)
    requires StaleExecutor(s)
    ensures ExecutorNext(s, a).main == s.main
    ensures ExecutorNext(s, a).state == s.state || ExecutorNext(s, a).state == IDLE
  {
    ExecutorKeepsMain(s, a);
    match s.executor
    case Connecting(_, _) => ConnectingMoves(s, a);
    case Verifying(_, step) =>
      match step {
        case Handshake =>
        case _ =>
      }
    case _ =>
  }

  lemma {:induction false} GoneRuns(s: Service, ls: seq<Label>)
    requires Inv(s) && (s.main == Gone ==> s.state == IDLE)
    ensures Run(s, ls).main == Gone ==> Run(s, ls).state == IDLE
    decreases |ls|
  {
    if ls != [] {
      StepKeepsInv(s, ls[0]);
      if s.main == Gone {
        GoneStaysIdle(s, ls[0]);
      } else if Next(s, ls[0]).main == Gone {
        GoneIsNew(s, ls[0]);
      }
      GoneRuns(Next(s, ls[0]), ls[1..]);
    }
  }

  lemma GoneIsNew(s: Service, l: Label)
    requires s.main != Gone && Next(s, l).main == Gone
    ensures Next(s, l).state == IDLE
  {
    match l
    case MainStep =>
      match s.main {
        case StopCancel(_) => CancelChanges(s);
        case DestroyCancel => CancelChanges(s);
        case _ =>
      }
    case RevokeStep => RevokeSteps(s);
    case ExecutorStep(a) => ExecutorKeepsMain(s, a);
    case _ =>
  }

  /** Over every run: a destroyed service that has returned from onDestroy reports IDLE, and does so for good. */
  lemma DestroyedIsIdle(ls: seq<Label>)
    ensures Run(INITIAL, ls).main == Gone ==> Run(INITIAL, ls).state == IDLE
  {
    InitialInv();
    GoneRuns(INITIAL, ls);
  }

  // ---- Which commands are heeded ----

  /**
   * A start is heeded by an idle or failed service between two callbacks, and a stop by any that is
   * neither idle nor stopping; either makes every session before it stale.
   */
  lemma CommandsHeeded(s: Service)
    ensures Next(s, StartCommand) != s <==> s.main == Ready && (s.state == IDLE || s.state == ERROR)
    ensures Next(s, StopCommand) != s <==> s.main == Ready && s.state != IDLE && s.state != STOPPING
    ensures Next(s, RevokeCommand) != s <==> s.revoke == NotRevoking && s.state != IDLE && s.state != STOPPING
    ensures forall l :: l in {StartCommand, StopCommand, RevokeCommand} && Next(s, l) != s ==>
      Next(s, l).generation == s.generation + 1
  {
  }

  /** A stop that is heeded completes: within the fair rounds its work takes, the service is idle without a tunnel. */
  lemma StopHeededCompletes(before: seq<Label>, l: Label, rounds: seq<seq<Label>>) returns (k: nat)
    requires var s := Run(INITIAL, before);
      (l == StopCommand || l == RevokeCommand) && Next(s, l) != s && !s.destroyed
      && |rounds| > Work(Next(s, l))
    requires forall r :: r in rounds ==> FairRound(r)
    ensures k <= |Flatten(rounds)|
    ensures Stopped(Run(INITIAL, before + [l] + Flatten(rounds)[..k]))
  {
    var s := Run(INITIAL, before);
    InitialInv();
    RunKeepsInv(INITIAL, before);
    StepKeepsInv(s, l);
    k := StopCompletes(Next(s, l), rounds);
    RunThrough(before, l, Flatten(rounds)[..k]);
  }
}
