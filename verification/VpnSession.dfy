/**
 * The Android VPN service as a transition system. One step is one lock section, one queue
 * operation, one native call or one read or write of a shared field, taken by the thread that
 * delivers commands, by a revocation on another thread, or by the single control executor.
 */
module VpnSession {
  import opened HandleTable

  datatype State = IDLE | PREPARING | CONNECTING | CONNECTED | STOPPING | ERROR

  const NO_HANDLE := -1

  /** A task waiting for the control executor. Sessions and cleanups carry their generation. */
  datatype Task = Session(gen: nat) | Cleanup(gen: nat) | FinalCleanup

  /** Where connectAwg stands before the native tunnel exists. */
  datatype Stage = LoadProfile | FirstCheck | Resolve | SecondCheck | Establish

  /** Where connectAwg stands once the handle is stored. */
  datatype Verification = ThirdCheck | Protect | Handshake | LastCheck | Publish

  /** What follows disconnectAwg: the session failure, the stop's last lock section, or nothing. */
  datatype After = AfterFail(gen: nat) | AfterStop(gen: nat) | AfterDestroy

  datatype Executor =
    | Waiting
    | Connecting(gen: nat, stage: Stage)
    | TurnedOn(gen: nat, handle: int)
    | Verifying(gen: nat, step: Verification)
    | Disconnecting(after: After)
    | Clearing(handle: int, after: After)
    | TurningOff(handle: int, after: After)
    | Finishing(after: After)

  /** The thread delivering onStartCommand and onDestroy, one callback at a time. */
  datatype MainThread =
    | Ready
    | StartForeground(gen: nat) | SubmitSession(gen: nat) | RecordTask(gen: nat)
    | StopCancel(gen: nat) | StopSubmit(gen: nat)
    | DestroyCancel | DestroySubmit | DestroyShutdown | DestroyAwait | DestroyFinish | Gone

  /** A revocation runs the stop procedure on its own thread. */
  datatype RevokeThread = NotRevoking | RevokeCancel(gen: nat) | RevokeSubmit(gen: nat)

  /** A native tunnel: its place in the order of creation and the session that created it. */
  datatype Tunnel = Tunnel(serial: nat, owner: nat)

  /** The native library: its live tunnels, how many it created, and those closed, in order. */
  datatype NativeLibrary = NativeLibrary(table: map<int, Tunnel>, turnedOn: nat, turnedOff: seq<nat>)

  datatype Service = Service(
    state: State,
    generation: nat,
    destroyed: bool,
    tunnelHandle: int,
    native: NativeLibrary,
    queue: seq<Task>,
    accepting: bool,             // the executor has not been shut down
    executor: Executor,
    interrupted: bool,           // the executor thread's interrupt flag
    activeSession: int,          // generation of activeSessionTask, or -1
    cancelled: set<nat>,         // generations of session tasks cancelled before they ran
    main: MainThread,
    revoke: RevokeThread)

  const NO_TUNNELS := NativeLibrary(map[], 0, [])

  const INITIAL :=
    Service(IDLE, 0, false, NO_HANDLE, NO_TUNNELS, [], true, Waiting, false, -1, {}, Ready, NotRevoking)

  /** How the environment answers an operation that can succeed, ask to be repeated, or throw. */
  datatype Answer = Succeed | Retry | Fail

  datatype Label =
    | StartCommand | StopCommand | DestroyCommand | RevokeCommand
    | MainStep | RevokeStep | ExecutorStep(answer: Answer)

  // ---- The steps ----

  /** stopSession's lock section; the caller goes on only when the generation moved. */
  function BeginStop(s: Service): Service {
    if s.state == IDLE || s.state == STOPPING then s
    else s.(generation := s.generation + 1, state := STOPPING)
  }

  /** Future.cancel(true) on activeSessionTask: a queued task is skipped, a running one interrupted. */
  function CancelActive(s: Service): Service {
    if s.activeSession < 0 then s
    else if Session(s.activeSession) in s.queue then s.(cancelled := s.cancelled + {s.activeSession})
    else if RunsSession(s.executor, s.activeSession) then s.(interrupted := true)
    else s
  }

  predicate RunsSession(e: Executor, gen: int) {
    match e
    case Waiting => false
    case Connecting(g, _) => g == gen
    case TurnedOn(g, _) => g == gen
    case Verifying(g, _) => g == gen
    case Disconnecting(after) => after.AfterFail? && after.gen == gen
    case Clearing(_, after) => after.AfterFail? && after.gen == gen
    case TurningOff(_, after) => after.AfterFail? && after.gen == gen
    case Finishing(after) => after.AfterFail? && after.gen == gen
  }

  function Submit(s: Service, t: Task): Service {
    if s.accepting then s.(queue := s.queue + [t]) else s
  }

  /** The delivering thread goes on with the callback it is in. */
  function MainNext(s: Service): Service {
    match s.main
    case Ready => s
    case StartForeground(g) =>
      if s.generation != g || s.state != PREPARING then s.(main := Ready)
      else s.(state := CONNECTING, main := SubmitSession(g))
    case SubmitSession(g) => Submit(s, Session(g)).(main := if s.accepting then RecordTask(g) else Ready)
    case RecordTask(g) => s.(activeSession := g, main := Ready)
    case StopCancel(g) => CancelActive(s).(main := StopSubmit(g))
    case StopSubmit(g) => Submit(s, Cleanup(g)).(main := Ready)
    case DestroyCancel => CancelActive(s).(main := DestroySubmit)
    case DestroySubmit => Submit(s, FinalCleanup).(main := DestroyShutdown)
    case DestroyShutdown => s.(accepting := false, main := DestroyAwait)
    case DestroyAwait =>
      if s.queue == [] && s.executor == Waiting then s.(main := DestroyFinish)
      else s.(queue := [], interrupted := true, main := DestroyFinish)
    case DestroyFinish => s.(state := IDLE, main := Gone)
    case Gone => s
  }

  function RevokeNext(s: Service): Service {
    match s.revoke
    case NotRevoking => s
    case RevokeCancel(g) => CancelActive(s).(revoke := RevokeSubmit(g))
    case RevokeSubmit(g) => Submit(s, Cleanup(g)).(revoke := NotRevoking)
  }

  /** requireCurrentGeneration lets session g pass. */
  predicate Current(s: Service, g: nat) {
    s.generation == g && !s.interrupted
  }

  function FailSession(s: Service, g: nat): Service {
    s.(executor := Disconnecting(AfterFail(g)))
  }

  /** The executor takes the next task or goes on with the one it runs. */
  function ExecutorNext(s: Service, answer: Answer): Service {
    match s.executor
    case Waiting => if s.queue == [] then s else TakeTask(s)
    case Connecting(g, stage) => ConnectingNext(s, g, stage, answer)
    case TurnedOn(g, h) => s.(tunnelHandle := h, executor := Verifying(g, ThirdCheck))
    case Verifying(g, step) => VerifyingNext(s, g, step, answer)
    case Disconnecting(after) => s.(executor := Clearing(s.tunnelHandle, after))
    case Clearing(h, after) =>
      s.(tunnelHandle := NO_HANDLE, executor := if h == NO_HANDLE then Finishing(after) else TurningOff(h, after))
    case TurningOff(h, after) => s.(native := TurnOff(s.native, h), executor := Finishing(after))
    case Finishing(after) => FinishingNext(s, after)
  }

  function TakeTask(s: Service): Service
    requires s.queue != []
  {
    var rest := s.(queue := s.queue[1..], interrupted := false);
    match s.queue[0]
    case Session(g) => if g in s.cancelled then rest else rest.(executor := Connecting(g, LoadProfile))
    case Cleanup(g) => rest.(executor := Disconnecting(AfterStop(g)))
    case FinalCleanup => rest.(executor := Disconnecting(AfterDestroy))
  }

  function ConnectingNext(s: Service, g: nat, stage: Stage, answer: Answer): Service {
    match stage
    case LoadProfile => if answer.Fail? then FailSession(s, g) else s.(executor := Connecting(g, FirstCheck))
    case FirstCheck => if Current(s, g) then s.(executor := Connecting(g, Resolve)) else FailSession(s, g)
    case Resolve => if answer.Fail? then FailSession(s, g) else s.(executor := Connecting(g, SecondCheck))
    case SecondCheck => if Current(s, g) then s.(executor := Connecting(g, Establish)) else FailSession(s, g)
    case Establish =>
      var h := LeastUnused(s.native.table.Keys);
      if answer.Fail? || h == MAX_INT32 then FailSession(s, g)
      else s.(native := TurnOn(s.native, h, g), executor := TurnedOn(g, h))
  }

  function VerifyingNext(s: Service, g: nat, step: Verification, answer: Answer): Service {
    match step
    case ThirdCheck => if Current(s, g) then s.(executor := Verifying(g, Protect)) else FailSession(s, g)
    case Protect => if answer.Fail? then FailSession(s, g) else s.(executor := Verifying(g, Handshake))
    case Handshake =>
      if !Current(s, g) || answer.Fail? then FailSession(s, g)
      else if answer.Retry? then s
      else s.(executor := Verifying(g, LastCheck))
    case LastCheck => if Current(s, g) then s.(executor := Verifying(g, Publish)) else FailSession(s, g)
    case Publish => if Current(s, g) then s.(state := CONNECTED, executor := Waiting) else FailSession(s, g)
  }

  function TurnOn(n: NativeLibrary, h: int, g: nat): NativeLibrary {
    n.(table := n.table[h := Tunnel(n.turnedOn, g)], turnedOn := n.turnedOn + 1)
  }

  /** awgTurnOff: closes a live tunnel and ignores any other handle. */
  function TurnOff(n: NativeLibrary, h: int): NativeLibrary {
    if h in n.table then n.(table := n.table - {h}, turnedOff := n.turnedOff + [n.table[h].serial]) else n
  }

  function FinishingNext(s: Service, after: After): Service {
    match after
    case AfterFail(g) => s.(state := if s.generation == g then ERROR else s.state, executor := Waiting)
    case AfterStop(g) => s.(state := if s.generation == g then IDLE else s.state, executor := Waiting)
    case AfterDestroy => s.(executor := Waiting)
  }

  /** One step of the service. A step its thread cannot take leaves the service as it is. */
  function Next(s: Service, l: Label): Service {
    match l
    case StartCommand =>
      if s.main != Ready || (s.state != IDLE && s.state != ERROR) then s
      else s.(state := PREPARING, generation := s.generation + 1, main := StartForeground(s.generation + 1))
    case StopCommand =>
      if s.main != Ready then s
      else
        var t := BeginStop(s);
        if t == s then s else t.(main := StopCancel(t.generation))
    case RevokeCommand =>
      if s.revoke != NotRevoking then s
      else
        var t := BeginStop(s);
        if t == s then s else t.(revoke := RevokeCancel(t.generation))
    case DestroyCommand =>
      if s.main != Ready then s
      else s.(destroyed := true, generation := s.generation + 1, main := DestroyCancel)
    case MainStep => MainNext(s)
    case RevokeStep => RevokeNext(s)
    case ExecutorStep(answer) => ExecutorNext(s, answer)
  }

  function Run(s: Service, ls: seq<Label>): Service
    decreases |ls|
  {
    if ls == [] then s else Run(Next(s, ls[0]), ls[1..])
  }

  // ---- The invariant ----

  /** The handle the executor holds in a local variable and nowhere else. */
  function InFlight(e: Executor): set<int> {
    match e
    case TurnedOn(_, h) => {h}
    case TurningOff(h, _) => {h}
    case _ => {}
  }

  function Stored(tunnelHandle: int): set<int> {
    if tunnelHandle == NO_HANDLE then {} else {tunnelHandle}
  }

  predicate PastFirstCheck(e: Executor) {
    e.Connecting? && e.stage != LoadProfile && e.stage != FirstCheck
  }

  /** Every live tunnel is stored in tunnelHandle or in the executor's hands, and handle 0 is the only one. */
  ghost predicate HandlesOwned(table: map<int, Tunnel>, tunnelHandle: int, e: Executor) {
    && table.Keys == Stored(tunnelHandle) + InFlight(e)
    && (InFlight(e) != {} || PastFirstCheck(e) || e.Finishing? ==> tunnelHandle == NO_HANDLE)
    && (forall h :: h in table ==> h == 0)
    && (tunnelHandle == NO_HANDLE || tunnelHandle == 0)
    && (e.Verifying? ==> tunnelHandle != NO_HANDLE && table[tunnelHandle].owner == e.gen)
    && (e.TurnedOn? ==> table[e.handle].owner == e.gen)
    && (e.Clearing? ==> e.handle == tunnelHandle)
  }

  /** Every tunnel ever created is live or was closed exactly once. */
  ghost predicate ClosedOnce(n: NativeLibrary) {
    && (forall h :: h in n.table ==> n.table[h].serial < n.turnedOn && n.table[h].serial !in n.turnedOff)
    && (forall k :: k in n.turnedOff ==> k < n.turnedOn)
    && (forall i, j :: 0 <= i < j < |n.turnedOff| ==> n.turnedOff[i] != n.turnedOff[j])
    && |n.turnedOff| + |n.table| == n.turnedOn
  }

  /** The generation of the session the executor is running, if it runs one. */
  predicate StaleExecutor(s: Service) {
    match s.executor
    case Waiting => true
    case Connecting(g, _) => g < s.generation
    case TurnedOn(g, _) => g < s.generation
    case Verifying(g, _) => g < s.generation
    case Disconnecting(after) => StaleAfter(after, s.generation)
    case Clearing(_, after) => StaleAfter(after, s.generation)
    case TurningOff(_, after) => StaleAfter(after, s.generation)
    case Finishing(after) => StaleAfter(after, s.generation)
  }

  predicate StaleAfter(after: After, generation: nat) {
    after.AfterFail? ==> after.gen < generation
  }

  /** The executor's task belongs to no session or cleanup other than a stale session. */
  predicate NoCleanupRunning(e: Executor) {
    match e
    case Disconnecting(after) => after.AfterFail?
    case Clearing(_, after) => after.AfterFail?
    case TurningOff(_, after) => after.AfterFail?
    case Finishing(after) => after.AfterFail?
    case _ => true
  }

  predicate CleanupRunning(e: Executor, g: nat) {
    match e
    case Disconnecting(after) => after == AfterStop(g)
    case Clearing(_, after) => after == AfterStop(g)
    case TurningOff(_, after) => after == AfterStop(g)
    case Finishing(after) => after == AfterStop(g)
    case _ => false
  }

  ghost predicate OnlyStaleSessions(q: seq<Task>, generation: nat) {
    forall t :: t in q ==> t.Session? && t.gen < generation
  }

  /** No handle exists and nothing under way can create one. */
  ghost predicate Quiet(s: Service) {
    && s.tunnelHandle == NO_HANDLE
    && InFlight(s.executor) == {}
    && !PastFirstCheck(s.executor)
    && StaleExecutor(s)
    && NoCleanupRunning(s.executor)
    && s.revoke == NotRevoking
    && !s.main.StopCancel? && !s.main.StopSubmit?
  }

  /** A cleanup for the current generation is under way in exactly one place. */
  ghost predicate StopPending(s: Service) {
    var byMain := s.main == StopCancel(s.generation) || s.main == StopSubmit(s.generation);
    var byRevoke := s.revoke == RevokeCancel(s.generation) || s.revoke == RevokeSubmit(s.generation);
    var queued := Cleanup(s.generation) in s.queue;
    var running := CleanupRunning(s.executor, s.generation);
    && (byMain || byRevoke || queued || running)
    && (byMain ==> !byRevoke && !queued && !running)
    && (byRevoke ==> !queued && !running)
    && (queued ==> !running)
    && (!byMain ==> !s.main.StopCancel? && !s.main.StopSubmit?)
    && (!byRevoke ==> s.revoke == NotRevoking)
    && (!running ==> NoCleanupRunning(s.executor))
    && StaleExecutor(s)
    && StopQueue(s.queue, s.generation)
  }

  /** Stale sessions and at most one cleanup, which is the current one. */
  ghost predicate StopQueue(q: seq<Task>, generation: nat) {
    && (forall t :: t in q ==> (t.Session? && t.gen < generation) || t == Cleanup(generation))
    && (forall i, j :: 0 <= i < j < |q| ==> !q[i].Cleanup? || !q[j].Cleanup?)
  }

  /** What each value of `state` says about the rest of the service until it is destroyed. */
  ghost predicate Phase(s: Service) {
    match s.state
    case IDLE => Quiet(s) && OnlyStaleSessions(s.queue, s.generation) && MainStale(s)
    case ERROR => Quiet(s) && OnlyStaleSessions(s.queue, s.generation) && MainStale(s)
    case PREPARING =>
      Quiet(s) && OnlyStaleSessions(s.queue, s.generation) && s.main == StartForeground(s.generation)
    case CONNECTING => SessionPending(s) || SessionRunning(s)
    case CONNECTED =>
      && s.executor == Waiting && s.queue == []
      && s.tunnelHandle in s.native.table && s.native.table[s.tunnelHandle].owner == s.generation
      && s.revoke == NotRevoking && (s.main == Ready || s.main == RecordTask(s.generation))
    case STOPPING =>
      StopPending(s) && MainStale(s) && s.activeSession < s.generation && s.main != RecordTask(s.generation)
  }

  /** Between the callbacks, or in a start that a stop has overtaken. */
  predicate MainStale(s: Service) {
    match s.main
    case StartForeground(g) => g < s.generation
    case SubmitSession(g) => g < s.generation
    case RecordTask(g) => g <= s.generation
    case _ => true
  }

  /** The current session is about to be submitted, or is the last task in the queue. */
  ghost predicate SessionPending(s: Service) {
    && Quiet(s)
    && if s.main == SubmitSession(s.generation) then OnlyStaleSessions(s.queue, s.generation)
       else
         && (s.main == Ready || s.main == RecordTask(s.generation))
         && s.queue != [] && s.queue[|s.queue| - 1] == Session(s.generation)
         && OnlyStaleSessions(s.queue[..|s.queue| - 1], s.generation)
         && s.generation !in s.cancelled
  }

  ghost predicate SessionRunning(s: Service) {
    && RunsSession(s.executor, s.generation)
    && (s.executor.Connecting? ==> s.tunnelHandle == NO_HANDLE)
    && s.queue == []
    && s.revoke == NotRevoking && (s.main == Ready || s.main == RecordTask(s.generation))
  }

  /** After onDestroy every session is stale for good. */
  ghost predicate AllStale(s: Service) {
    && StaleExecutor(s)
    && (forall t :: t in s.queue && t.Session? ==> t.gen < s.generation)
    && !NotDestroying(s.main)
  }

  ghost predicate Life(s: Service) {
    && (if s.destroyed then AllStale(s)
        else s.accepting && Phase(s) && NotDestroying(s.main) && forall g :: g in s.cancelled ==> g < s.generation)
    && s.activeSession <= s.generation
  }

  ghost predicate Owned(s: Service) {
    HandlesOwned(s.native.table, s.tunnelHandle, s.executor)
  }

  ghost predicate Inv(s: Service) {
    Owned(s) && ClosedOnce(s.native) && Life(s)
  }

  predicate NotDestroying(m: MainThread) {
    m.Ready? || m.StartForeground? || m.SubmitSession? || m.RecordTask? || m.StopCancel? || m.StopSubmit?
  }

  lemma InitialInv()
    ensures Inv(INITIAL)
  {
  }

  lemma StartKeepsInv(s: Service)
    requires Inv(s)
    ensures Inv(Next(s, StartCommand))
  {
  }

  /** A stop that gets past its lock section finds no other stop and no session of a later generation. */
  lemma StopFindsNoCleanup(s: Service)
    requires Inv(s) && !s.destroyed && s.state != STOPPING
    ensures NoCleanupRunning(s.executor) && s.revoke == NotRevoking && !s.main.StopCancel? && !s.main.StopSubmit?
    ensures OnlyStaleSessions(s.queue, s.generation + 1)
    ensures StaleExecutor(s.(generation := s.generation + 1))
    ensures MainStale(s.(generation := s.generation + 1)) && s.main != RecordTask(s.generation + 1)
  {
    if s.state == CONNECTING && SessionPending(s) && !s.main.SubmitSession? {
      assert s.queue == s.queue[..|s.queue| - 1] + [s.queue[|s.queue| - 1]];
    }
  }

  lemma StopBeginsPhase(s: Service, m: MainThread, r: RevokeThread)
    requires Inv(s) && !s.destroyed && s.state != IDLE && s.state != STOPPING
    requires (s.main == Ready && m == StopCancel(s.generation + 1) && r == s.revoke)
          || (m == s.main && r == RevokeCancel(s.generation + 1))
    ensures Inv(BeginStop(s).(main := m, revoke := r))
  {
    StopFindsNoCleanup(s);
    assert StopPending(BeginStop(s).(main := m, revoke := r));
  }

  lemma StopKeepsInv(s: Service)
    requires Inv(s)
    ensures Inv(Next(s, StopCommand))
  {
    if s.main == Ready && s.state != IDLE && s.state != STOPPING {
      StopBeginsPhase(s, StopCancel(s.generation + 1), s.revoke);
    }
  }

  lemma DestroyKeepsInv(s: Service)
    requires Inv(s)
    ensures Inv(Next(s, DestroyCommand))
  {
    if s.main == Ready {
      if s.state != STOPPING {
        StopFindsNoCleanup(s);
      }
      assert AllStale(Next(s, DestroyCommand));
    }
  }

  lemma StaleAppended(q: seq<Task>, g: nat, generation: nat)
    requires g < generation
    ensures OnlyStaleSessions(q, generation) ==> OnlyStaleSessions(q + [Session(g)], generation)
    ensures StopQueue(q, generation) ==> StopQueue(q + [Session(g)], generation)
    ensures Cleanup(generation) in q + [Session(g)] <==> Cleanup(generation) in q
  {
  }

  lemma LastTask(q: seq<Task>, t: Task)
    ensures (q + [t])[..|q + [t]| - 1] == q && (q + [t])[|q + [t]| - 1] == t
  {
  }

  lemma SubmitWhileStopping(s: Service, g: nat)
    requires Inv(s) && s.main == SubmitSession(g) && s.state == STOPPING
    ensures Life(MainNext(s))
  {
    StaleAppended(s.queue, g, s.generation);
    assert StopPending(MainNext(s));
  }

  lemma SubmitCurrent(s: Service, g: nat)
    requires Inv(s) && s.main == SubmitSession(g) && s.state != STOPPING && g == s.generation
    ensures Life(MainNext(s))
  {
    assert !s.destroyed && s.state == CONNECTING && SessionPending(s);
    var t := s.(queue := s.queue + [Session(g)], main := RecordTask(g));
    LastTask(s.queue, Session(g));
    assert OnlyStaleSessions(t.queue[..|t.queue| - 1], g) && g !in t.cancelled;
    assert MainNext(s) == t && SessionPending(t);
  }

  lemma SubmitStale(s: Service, g: nat)
    requires Inv(s) && s.main == SubmitSession(g) && s.state != STOPPING && g < s.generation
    ensures Life(MainNext(s))
  {
    StaleAppended(s.queue, g, s.generation);
  }

  lemma SubmitSessionKeepsLife(s: Service)
    requires Inv(s) && s.main.SubmitSession?
    ensures Life(MainNext(s))
  {
    if s.state == STOPPING {
      SubmitWhileStopping(s, s.main.gen);
    } else if s.main.gen == s.generation {
      SubmitCurrent(s, s.main.gen);
    } else {
      SubmitStale(s, s.main.gen);
    }
  }

  lemma SubmitSessionKeepsInv(s: Service)
    requires Inv(s) && s.main.SubmitSession?
    ensures Inv(MainNext(s))
  {
    var t := MainNext(s);
    assert t.native == s.native && t.tunnelHandle == s.tunnelHandle && t.executor == s.executor;
    SubmitSessionKeepsLife(s);
  }

  lemma RecordTaskKeepsInv(s: Service)
    requires Inv(s) && s.main.RecordTask?
    ensures Inv(MainNext(s))
  {
  }

  lemma StopSubmitKeepsInv(s: Service)
    requires Inv(s) && s.main.StopSubmit?
    ensures Inv(MainNext(s))
  {
    StopperMeansStopping(s);
  }

  lemma RevokeSubmitKeepsInv(s: Service)
    requires Inv(s) && s.revoke.RevokeSubmit?
    ensures Inv(RevokeNext(s))
  {
    StopperMeansStopping(s);
  }

  lemma FromTurnedOnKeepsNative(s: Service, answer: Answer)
    requires Inv(s) && s.executor.TurnedOn?
    ensures Owned(ExecutorNext(s, answer)) && ClosedOnce(ExecutorNext(s, answer).native)
  {
  }

  lemma FromTurnedOnKeepsLife(s: Service, answer: Answer)
    requires Inv(s) && s.executor.TurnedOn?
    ensures Life(ExecutorNext(s, answer))
  {
  }

  lemma FromDisconnectingKeepsNative(s: Service, answer: Answer)
    requires Inv(s) && s.executor.Disconnecting?
    ensures Owned(ExecutorNext(s, answer)) && ClosedOnce(ExecutorNext(s, answer).native)
  {
  }

  lemma FromDisconnectingKeepsLife(s: Service, answer: Answer)
    requires Inv(s) && s.executor.Disconnecting?
    ensures Life(ExecutorNext(s, answer))
  {
  }

  lemma FromClearingKeepsNative(s: Service, answer: Answer)
    requires Inv(s) && s.executor.Clearing?
    ensures Owned(ExecutorNext(s, answer)) && ClosedOnce(ExecutorNext(s, answer).native)
  {
    var t, h := ExecutorNext(s, answer), s.executor.handle;
    assert s.native.table.Keys == Stored(h);
    assert t.tunnelHandle == NO_HANDLE && t.native == s.native && InFlight(t.executor) == Stored(h);
  }

  lemma FromClearingKeepsLife(s: Service, answer: Answer)
    requires Inv(s) && s.executor.Clearing?
    ensures Life(ExecutorNext(s, answer))
  {
    var h, after := s.executor.handle, s.executor.after;
    if h == NO_HANDLE {
      ClearedNothing(s, after);
    } else {
      ClearedHandle(s, h, after);
    }
  }

  lemma ClearedNothing(s: Service, after: After)
    requires Inv(s) && s.executor == Clearing(NO_HANDLE, after)
    ensures Life(s.(tunnelHandle := NO_HANDLE, executor := Finishing(after)))
  {
    var t := s.(tunnelHandle := NO_HANDLE, executor := Finishing(after));
    if s.destroyed {
      assert AllStale(t);
    } else if s.state == STOPPING {
      assert StopPending(t);
    }
  }

  lemma ClearedHandle(s: Service, h: int, after: After)
    requires Inv(s) && s.executor == Clearing(h, after) && h != NO_HANDLE
    ensures Life(s.(tunnelHandle := NO_HANDLE, executor := TurningOff(h, after)))
  {
    var t := s.(tunnelHandle := NO_HANDLE, executor := TurningOff(h, after));
    if s.destroyed {
      assert AllStale(t);
    } else if s.state == STOPPING {
      assert StopPending(t);
    } else {
      assert s.state == CONNECTING && SessionRunning(s);
    }
  }

  lemma FromTurningOffKeepsNative(s: Service, answer: Answer)
    requires Inv(s) && s.executor.TurningOff?
    ensures Owned(ExecutorNext(s, answer)) && ClosedOnce(ExecutorNext(s, answer).native)
  {
  }

  lemma FromTurningOffKeepsLife(s: Service, answer: Answer)
    requires Inv(s) && s.executor.TurningOff?
    ensures Life(ExecutorNext(s, answer))
  {
  }

  lemma FromFinishingKeepsNative(s: Service, answer: Answer)
    requires Inv(s) && s.executor.Finishing?
    ensures Owned(ExecutorNext(s, answer)) && ClosedOnce(ExecutorNext(s, answer).native)
  {
    assert ExecutorNext(s, answer).executor == Waiting;
    MovingKeepsNative(s, ExecutorNext(s, answer));
  }

  lemma RevokeCommandKeepsInv(s: Service)
    requires Inv(s)
    ensures Inv(Next(s, RevokeCommand))
  {
    if s.revoke == NotRevoking && s.state != IDLE && s.state != STOPPING {
      if s.destroyed {
        assert AllStale(s);
      } else {
        StopBeginsPhase(s, s.main, RevokeCancel(s.generation + 1));
      }
    }
  }

  lemma StartForegroundKeepsInv(s: Service)
    requires Inv(s) && s.main.StartForeground?
    ensures Inv(MainNext(s))
  {
    var g := s.main.gen;
    if s.generation == g && s.state == PREPARING {
      assert SessionPending(MainNext(s));
    } else {
      assert s.state != PREPARING && s.state != CONNECTING;
    }
  }

  /** Cancelling touches only the interrupt flag and the set of cancelled tasks. */
  lemma CancelKeepsLife(s: Service, t: Service)
    requires Inv(s) && (s.destroyed || s.state == STOPPING)
    requires t == CancelActive(s)
    ensures Inv(t) && t.main == s.main && t.revoke == s.revoke && t.state == s.state && t.generation == s.generation
  {
    CancelChanges(s);
    CancelledOnly(s, t.cancelled, t.interrupted);
  }

  lemma CancelChanges(s: Service)
    ensures var t := CancelActive(s);
      && t == s.(cancelled := t.cancelled, interrupted := t.interrupted)
      && forall g :: g in t.cancelled ==> g in s.cancelled || (g == s.activeSession && Session(g) in s.queue)
  {
  }

  lemma CancelledOnly(s: Service, cancelled: set<nat>, interrupted: bool)
    requires Life(s) && (s.destroyed || s.state == STOPPING)
    requires !s.destroyed ==> forall g :: g in cancelled ==> g < s.generation
    ensures Life(s.(cancelled := cancelled, interrupted := interrupted))
  {
    var t := s.(cancelled := cancelled, interrupted := interrupted);
    if s.destroyed {
      assert AllStale(t);
    } else {
      assert StopPending(t);
    }
  }

  lemma StopCancelKeepsInv(s: Service)
    requires Inv(s) && s.main.StopCancel?
    ensures Inv(MainNext(s))
  {
    var t := CancelActive(s);
    StopperMeansStopping(s);
    CancelKeepsLife(s, t);
    StopAdvances(t);
  }

  lemma StopAdvances(s: Service)
    requires Inv(s) && s.main.StopCancel?
    ensures Inv(s.(main := StopSubmit(s.main.gen)))
  {
    StopperMeansStopping(s);
    assert StopPending(s);
  }

  lemma RevokeCancelKeepsInv(s: Service)
    requires Inv(s) && s.revoke.RevokeCancel?
    ensures Inv(RevokeNext(s))
  {
    StopperMeansStopping(s);
    CancelKeepsLife(s, CancelActive(s));
    RevokeAdvances(CancelActive(s));
  }

  lemma StopperMeansStopping(s: Service)
    requires Inv(s)
    ensures s.destroyed || s.state == STOPPING
            || (s.revoke == NotRevoking && !s.main.StopCancel? && !s.main.StopSubmit?)
    ensures s.main.StopCancel? || s.main.StopSubmit? ==> !s.destroyed
  {
  }

  lemma RevokeAdvances(s: Service)
    requires Inv(s) && s.revoke.RevokeCancel?
    ensures Inv(s.(revoke := RevokeSubmit(s.revoke.gen)))
  {
    StopperMeansStopping(s);
    if s.destroyed {
      assert AllStale(s);
    } else {
      assert StopPending(s);
    }
  }

  lemma DestroyCancelKeepsInv(s: Service)
    requires Inv(s) && s.main == DestroyCancel
    ensures Inv(MainNext(s))
  {
    var t := CancelActive(s);
    CancelKeepsLife(s, t);
    StaleForGood(t, t.(main := DestroySubmit));
  }

  lemma DestroyingChanges(s: Service)
    requires !NotDestroying(s.main) && s.main != DestroyCancel
    ensures var t := MainNext(s);
      && t.native == s.native && t.tunnelHandle == s.tunnelHandle && t.executor == s.executor
      && t.generation == s.generation && t.activeSession == s.activeSession && t.destroyed == s.destroyed
      && !NotDestroying(t.main)
      && (t.queue == s.queue || t.queue == s.queue + [FinalCleanup] || t.queue == [])
  {
    match s.main
    case DestroySubmit =>
    case DestroyShutdown =>
    case DestroyAwait =>
    case DestroyFinish =>
    case Gone =>
  }

  lemma DestroyingKeepsInv(s: Service)
    requires Inv(s) && !NotDestroying(s.main) && s.main != DestroyCancel
    ensures Inv(MainNext(s))
  {
    assert s.destroyed;
    DestroyingChanges(s);
    StaleForGood(s, MainNext(s));
  }

  lemma StaleForGood(s: Service, t: Service)
    requires s.destroyed && Life(s) && t.destroyed && !NotDestroying(t.main)
    requires t.generation == s.generation && t.executor == s.executor && t.activeSession == s.activeSession
    requires t.queue == s.queue || t.queue == s.queue + [FinalCleanup] || t.queue == []
    ensures Life(t)
  {
    assert AllStale(s);
  }

  /** A session that goes on, or turns to its failure, keeps the phase. */
  lemma SessionStepKeepsLife(s: Service, t: Service, g: nat)
    requires Inv(s) && RunsSession(s.executor, g) && RunsSession(t.executor, g)
    requires t == s.(executor := t.executor, native := t.native, tunnelHandle := t.tunnelHandle)
    requires t.executor.Connecting? ==> s.executor.Connecting? && t.tunnelHandle == s.tunnelHandle
    requires g < s.generation ==>
      (Quiet(s) ==> t.tunnelHandle == NO_HANDLE && InFlight(t.executor) == {} && !PastFirstCheck(t.executor))
    ensures Life(t)
  {
    if !s.destroyed && g == s.generation {
      assert s.state == CONNECTING && SessionRunning(s);
    }
  }

  lemma FromConnectingKeepsLife(s: Service, answer: Answer)
    requires Inv(s) && s.executor.Connecting?
    ensures Life(ExecutorNext(s, answer))
  {
    ConnectingMoves(s, answer);
    SessionStepKeepsLife(s, ExecutorNext(s, answer), s.executor.gen);
  }

  /** Whatever the answer, connectAwg stays with its session, and a stale one stops at its next check. */
  lemma ConnectingMoves(s: Service, answer: Answer)
    requires s.executor.Connecting?
    ensures var t := ExecutorNext(s, answer);
      && t == s.(executor := t.executor, native := t.native)
      && RunsSession(t.executor, s.executor.gen)
      && (s.executor.gen < s.generation && !PastFirstCheck(s.executor) ==>
            InFlight(t.executor) == {} && !PastFirstCheck(t.executor))
  {
  }

  lemma FromVerifyingKeepsLife(s: Service, answer: Answer)
    requires Inv(s) && s.executor.Verifying?
    ensures Life(ExecutorNext(s, answer))
  {
    if s.executor.step == Publish && Current(s, s.executor.gen) {
      PublishKeepsLife(s, answer);
    } else {
      var t := ExecutorNext(s, answer);
      assert t == s.(executor := t.executor);
      SessionStepKeepsLife(s, t, s.executor.gen);
    }
  }

  lemma PublishKeepsLife(s: Service, answer: Answer)
    requires Inv(s) && s.executor.Verifying? && s.executor.step == Publish && Current(s, s.executor.gen)
    ensures Life(ExecutorNext(s, answer))
  {
    if !s.destroyed {
      assert s.state == CONNECTING && SessionRunning(s);
    }
  }

  /** Before the native tunnel exists only the executor's position changes, until it is created. */
  lemma FromConnectingKeepsNative(s: Service, answer: Answer)
    requires Inv(s) && s.executor.Connecting?
    ensures Owned(ExecutorNext(s, answer)) && ClosedOnce(ExecutorNext(s, answer).native)
  {
    if s.executor.stage == Establish {
      EstablishKeepsNative(s, answer);
    } else {
      if s.executor.gen == s.generation {
        FirstCheckFindsNoHandle(s);
      }
      MovingKeepsNative(s, ExecutorNext(s, answer));
    }
  }

  /** A session that gets past its first check starts from a host without a tunnel. */
  lemma FirstCheckFindsNoHandle(s: Service)
    requires Inv(s) && s.executor.Connecting? && s.executor.gen == s.generation
    ensures s.tunnelHandle == NO_HANDLE && s.native.table == map[]
  {
    assert !s.destroyed && s.state == CONNECTING && SessionRunning(s);
  }

  /** The executor moves without creating, storing, taking or closing a handle. */
  lemma MovingKeepsNative(s: Service, t: Service)
    requires Owned(s) && ClosedOnce(s.native)
    requires s.native == t.native && s.tunnelHandle == t.tunnelHandle
    requires InFlight(s.executor) == {} == InFlight(t.executor)
    requires PastFirstCheck(t.executor) ==> s.tunnelHandle == NO_HANDLE
    requires t.executor.Verifying? ==> s.executor.Verifying? && s.executor.gen == t.executor.gen
    requires !t.executor.Finishing? && !t.executor.Clearing?
    ensures Owned(t) && ClosedOnce(t.native)
  {
  }

  /** The first tunnel of a host without one gets handle 0. */
  lemma FirstTunnel(n: NativeLibrary, g: nat)
    requires n.table == map[] && ClosedOnce(n)
    ensures LeastUnused(n.table.Keys) == 0
    ensures HandlesOwned(TurnOn(n, 0, g).table, NO_HANDLE, TurnedOn(g, 0)) && ClosedOnce(TurnOn(n, 0, g))
  {
  }

  lemma EstablishKeepsNative(s: Service, answer: Answer)
    requires Inv(s) && s.executor.Connecting? && s.executor.stage == Establish
    ensures Owned(ExecutorNext(s, answer)) && ClosedOnce(ExecutorNext(s, answer).native)
  {
    var g := s.executor.gen;
    assert s.tunnelHandle == NO_HANDLE && s.native.table == map[];
    FirstTunnel(s.native, g);
    if answer.Fail? {
      MovingKeepsNative(s, FailSession(s, g));
    } else {
      assert ExecutorNext(s, answer) == s.(native := TurnOn(s.native, 0, g), executor := TurnedOn(g, 0));
    }
  }

  lemma FromVerifyingKeepsNative(s: Service, answer: Answer)
    requires Inv(s) && s.executor.Verifying?
    ensures Owned(ExecutorNext(s, answer)) && ClosedOnce(ExecutorNext(s, answer).native)
  {
    VerifyingMoves(s, s.executor.gen, s.executor.step, answer);
    MovingKeepsNative(s, ExecutorNext(s, answer));
  }

  lemma VerifyingMoves(s: Service, g: nat, step: Verification, answer: Answer)
    requires s.executor == Verifying(g, step)
    ensures var t := VerifyingNext(s, g, step, answer);
      && t.native == s.native && t.tunnelHandle == s.tunnelHandle
      && (t.executor == Waiting || t.executor == Disconnecting(AfterFail(g))
          || (t.executor.Verifying? && t.executor.gen == g))
  {
    match step
    case ThirdCheck =>
    case Protect =>
    case Handshake =>
    case LastCheck =>
    case Publish =>
  }

  lemma FromWaitingKeepsNative(s: Service, answer: Answer)
    requires Inv(s) && s.executor.Waiting?
    ensures Owned(ExecutorNext(s, answer)) && ClosedOnce(ExecutorNext(s, answer).native)
  {
    if s.queue != [] {
      TakeMoves(s);
      MovingKeepsNative(s, TakeTask(s));
    }
  }

  /** A task begins with its profile or with the cleanup, and a cancelled session does not begin at all. */
  lemma TakeMoves(s: Service)
    requires s.executor.Waiting? && s.queue != []
    ensures var t := TakeTask(s);
      && t.native == s.native && t.tunnelHandle == s.tunnelHandle
      && (t.executor.Waiting? || t.executor.Disconnecting?
          || (t.executor.Connecting? && t.executor.stage == LoadProfile))
  {
    match s.queue[0]
    case Session(_) =>
    case Cleanup(_) =>
    case FinalCleanup =>
  }

  lemma FromWaitingKeepsLife(s: Service, answer: Answer)
    requires Inv(s) && s.executor.Waiting?
    ensures Life(ExecutorNext(s, answer))
  {
    if s.queue != [] {
      if s.destroyed {
        TakeWhenDestroyed(s);
      } else if s.state == STOPPING {
        if s.queue[0].Cleanup? {
          TakeCleanup(s);
        } else {
          TakeStaleSession(s);
        }
      } else {
        TakeSession(s);
      }
    }
  }

  lemma TakeCleanup(s: Service)
    requires Inv(s) && s.executor.Waiting? && s.queue != [] && s.state == STOPPING && !s.destroyed
    requires s.queue[0].Cleanup?
    ensures Life(TakeTask(s))
  {
    assert s.queue[0] in s.queue;
    StopQueueTail(s.queue, s.generation);
    assert StopPending(TakeTask(s));
  }

  lemma TakeStaleSession(s: Service)
    requires Inv(s) && s.executor.Waiting? && s.queue != [] && s.state == STOPPING && !s.destroyed
    requires !s.queue[0].Cleanup?
    ensures Life(TakeTask(s))
  {
    var t := TakeTask(s);
    assert s.queue[0] in s.queue;
    StopQueueTail(s.queue, s.generation);
    assert Cleanup(s.generation) in s.queue <==> Cleanup(s.generation) in t.queue;
    assert StopPending(t);
  }

  lemma StopQueueTail(q: seq<Task>, generation: nat)
    requires StopQueue(q, generation) && q != []
    ensures StopQueue(q[1..], generation)
    ensures q[0].Cleanup? ==> Cleanup(generation) !in q[1..]
    ensures !q[0].Cleanup? ==> (Cleanup(generation) in q <==> Cleanup(generation) in q[1..])
  {
    assert q == [q[0]] + q[1..];
    forall t | t in q[1..] ensures t in q {}
  }

  lemma TakeWhenDestroyed(s: Service)
    requires Inv(s) && s.executor.Waiting? && s.queue != [] && s.destroyed
    ensures Life(TakeTask(s))
  {
    assert s.queue[0] in s.queue;
    assert AllStale(TakeTask(s));
  }

  /** Of a queue that ends in the current session, behind stale ones, without its first task. */
  lemma BehindFirst(q: seq<Task>, generation: nat)
    requires |q| > 1 && OnlyStaleSessions(q[..|q| - 1], generation)
    ensures q[0].Session? && q[0].gen < generation
    ensures q[1..][|q| - 2] == q[|q| - 1] && OnlyStaleSessions(q[1..][..|q| - 2], generation)
  {
    var front := q[..|q| - 1];
    assert q[0] == front[0] && q[1..][..|q| - 2] == front[1..];
  }

  lemma TakePending(s: Service)
    requires Inv(s) && s.executor.Waiting? && s.state == CONNECTING && !s.destroyed && !s.main.SubmitSession?
    requires |s.queue| > 1
    ensures Life(TakeTask(s))
  {
    BehindFirst(s.queue, s.generation);
    assert SessionPending(TakeTask(s));
  }

  lemma TakeCurrent(s: Service)
    requires Inv(s) && s.executor.Waiting? && s.state == CONNECTING && !s.destroyed && !s.main.SubmitSession?
    requires |s.queue| == 1
    ensures Life(TakeTask(s))
  {
    assert SessionPending(s) && s.queue[0] == Session(s.generation);
    assert SessionRunning(TakeTask(s));
  }

  lemma TakeStale(s: Service)
    requires Inv(s) && s.executor.Waiting? && s.queue != [] && !s.destroyed
    requires OnlyStaleSessions(s.queue, s.generation) && Quiet(s)
    ensures var t := TakeTask(s);
      && Quiet(t) && OnlyStaleSessions(t.queue, t.generation) && t.generation == s.generation
      && t == s.(queue := t.queue, interrupted := t.interrupted, executor := t.executor)
  {
    assert s.queue[0] in s.queue;
    assert forall x :: x in s.queue[1..] ==> x in s.queue;
  }

  lemma TakeSession(s: Service)
    requires Inv(s) && s.executor.Waiting? && s.queue != [] && s.state != STOPPING && !s.destroyed
    ensures Life(TakeTask(s))
  {
    if s.state == CONNECTING && !s.main.SubmitSession? {
      if |s.queue| > 1 {
        TakePending(s);
      } else {
        TakeCurrent(s);
      }
    } else {
      TakeStale(s);
    }
  }

  lemma FromFinishingKeepsLife(s: Service, answer: Answer)
    requires Inv(s) && s.executor.Finishing?
    ensures Life(ExecutorNext(s, answer))
  {
    var t := ExecutorNext(s, answer);
    if !s.destroyed && t.state != s.state {
      assert Quiet(t);
    }
  }

  lemma CommandKeepsInv(s: Service, l: Label)
    requires Inv(s)
    requires l == StartCommand || l == StopCommand || l == DestroyCommand || l == RevokeCommand
    ensures Inv(Next(s, l))
  {
    match l
    case StartCommand => StartKeepsInv(s);
    case StopCommand => StopKeepsInv(s);
    case RevokeCommand => RevokeCommandKeepsInv(s);
    case DestroyCommand => DestroyKeepsInv(s);
  }

  lemma MainKeepsInv(s: Service)
    requires Inv(s)
    ensures Inv(MainNext(s))
  {
    match s.main
    case Ready =>
    case StartForeground(_) => StartForegroundKeepsInv(s);
    case SubmitSession(_) => SubmitSessionKeepsInv(s);
    case RecordTask(_) => RecordTaskKeepsInv(s);
    case StopCancel(_) => StopCancelKeepsInv(s);
    case StopSubmit(_) => StopSubmitKeepsInv(s);
    case DestroyCancel => DestroyCancelKeepsInv(s);
    case _ => DestroyingKeepsInv(s);
  }

  lemma RevokeKeepsInv(s: Service)
    requires Inv(s)
    ensures Inv(RevokeNext(s))
  {
    match s.revoke
    case NotRevoking =>
    case RevokeCancel(_) => RevokeCancelKeepsInv(s);
    case RevokeSubmit(_) => RevokeSubmitKeepsInv(s);
  }

  lemma ExecutorKeepsInv(s: Service, answer: Answer)
    requires Inv(s)
    ensures Inv(ExecutorNext(s, answer))
  {
    match s.executor
    case Waiting => FromWaitingKeepsNative(s, answer); FromWaitingKeepsLife(s, answer);
    case Connecting(_, _) => FromConnectingKeepsNative(s, answer); FromConnectingKeepsLife(s, answer);
    case TurnedOn(_, _) => FromTurnedOnKeepsNative(s, answer); FromTurnedOnKeepsLife(s, answer);
    case Verifying(_, _) => FromVerifyingKeepsNative(s, answer); FromVerifyingKeepsLife(s, answer);
    case Disconnecting(_) => FromDisconnectingKeepsNative(s, answer); FromDisconnectingKeepsLife(s, answer);
    case Clearing(_, _) => FromClearingKeepsNative(s, answer); FromClearingKeepsLife(s, answer);
    case TurningOff(_, _) => FromTurningOffKeepsNative(s, answer); FromTurningOffKeepsLife(s, answer);
    case Finishing(_) => FromFinishingKeepsNative(s, answer); FromFinishingKeepsLife(s, answer);
  }

  lemma StepKeepsInv(s: Service, l: Label)
    requires Inv(s)
    ensures Inv(Next(s, l))
  {
    match l
    case MainStep => MainKeepsInv(s);
    case RevokeStep => RevokeKeepsInv(s);
    case ExecutorStep(answer) => ExecutorKeepsInv(s, answer);
    case _ => CommandKeepsInv(s, l);
  }

  lemma {:induction false} RunKeepsInv(s: Service, ls: seq<Label>)
    requires Inv(s)
    ensures Inv(Run(s, ls))
    decreases |ls|
  {
    if ls != [] {
      StepKeepsInv(s, ls[0]);
      RunKeepsInv(Next(s, ls[0]), ls[1..]);
    }
  }

  // ---- What every run guarantees ----

  /**
   * In every interleaving at most one native tunnel lives, under handle 0; it is stored in
   * tunnelHandle or held by the executor between two of its steps; a call to awgTurnOff always
   * names a live tunnel; and the tunnels created are the live one and those closed, each once.
   */
  lemma SingleLiveTunnel(ls: seq<Label>)
    ensures var s := Run(INITIAL, ls);
      && s.native.table.Keys == Stored(s.tunnelHandle) + InFlight(s.executor)
      && Stored(s.tunnelHandle) * InFlight(s.executor) == {}
      && s.native.table.Keys <= {0} && |s.native.table| <= 1
      && (s.executor.TurningOff? ==> s.executor.handle in s.native.table)
      && (forall i, j :: 0 <= i < j < |s.native.turnedOff| ==> s.native.turnedOff[i] != s.native.turnedOff[j])
      && (forall h :: h in s.native.table ==> s.native.table[h].serial !in s.native.turnedOff)
      && s.native.turnedOn == |s.native.turnedOff| + |s.native.table|
  {
    InitialInv();
    RunKeepsInv(INITIAL, ls);
    var s := Run(INITIAL, ls);
    assert s.native.table.Keys == {} || s.native.table.Keys == {0};
    assert |s.native.table| == |s.native.table.Keys|;
  }

  /** A published connection belongs to the current session, which owns the stored live tunnel. */
  lemma ConnectedMeansLive(ls: seq<Label>)
    ensures var s := Run(INITIAL, ls);
      s.state == CONNECTED && !s.destroyed ==>
        && s.tunnelHandle in s.native.table
        && s.native.table[s.tunnelHandle].owner == s.generation
        && s.executor == Waiting && s.queue == []
  {
    RunKeepsInv(INITIAL, ls);
  }

  /** Step `l` is one of session `g`: of its start callback or of its task on the executor. */
  predicate StepOfSession(s: Service, l: Label, g: nat) {
    match l
    case MainStep => s.main == StartForeground(g) || s.main == SubmitSession(g) || s.main == RecordTask(g)
    case ExecutorStep(_) => RunsSession(s.executor, g)
    case _ => false
  }

  lemma StepGrows(s: Service, l: Label)
    ensures s.generation <= Next(s, l).generation
  {
    match l
    case MainStep =>
    case RevokeStep =>
    case ExecutorStep(answer) => ExecutorKeepsGeneration(s, answer);
    case _ =>
  }

  lemma ExecutorKeepsGeneration(s: Service, answer: Answer)
    ensures ExecutorNext(s, answer).generation == s.generation
  {
    match s.executor
    case Connecting(_, stage) =>
    case Verifying(_, step) =>
    case _ =>
  }

  lemma {:induction false} GenerationGrows(s: Service, ls: seq<Label>)
    ensures s.generation <= Run(s, ls).generation
    decreases |ls|
  {
    if ls != [] {
      StepGrows(s, ls[0]);
      GenerationGrows(Next(s, ls[0]), ls[1..]);
    }
  }

  /** Once the generation has moved past g, no step of session g ever changes the state again. */
  lemma StaleSessionIsSilent(s: Service, ls: seq<Label>, l: Label, g: nat)
    requires g < s.generation
    requires StepOfSession(Run(s, ls), l, g)
    ensures Next(Run(s, ls), l).state == Run(s, ls).state
  {
    GenerationGrows(s, ls);
  }

  // ---- Stopping completes ----

  /** Steps left in the executor's task, at most. */
  function ExecutorWork(e: Executor): nat {
    match e
    case Waiting => 0
    case Connecting(_, LoadProfile) => 15
    case Connecting(_, FirstCheck) => 14
    case Connecting(_, Resolve) => 13
    case Connecting(_, SecondCheck) => 12
    case Connecting(_, Establish) => 11
    case TurnedOn(_, _) => 10
    case Verifying(_, ThirdCheck) => 9
    case Verifying(_, Protect) => 8
    case Verifying(_, Handshake) => 7
    case Verifying(_, LastCheck) => 6
    case Verifying(_, Publish) => 5
    case Disconnecting(_) => 4
    case Clearing(_, _) => 3
    case TurningOff(_, _) => 2
    case Finishing(_) => 1
  }

  function QueueWork(q: seq<Task>): nat {
    if q == [] then 0 else (if q[0].Session? then 16 else 5) + QueueWork(q[1..])
  }

  function MainWork(m: MainThread): nat {
    match m
    case StartForeground(_) => 19
    case SubmitSession(_) => 18
    case RecordTask(_) => 1
    case StopCancel(_) => 7
    case StopSubmit(_) => 6
    case _ => 0
  }

  function RevokeWork(r: RevokeThread): nat {
    match r
    case NotRevoking => 0
    case RevokeCancel(_) => 7
    case RevokeSubmit(_) => 6
  }

  function Work(s: Service): nat {
    ExecutorWork(s.executor) + QueueWork(s.queue) + MainWork(s.main) + RevokeWork(s.revoke)
  }

  lemma {:induction false} QueueWorkAppend(q: seq<Task>, t: Task)
    ensures QueueWork(q + [t]) == QueueWork(q) + QueueWork([t])
  {
    if q == [] {
      assert q + [t] == [t];
    } else {
      assert (q + [t])[1..] == q[1..] + [t];
      QueueWorkAppend(q[1..], t);
    }
  }

  /** A stopping service: reachable, not destroyed, and its stop not yet complete. */
  ghost predicate Stopping(s: Service) {
    Inv(s) && !s.destroyed && s.state == STOPPING
  }

  /** A stop is complete: the service is idle and no tunnel lives. */
  predicate Stopped(s: Service) {
    s.state == IDLE && s.native.table == map[] && s.tunnelHandle == NO_HANDLE
  }

  /**
   * While a stop is pending no command starts a session: the generation stays, and the next step
   * either completes the stop with no tunnel alive or leaves the service stopping with less work,
   * unless it changed nothing at all.
   */
  lemma StoppingStep(s: Service, l: Label)
    requires Stopping(s) && l != DestroyCommand
    ensures var t := Next(s, l);
      && t.generation == s.generation
      && (Stopped(t) || (Stopping(t) && (t == s || Work(t) < Work(s))))
  {
    StepKeepsInv(s, l);
    match l
    case ExecutorStep(answer) => StoppingExecutorStep(s, answer);
    case MainStep => StoppingMainStep(s);
    case RevokeStep => StoppingRevokeStep(s);
    case _ =>
  }

  lemma StoppingMainStep(s: Service)
    requires Stopping(s)
    ensures var t := MainNext(s);
      t.generation == s.generation && !t.destroyed && t.state == STOPPING && (t == s || Work(t) < Work(s))
  {
    MainWorkDrops(s);
    match s.main
    case StartForeground(_) =>
    case _ =>
  }

  lemma MainWorkDrops(s: Service)
    requires NotDestroying(s.main)
    ensures MainNext(s) == s || Work(MainNext(s)) < Work(s)
  {
    match s.main
    case Ready =>
    case StartForeground(_) =>
    case SubmitSession(g) => QueueWorkAppend(s.queue, Session(g));
    case RecordTask(_) =>
    case StopCancel(_) =>
    case StopSubmit(g) => QueueWorkAppend(s.queue, Cleanup(g));
  }

  lemma StoppingRevokeStep(s: Service)
    requires Stopping(s)
    ensures var t := RevokeNext(s);
      t.generation == s.generation && !t.destroyed && t.state == STOPPING && (t == s || Work(t) < Work(s))
  {
    if s.revoke.RevokeSubmit? {
      QueueWorkAppend(s.queue, Cleanup(s.revoke.gen));
    }
  }

  /** A stale session or a cleanup never waits: each of its steps brings its task closer to the end. */
  lemma StaleExecutorMoves(s: Service, answer: Answer)
    requires StaleExecutor(s) && s.executor != Waiting && !s.executor.Finishing?
    ensures var t := ExecutorNext(s, answer);
      && t == s.(executor := t.executor, native := t.native, tunnelHandle := t.tunnelHandle)
      && ExecutorWork(t.executor) < ExecutorWork(s.executor)
  {
    match s.executor
    case Connecting(g, stage) => StaleConnectingMoves(s, g, stage, answer);
    case Verifying(g, step) => StaleVerifyingMoves(s, g, step, answer);
    case TurnedOn(_, _) =>
    case Disconnecting(_) =>
    case Clearing(_, _) =>
    case TurningOff(_, _) =>
  }

  lemma StaleConnectingMoves(s: Service, g: nat, stage: Stage, answer: Answer)
    requires s.executor == Connecting(g, stage) && g < s.generation
    ensures var t := ConnectingNext(s, g, stage, answer);
      && t == s.(executor := t.executor, native := t.native, tunnelHandle := t.tunnelHandle)
      && ExecutorWork(t.executor) < ExecutorWork(s.executor)
  {
    match stage
    case LoadProfile =>
    case FirstCheck =>
    case Resolve =>
    case SecondCheck =>
    case Establish =>
  }

  lemma StaleVerifyingMoves(s: Service, g: nat, step: Verification, answer: Answer)
    requires s.executor == Verifying(g, step) && g < s.generation
    ensures var t := VerifyingNext(s, g, step, answer);
      && t == s.(executor := t.executor, native := t.native, tunnelHandle := t.tunnelHandle)
      && ExecutorWork(t.executor) < ExecutorWork(s.executor)
  {
    match step
    case ThirdCheck =>
    case Protect =>
    case Handshake =>
    case LastCheck =>
    case Publish =>
  }

  lemma StoppingExecutorStep(s: Service, answer: Answer)
    requires Stopping(s)
    ensures var t := ExecutorNext(s, answer);
      && t.generation == s.generation && !t.destroyed
      && (Stopped(t) || (t.state == STOPPING && (t == s || Work(t) < Work(s))))
  {
    assert StaleExecutor(s);
    if s.executor.Finishing? {
      assert s.tunnelHandle == NO_HANDLE && s.native.table == map[];
    } else if s.executor != Waiting {
      StaleExecutorMoves(s, answer);
    }
  }

  /** A stopping service never waits in vain: some thread can move it, whatever the environment answers. */
  lemma StoppingCanMove(s: Service, answer: Answer)
    requires Stopping(s)
    ensures Next(s, MainStep) != s || Next(s, RevokeStep) != s || Next(s, ExecutorStep(answer)) != s
  {
    assert StopPending(s);
    if s.main.StopCancel? || s.main.StopSubmit? {
      assert MainNext(s).main != s.main;
    } else if s.revoke != NotRevoking {
      assert RevokeNext(s).revoke != s.revoke;
    } else {
      ExecutorCanMove(s, answer);
    }
  }

  lemma ExecutorCanMove(s: Service, answer: Answer)
    requires StaleExecutor(s) && (s.executor != Waiting || s.queue != [])
    ensures ExecutorNext(s, answer) != s
  {
    if s.executor == Waiting {
      assert |TakeTask(s).queue| < |s.queue|;
    } else if !s.executor.Finishing? {
      StaleExecutorMoves(s, answer);
    }
  }

  // How runs go on after one another is the same for every step function.

  /** The run ends in `t`, and none of its steps changes the generation. */
  predicate NoStart(next: (Service, Label) -> Service, s: Service, ls: seq<Label>, t: Service)
    decreases |ls|
  {
    if ls == [] then s == t
    else next(s, ls[0]).generation == s.generation && NoStart(next, next(s, ls[0]), ls[1..], t)
  }

  /** After k steps of the run the stop is complete, and none of them changes the generation. */
  predicate StopsAt(next: (Service, Label) -> Service, s: Service, ls: seq<Label>, k: nat)
    decreases |ls|
  {
    if k == 0 then Stopped(s)
    else
      && ls != [] && next(s, ls[0]).generation == s.generation
      && StopsAt(next, next(s, ls[0]), ls[1..], k - 1)
  }

  lemma {:induction false} StopsWithin(next: (Service, Label) -> Service, s: Service, a: seq<Label>, b: seq<Label>,
                                       k: nat)
    requires StopsAt(next, s, a, k)
    ensures StopsAt(next, s, a + b, k)
    decreases |a|
  {
    if k > 0 {
      StopsWithin(next, next(s, a[0]), a[1..], b, k - 1);
      assert (a + b)[0] == a[0] && (a + b)[1..] == a[1..] + b;
    }
  }

  lemma {:induction false} StopsLater(next: (Service, Label) -> Service, s: Service, a: seq<Label>, t: Service,
                                      b: seq<Label>, k: nat)
    requires NoStart(next, s, a, t) && StopsAt(next, t, b, k)
    ensures StopsAt(next, s, a + b, |a| + k)
    decreases |a|
  {
    if a == [] {
      assert a + b == b;
    } else {
      StopsLater(next, next(s, a[0]), a[1..], t, b, k);
      assert (a + b)[0] == a[0] && (a + b)[1..] == a[1..] + b;
    }
  }

  /** The same, by the states in which the beginnings of the run end. */
  lemma {:induction false} StopsAtMeans(s: Service, ls: seq<Label>, k: nat, j: nat)
    requires StopsAt(Next, s, ls, k) && j <= k
    ensures k <= |ls| && Stopped(Run(s, ls[..k])) && Run(s, ls[..j]).generation == s.generation
    decreases |ls|
  {
    if k > 0 {
      StopsAtMeans(Next(s, ls[0]), ls[1..], k - 1, if j > 0 then j - 1 else 0);
      RunPrefix(s, ls, k);
      if j > 0 {
        RunPrefix(s, ls, j);
      }
    }
  }

  /** None of the labels stands for a step that changes the service. */
  predicate Unmoved(next: (Service, Label) -> Service, s: Service, ls: seq<Label>) {
    forall l :: l in ls ==> next(s, l) == s
  }

  /** The run ends in `t`, with less work left unless no step moved. */
  predicate UsesUpWork(next: (Service, Label) -> Service, s: Service, ls: seq<Label>, t: Service) {
    && NoStart(next, s, ls, t) && Work(t) <= Work(s)
    && (Work(t) == Work(s) ==> Unmoved(next, s, ls))
  }

  lemma UsesUpMore(next: (Service, Label) -> Service, s: Service, ls: seq<Label>, u: Service, t: Service)
    requires ls != [] && u == next(s, ls[0]) && u.generation == s.generation
    requires (u == s || Work(u) < Work(s)) && UsesUpWork(next, u, ls[1..], t)
    ensures UsesUpWork(next, s, ls, t)
  {
    assert ls == [ls[0]] + ls[1..];
  }

  lemma StopsNext(next: (Service, Label) -> Service, s: Service, ls: seq<Label>, u: Service, k: nat)
    requires ls != [] && u == next(s, ls[0]) && u.generation == s.generation && StopsAt(next, u, ls[1..], k)
    ensures StopsAt(next, s, ls, k + 1)
  {
  }

  /** The run completes the stop after k steps, or goes on stopping to `t` and uses up work. */
  ghost predicate StopsOrWorks(next: (Service, Label) -> Service, s: Service, ls: seq<Label>, k: nat, t: Service) {
    StopsAt(next, s, ls, k) || (Stopping(t) && UsesUpWork(next, s, ls, t))
  }

  lemma StopsOrWorksMore(next: (Service, Label) -> Service, s: Service, ls: seq<Label>, u: Service, k: nat, t: Service)
    requires ls != [] && u == next(s, ls[0]) && u.generation == s.generation && (u == s || Work(u) < Work(s))
    requires StopsOrWorks(next, u, ls[1..], k, t)
    ensures StopsOrWorks(next, s, ls, k + 1, t)
  {
    if StopsAt(next, u, ls[1..], k) {
      StopsNext(next, s, ls, u, k);
    } else {
      UsesUpMore(next, s, ls, u, t);
    }
  }

  /** Each step completes a pending stop, or leaves it pending and does nothing or some of the work. */
  ghost predicate StepsStop(next: (Service, Label) -> Service) {
    forall s, l {:trigger next(s, l)} :: Stopping(s) && l != DestroyCommand ==>
      && next(s, l).generation == s.generation
      && (Stopped(next(s, l)) || (Stopping(next(s, l)) && (next(s, l) == s || Work(next(s, l)) < Work(s))))
  }

  lemma EveryStepStops()
    ensures StepsStop(Next)
  {
    forall s, l {:trigger Next(s, l)} | Stopping(s) && l != DestroyCommand
      ensures Next(s, l).generation == s.generation
      ensures Stopped(Next(s, l)) || (Stopping(Next(s, l)) && (Next(s, l) == s || Work(Next(s, l)) < Work(s)))
    {
      StoppingStep(s, l);
    }
  }

  /** Running `ls` from a stopping service stops it at some point, or uses up work unless no step moved. */
  lemma {:induction false} StoppingRun(next: (Service, Label) -> Service, s: Service, ls: seq<Label>)
    returns (k: nat, t: Service)
    requires StepsStop(next) && Stopping(s) && DestroyCommand !in ls
    ensures StopsOrWorks(next, s, ls, k, t)
    decreases |ls|
  {
    if ls == [] {
      return 0, s;
    }
    var u := next(s, ls[0]);
    if Stopped(u) {
      k, t := 1, u;
      StopsNext(next, s, ls, u, 0);
    } else {
      k, t := StoppingRun(next, u, ls[1..]);
      StopsOrWorksMore(next, s, ls, u, k, t);
      k := k + 1;
    }
  }

  lemma RunPrefix(s: Service, ls: seq<Label>, j: nat)
    requires 0 < j <= |ls|
    ensures Run(s, ls[..j]) == Run(Next(s, ls[0]), ls[1..][..j - 1])
  {
    assert ls[..j][0] == ls[0] && ls[..j][1..] == ls[1..][..j - 1];
  }

  /** A stretch of a run in which every thread gets a turn, among anything else but a destroy. */
  ghost predicate FairRound(r: seq<Label>) {
    MainStep in r && RevokeStep in r && (exists a :: ExecutorStep(a) in r) && DestroyCommand !in r
  }

  function Flatten(rounds: seq<seq<Label>>): seq<Label> {
    if rounds == [] then [] else rounds[0] + Flatten(rounds[1..])
  }

  /** One fair round completes the stop, or uses up work. */
  lemma FairRoundStops(s: Service, r: seq<Label>) returns (k: nat, t: Service)
    requires Stopping(s) && FairRound(r)
    ensures StopsAt(Next, s, r, k) || (Stopping(t) && Work(t) < Work(s) && NoStart(Next, s, r, t))
  {
    EveryStepStops();
    k, t := StoppingRun(Next, s, r);
    FairRoundWorks(s, r);
  }

  lemma {:induction false} FairRoundsStop(s: Service, rounds: seq<seq<Label>>) returns (k: nat)
    requires Stopping(s) && |rounds| > Work(s)
    requires forall r :: r in rounds ==> FairRound(r)
    ensures StopsAt(Next, s, Flatten(rounds), k)
    decreases |rounds|
  {
    var r, rest := rounds[0], rounds[1..];
    assert FairRound(r);
    var t;
    k, t := FairRoundStops(s, r);
    if StopsAt(Next, s, r, k) {
      StopsWithin(Next, s, r, Flatten(rest), k);
    } else {
      k := FairRoundsStop(t, rest);
      StopsLater(Next, s, r, t, Flatten(rest), k);
      k := |r| + k;
    }
  }

  /**
   * Stop completes: once a stop is pending, any run of more than Work(s) fair rounds reaches a
   * service that is idle with no tunnel alive, and no start advances the generation before that.
   */
  lemma StopCompletes(s: Service, rounds: seq<seq<Label>>) returns (k: nat)
    requires Stopping(s) && |rounds| > Work(s)
    requires forall r :: r in rounds ==> FairRound(r)
    ensures k <= |Flatten(rounds)| && Stopped(Run(s, Flatten(rounds)[..k]))
    ensures forall j :: 0 <= j <= k ==> Run(s, Flatten(rounds)[..j]).generation == s.generation
  {
    k := FairRoundsStop(s, rounds);
    StopsAtMeans(s, Flatten(rounds), k, 0);
    forall j | 0 <= j <= k ensures Run(s, Flatten(rounds)[..j]).generation == s.generation {
      StopsAtMeans(s, Flatten(rounds), k, j);
    }
  }

  /** A fair round that leaves the service where it was would contradict that some thread can move. */
  lemma FairRoundWorks(s: Service, r: seq<Label>)
    requires Stopping(s) && FairRound(r)
    ensures !Unmoved(Next, s, r)
  {
    var a :| ExecutorStep(a) in r;
    StoppingCanMove(s, a);
  }

  // ---- Destroying ----

  /** onDestroy's own cleanup is still to run, or is running, or there is nothing left to clean up. */
  predicate CleanupDue(s: Service) {
    FinalCleanup in s.queue || s.executor != Waiting || s.native.table == map[]
  }

  /** How far onDestroy has come with the executor. */
  predicate Leaving(s: Service) {
    match s.main
    case DestroyCancel => s.accepting
    case DestroySubmit => s.accepting
    case DestroyShutdown => s.accepting && CleanupDue(s)
    case DestroyAwait => !s.accepting && CleanupDue(s)
    case DestroyFinish => !s.accepting && s.queue == []
    case Gone => !s.accepting && s.queue == []
    case _ => true
  }

  lemma LeavingIsDestroyed(s: Service)
    requires Inv(s) && !NotDestroying(s.main)
    ensures s.destroyed && StaleExecutor(s)
  {
  }

  lemma NothingStored(s: Service)
    requires Owned(s) && s.tunnelHandle == NO_HANDLE && InFlight(s.executor) == {}
    ensures s.native.table == map[]
  {
    assert s.native.table.Keys == {};
  }

  /** A stale task that ends leaves no tunnel: each ends in disconnectAwg. */
  lemma StaleTaskEnds(s: Service, answer: Answer)
    requires Inv(s) && StaleExecutor(s) && s.executor != Waiting
    ensures var t := ExecutorNext(s, answer);
      && t == s.(executor := t.executor, native := t.native, tunnelHandle := t.tunnelHandle, state := t.state)
      && ExecutorWork(t.executor) < ExecutorWork(s.executor)
      && (t.executor == Waiting ==> t.native.table == map[])
  {
    if s.executor.Finishing? {
      NothingStored(s);
    } else {
      StaleExecutorMoves(s, answer);
      NotYetWaiting(s, answer);
    }
  }

  lemma NotYetWaiting(s: Service, answer: Answer)
    requires StaleExecutor(s) && s.executor != Waiting && !s.executor.Finishing?
    ensures ExecutorNext(s, answer).executor != Waiting
  {
    match s.executor
    case Connecting(g, stage) =>
      match stage {
        case LoadProfile =>
        case FirstCheck =>
        case Resolve =>
        case SecondCheck =>
        case Establish =>
      }
    case Verifying(g, step) =>
      match step {
        case ThirdCheck =>
        case Protect =>
        case Handshake =>
        case LastCheck =>
        case Publish =>
      }
    case TurnedOn(_, _) =>
    case Disconnecting(_) =>
    case Clearing(_, _) =>
    case TurningOff(_, _) =>
  }

  lemma TakeKeepsDue(s: Service)
    requires s.executor == Waiting && s.queue != [] && CleanupDue(s)
    ensures CleanupDue(TakeTask(s))
  {
    assert s.queue == [s.queue[0]] + s.queue[1..];
    match s.queue[0]
    case Session(_) =>
    case Cleanup(_) =>
    case FinalCleanup =>
  }

  lemma TakeKeepsRest(s: Service)
    requires s.queue != []
    ensures TakeTask(s).main == s.main && TakeTask(s).accepting == s.accepting
  {
    match s.queue[0]
    case Session(_) =>
    case Cleanup(_) =>
    case FinalCleanup =>
  }

  lemma ExecutorKeepsLeaving(s: Service, answer: Answer)
    requires Inv(s) && Leaving(s) && !NotDestroying(s.main)
    ensures Leaving(ExecutorNext(s, answer)) && ExecutorNext(s, answer).main == s.main
  {
    LeavingIsDestroyed(s);
    if s.executor != Waiting {
      StaleTaskEnds(s, answer);
    } else if s.queue != [] {
      TakeKeepsRest(s);
      if CleanupDue(s) {
        TakeKeepsDue(s);
      }
    }
  }

  lemma MainKeepsLeaving(s: Service)
    requires Inv(s) && Leaving(s) && !NotDestroying(s.main)
    ensures Leaving(MainNext(s)) && !NotDestroying(MainNext(s).main)
  {
    match s.main
    case DestroyCancel => CancelChanges(s);
    case DestroySubmit => assert FinalCleanup in (s.queue + [FinalCleanup]);
    case DestroyShutdown =>
    case DestroyAwait =>
    case DestroyFinish =>
    case Gone =>
  }

  lemma RevokeKeepsLeaving(s: Service)
    requires Inv(s) && Leaving(s) && !NotDestroying(s.main)
    ensures Leaving(RevokeNext(s)) && RevokeNext(s).main == s.main
  {
    CancelChanges(s);
    match s.revoke
    case NotRevoking =>
    case RevokeCancel(_) =>
    case RevokeSubmit(g) => assert FinalCleanup in s.queue ==> FinalCleanup in s.queue + [Cleanup(g)];
  }

  /** Before onDestroy, its first step finds an executor that still accepts tasks. */
  lemma DestroyBegins(s: Service, l: Label)
    requires Inv(s) && NotDestroying(s.main)
    ensures Leaving(Next(s, l))
  {
    match l
    case MainStep => EarlyMain(s);
    case ExecutorStep(answer) => ExecutorKeepsMain(s, answer);
    case _ =>
  }

  lemma EarlyMain(s: Service)
    requires NotDestroying(s.main)
    ensures NotDestroying(MainNext(s).main)
  {
    match s.main
    case StopCancel(_) => CancelChanges(s);
    case _ =>
  }

  lemma ExecutorKeepsMain(s: Service, answer: Answer)
    ensures ExecutorNext(s, answer).main == s.main
  {
    match s.executor
    case Waiting =>
      if s.queue != [] {
        TakeKeepsRest(s);
      }
    case Connecting(_, _) =>
    case Verifying(_, _) =>
    case _ =>
  }

  lemma StepKeepsLeaving(s: Service, l: Label)
    requires Inv(s) && Leaving(s)
    ensures Leaving(Next(s, l))
  {
    if NotDestroying(s.main) {
      DestroyBegins(s, l);
    } else {
      match l
      case MainStep => MainKeepsLeaving(s);
      case RevokeStep => RevokeKeepsLeaving(s);
      case ExecutorStep(answer) => ExecutorKeepsLeaving(s, answer);
      case _ =>
    }
  }

  lemma {:induction false} RunKeepsLeaving(s: Service, ls: seq<Label>)
    requires Inv(s) && Leaving(s)
    ensures Inv(Run(s, ls)) && Leaving(Run(s, ls))
    decreases |ls|
  {
    if ls != [] {
      StepKeepsInv(s, ls[0]);
      StepKeepsLeaving(s, ls[0]);
      RunKeepsLeaving(Next(s, ls[0]), ls[1..]);
    }
  }

  /** onDestroy has given up waiting: nothing is queued, and nothing can be any more. */
  ghost predicate Drained(s: Service) {
    Inv(s) && (s.main == DestroyFinish || s.main == Gone) && !s.accepting && s.queue == []
  }

  /** What a step does to the tunnels once nothing is queued. */
  predicate OnlyEnds(s: Service, t: Service) {
    if s.executor == Waiting then t.executor == Waiting && t.native == s.native
    else
      && ExecutorWork(t.executor) <= ExecutorWork(s.executor)
      && (t.executor == Waiting ==> t.native.table == map[])
  }

  lemma DrainedStays(s: Service, l: Label)
    requires Drained(s)
    ensures Drained(Next(s, l))
  {
    StepKeepsInv(s, l);
    StepKeepsLeaving(s, l);
    LeavingIsDestroyed(s);
    match l
    case ExecutorStep(answer) => DrainedTurn(s, answer);
    case MainStep =>
    case RevokeStep => RevokeKeepsExecutor(s);
    case _ =>
  }

  lemma DrainedStep(s: Service, l: Label)
    requires Drained(s)
    ensures var t := Next(s, l);
      && OnlyEnds(s, t)
      && (l.ExecutorStep? && s.executor != Waiting ==> ExecutorWork(t.executor) < ExecutorWork(s.executor))
  {
    LeavingIsDestroyed(s);
    match l
    case ExecutorStep(answer) => DrainedTurn(s, answer);
    case MainStep =>
    case RevokeStep => RevokeKeepsExecutor(s);
    case _ =>
  }

  lemma DrainedTurn(s: Service, answer: Answer)
    requires Drained(s) && StaleExecutor(s)
    ensures var t := ExecutorNext(s, answer);
      && t.main == s.main && t.accepting == s.accepting && t.queue == s.queue && OnlyEnds(s, t)
      && (s.executor != Waiting ==> ExecutorWork(t.executor) < ExecutorWork(s.executor))
  {
    if s.executor != Waiting {
      StaleTaskEnds(s, answer);
    }
  }

  lemma RevokeKeepsExecutor(s: Service)
    ensures RevokeNext(s).executor == s.executor && RevokeNext(s).native == s.native && RevokeNext(s).main == s.main
  {
    CancelChanges(s);
    match s.revoke
    case NotRevoking =>
    case RevokeCancel(_) =>
    case RevokeSubmit(_) =>
  }

  /** How many of the steps are the executor's. */
  function Turns(ls: seq<Label>): nat {
    if ls == [] then 0 else (if ls[0].ExecutorStep? then 1 else 0) + Turns(ls[1..])
  }

  lemma {:induction false} DrainedRun(s: Service, ls: seq<Label>)
    requires Drained(s)
    ensures Drained(Run(s, ls)) && OnlyEnds(s, Run(s, ls))
    ensures Turns(ls) >= ExecutorWork(s.executor) ==> Run(s, ls).executor == Waiting
    decreases |ls|
  {
    if ls != [] {
      DrainedStays(s, ls[0]);
      DrainedStep(s, ls[0]);
      DrainedRun(Next(s, ls[0]), ls[1..]);
    }
  }

  /** The executor has not even begun onDestroy's cleanup, and a tunnel is up. */
  predicate Overtaken(s: Service) {
    s.executor == Waiting && FinalCleanup in s.queue && s.tunnelHandle != NO_HANDLE
  }

  lemma AwaitDrains(s: Service)
    requires Inv(s) && Leaving(s) && s.main == DestroyAwait
    ensures Drained(MainNext(s)) && MainNext(s).executor == s.executor && MainNext(s).native == s.native
    ensures s.executor == Waiting ==> (s.native.table == map[] <==> !Overtaken(s))
  {
    StepKeepsInv(s, MainStep);
    MainKeepsLeaving(s);
    if s.executor == Waiting {
      if s.tunnelHandle == NO_HANDLE {
        NothingStored(s);
      } else {
        assert s.tunnelHandle in s.native.table;
      }
    }
  }

  /**
   * What a destroy leaves, over every run in which onDestroy gives up waiting: once the executor has
   * had the turns that its task still needs, it is idle with an empty queue, and no tunnel lives if
   * and only if the shutdown did not overtake the cleanup. If it did, the tunnel lives from then on.
   */
  lemma DestroyCloses(before: seq<Label>, after: seq<Label>)
    requires Run(INITIAL, before).main == DestroyAwait
    ensures var s := Run(INITIAL, before);
      var end := Run(MainNext(s), after);
      && (Turns(after) >= ExecutorWork(s.executor) ==>
            end.executor == Waiting && end.queue == [] && (end.native.table == map[] <==> !Overtaken(s)))
      && (Overtaken(s) ==> end.native == s.native && end.native.table != map[])
  {
    InitialInv();
    RunKeepsLeaving(INITIAL, before);
    var s := Run(INITIAL, before);
    AwaitDrains(s);
    DrainedRun(MainNext(s), after);
  }

  // ---- The shutdown can overtake the cleanup ----

  lemma {:induction false} RunAppend(s: Service, a: seq<Label>, b: seq<Label>)
    ensures Run(s, a + b) == Run(Run(s, a), b)
    decreases |a|
  {
    if a == [] {
      assert a + b == b;
    } else {
      assert (a + b)[0] == a[0] && (a + b)[1..] == a[1..] + b;
      RunAppend(Next(s, a[0]), a[1..], b);
    }
  }

  function Repeated(l: Label, n: nat): seq<Label> {
    if n == 0 then [] else [l] + Repeated(l, n - 1)
  }

  lemma RepeatedStep(s: Service, l: Label, n: nat)
    ensures Run(s, Repeated(l, n + 1)) == Run(Next(s, l), Repeated(l, n))
  {
    assert Repeated(l, n + 1)[1..] == Repeated(l, n);
  }

  lemma CommandThenSteps(s: Service, l: Label, n: nat)
    ensures Run(s, [l] + Repeated(MainStep, n)) == Run(Next(s, l), Repeated(MainStep, n))
  {
    assert ([l] + Repeated(MainStep, n))[1..] == Repeated(MainStep, n);
  }

  /** The first session, submitted; and connected. */
  const SUBMITTED :=
    INITIAL.(state := CONNECTING, generation := 1, queue := [Session(1)], activeSession := 1)

  const TUNNEL := NativeLibrary(map[0 := Tunnel(0, 1)], 1, [])

  const UP :=
    SUBMITTED.(state := CONNECTED, queue := [], tunnelHandle := 0, native := TUNNEL)

  lemma StartIsSubmitted()
    ensures Run(INITIAL, [StartCommand] + Repeated(MainStep, 3)) == SUBMITTED
  {
    CommandThenSteps(INITIAL, StartCommand, 3);
    RepeatedStep(INITIAL.(state := PREPARING, generation := 1, main := StartForeground(1)), MainStep, 2);
    SessionSubmitted();
  }

  lemma SessionSubmitted()
    ensures SUBMITTED ==
      Run(INITIAL.(state := CONNECTING, generation := 1, main := SubmitSession(1)), Repeated(MainStep, 2))
  {
    var s := INITIAL.(state := CONNECTING, generation := 1);
    RepeatedStep(s.(main := SubmitSession(1)), MainStep, 1);
    assert [] + [Session(1)] == [Session(1)];
    RepeatedStep(s.(queue := [Session(1)], main := RecordTask(1)), MainStep, 0);
  }

  lemma SessionEstablishes()
    ensures Run(SUBMITTED.(queue := [], executor := Connecting(1, Resolve)), Repeated(ExecutorStep(Succeed), 3)) ==
      SUBMITTED.(queue := [], native := TUNNEL, executor := TurnedOn(1, 0))
  {
    var l, s := ExecutorStep(Succeed), SUBMITTED.(queue := []);
    RepeatedStep(s.(executor := Connecting(1, Resolve)), l, 2);
    RepeatedStep(s.(executor := Connecting(1, SecondCheck)), l, 1);
    InitialInv();
    FirstTunnel(NO_TUNNELS, 1);
    assert TurnOn(NO_TUNNELS, 0, 1) == TUNNEL;
    RepeatedStep(s.(executor := Connecting(1, Establish)), l, 0);
  }

  lemma SessionTurnsOn()
    ensures Run(SUBMITTED, Repeated(ExecutorStep(Succeed), 6)) ==
      SUBMITTED.(queue := [], native := TUNNEL, executor := TurnedOn(1, 0))
  {
    var l, s := ExecutorStep(Succeed), SUBMITTED.(queue := []);
    assert [Session(1)][1..] == [];
    RepeatedStep(SUBMITTED, l, 5);
    RepeatedStep(s.(executor := Connecting(1, LoadProfile)), l, 4);
    RepeatedStep(s.(executor := Connecting(1, FirstCheck)), l, 3);
    SessionEstablishes();
  }

  lemma SessionPublishes()
    ensures Run(UP.(state := CONNECTING, executor := Verifying(1, Handshake)), Repeated(ExecutorStep(Succeed), 3)) == UP
  {
    var l, s := ExecutorStep(Succeed), UP.(state := CONNECTING);
    RepeatedStep(s.(executor := Verifying(1, Handshake)), l, 2);
    RepeatedStep(s.(executor := Verifying(1, LastCheck)), l, 1);
    RepeatedStep(s.(executor := Verifying(1, Publish)), l, 0);
  }

  lemma SessionConnects()
    ensures Run(SUBMITTED.(queue := [], native := TUNNEL, executor := TurnedOn(1, 0)),
      Repeated(ExecutorStep(Succeed), 6)) == UP
  {
    var l, s := ExecutorStep(Succeed), UP.(state := CONNECTING);
    RepeatedStep(s.(tunnelHandle := NO_HANDLE, executor := TurnedOn(1, 0)), l, 5);
    RepeatedStep(s.(executor := Verifying(1, ThirdCheck)), l, 4);
    RepeatedStep(s.(executor := Verifying(1, Protect)), l, 3);
    SessionPublishes();
  }

  lemma DestroyAwaits()
    ensures Run(UP, [DestroyCommand] + Repeated(MainStep, 3)) ==
      UP.(generation := 2, destroyed := true, queue := [FinalCleanup], accepting := false, main := DestroyAwait)
  {
    CommandThenSteps(UP, DestroyCommand, 3);
    var s := UP.(generation := 2, destroyed := true);
    RepeatedStep(s.(main := DestroyCancel), MainStep, 2);
    RepeatedStep(s.(main := DestroySubmit), MainStep, 1);
    assert [] + [FinalCleanup] == [FinalCleanup];
    RepeatedStep(s.(queue := [FinalCleanup], main := DestroyShutdown), MainStep, 0);
  }

  /** A run in which it does: a session connects, and onDestroy gives up before the executor takes its cleanup. */
  lemma OvertakenIsReachable() returns (ls: seq<Label>)
    ensures var s := Run(INITIAL, ls); s.main == DestroyAwait && Overtaken(s)
  {
    var start, destroy := [StartCommand] + Repeated(MainStep, 3), [DestroyCommand] + Repeated(MainStep, 3);
    var half := Repeated(ExecutorStep(Succeed), 6);
    ls := start + half + half + destroy;
    StartIsSubmitted();
    SessionTurnsOn();
    SessionConnects();
    DestroyAwaits();
    RunAppend(INITIAL, start, half);
    RunAppend(INITIAL, start + half, half);
    RunAppend(INITIAL, start + half + half, destroy);
  }
}
