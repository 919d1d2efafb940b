/** A transactional live test: try a candidate, verify it, commit it or go back to the earlier intent. */
module LiveTest {
  import opened Wrappers
  import opened StateStore
  import opened Text

  datatype Event = Raise(protocol: string, profile: string) | Lower | Verify

  datatype Outcome = Outcome(passed: bool, rolledBack: bool, reason: string, timedOut: bool)

  /** A run without a store panics when it comes to commit. */
  datatype RunResult = NotConfigured | Panicked | Done(outcome: Outcome)

  /** What the connector, the verifier, the deadline and the disk answer in one run. */
  datatype Script = Script(
    readable: bool, up: bool, upError: string, lateAtUp: bool,
    verified: bool, reason: string, lateAtVerify: bool,
    commit: Fault, commitError: string, restore: Fault)

  function Candidate(protocol: string, profile: string): State {
    State(protocol, profile, "up", "normal", "", 0)
  }

  /** The snapshot of the earlier intent: none if it cannot be read. */
  function Previous(file: Option<string>, readable: bool): Option<State> {
    var r := Answer(file, readable);
    if r.Ok? then Some(r.value) else None
  }

  /** The commit replaced the file and then reported an error. */
  predicate LandedInError(s: Script, candidate: State) {
    s.up && s.verified && Accepted(candidate) && s.commit == AfterRename
  }

  /** The connector's part in going back. */
  function Restart(previous: Option<State>): seq<Event> {
    if previous.Some? && previous.value.desired == "up"
    then [Raise(previous.value.protocol, previous.value.profile)]
    else []
  }

  /** The file after a run that did not pass. */
  function After(s: Script, candidate: State, file: Option<string>): Option<string> {
    var previous := Previous(file, s.readable);
    if previous.Some? && s.restore != BeforeRename then Some(StateText(previous.value))
    else if LandedInError(s, candidate) then Some(StateText(candidate))
    else file
  }

  /**
   * The candidate's file says the same as the earlier one: the normalized candidate, if its lines
   * carry it; the candidate less a carriage return at the ends of its lines, or why there is none,
   * if they hold no newline; and whatever the pieces say if they do.
   */
  predicate SaysTheSame(candidate: State, before: Result<State, ReadError>) {
    if CanonicalProtocol(candidate.protocol).Some? && Faithful(candidate) then before == Ok(Normalize(candidate))
    else if NoNewline(candidate) then before == Shortened(candidate)
    else before == StateRead(StateText(candidate))
  }

  /** A candidate as it is read from lines without their carriage returns. */
  function Shortened(candidate: State): Result<State, ReadError> {
    var protocol, profile := DropCr(candidate.protocol), DropCr(Base(candidate.profile));
    if !AllFit(StatePairs(candidate)) then Err(LineTooLong)
    else if CanonicalProtocol(protocol).None? then Err(UnknownProtocol(protocol))
    else if profile == "" then Err(MissingProfile)
    else Ok(State(CanonicalProtocol(protocol).value, profile, "up", "normal", "", 0))
  }

  /**
   * Whether a run that did not pass leaves the earlier intent: if it was written again, exactly when
   * it is settled; if the candidate's file stayed, when that says the same; and if neither was
   * written, always.
   */
  predicate Keeps(s: Script, candidate: State, file: Option<string>) {
    var previous := Previous(file, s.readable);
    if previous.Some? && s.restore != BeforeRename then Settled(previous.value)
    else LandedInError(s, candidate) ==> SaysTheSame(candidate, Intent(file))
  }

  class Tester {
    const store: Store?
    const configured: bool
    var log: seq<Event>

    constructor (store: Store?, configured: bool)
      ensures this.store == store && this.configured == configured && log == []
    {
      this.store, this.configured, log := store, configured, [];
    }

    function File(): Option<string>
      reads this, store
    {
      if store == null then None else store.file
    }

    method Snapshot(readable: bool) returns (r: Option<State>)
      ensures r == Previous(File(), readable)
    {
      if store == null {
        return None;
      }
      var st := store.Read(readable);
      r := if st.Ok? then Some(st.value) else None;
    }

    /** Tears the candidate down, restores the earlier intent as it was read, and raises it if it was up. */
    method Rollback(previous: Option<State>, restore: Fault, reason: string, late: bool) returns (o: Outcome)
      requires previous.Some? ==> store != null && Accepted(previous.value)
      modifies this, store
      ensures o == Outcome(false, true, reason, late)
      ensures File() ==
        if previous.Some? && restore != BeforeRename then Some(StateText(previous.value)) else old(File())
      ensures log == old(log) + [Lower] + Restart(previous)
    {
      log := log + [Lower];
      if previous.Some? {
        var _ := store.Write(previous.value, restore);
        if previous.value.desired == "up" {
          log := log + [Raise(previous.value.protocol, previous.value.profile)];
        }
      }
      o := Outcome(false, true, reason, late);
    }

    /**
     * One transaction. It passes exactly when the candidate comes up, is verified and is committed;
     * nothing of the candidate is stored before it is verified; and whatever fails, the file holds
     * the candidate, the earlier intent written again, or what it held before.
     */
    method Run(protocol: string, profile: string, s: Script) returns (r: RunResult)
      modifies this, store
      ensures r == NotConfigured <==> !configured
      ensures r == NotConfigured ==> File() == old(File()) && log == old(log)
      ensures r == Panicked <==>
        configured && s.up && s.verified && store == null && Accepted(Candidate(protocol, profile))
      ensures r.Done? ==>
        && (r.outcome.passed <==> s.up && s.verified && Accepted(Candidate(protocol, profile)) && s.commit == NoFault)
        && r.outcome.rolledBack == !r.outcome.passed
        && (r.outcome.timedOut <==> (!s.up && s.lateAtUp) || (s.up && !s.verified && s.lateAtVerify))
      ensures r.Done? ==>
        r.outcome.reason ==
          if r.outcome.passed then ""
          else if !s.up then "candidate failed to come up: " + s.upError
          else if s.verified then "commit failed: " + s.commitError
          else if s.reason == "" then "egress verification failed"
          else s.reason
      ensures r.Done? && r.outcome.passed ==>
        && File() == Some(StateText(State(protocol, profile, "up", "normal", "", 0)))
        && log == old(log) + [Raise(protocol, profile), Verify]
      ensures r.Done? && !r.outcome.passed ==>
        && File() == After(s, Candidate(protocol, profile), old(File()))
        && log == old(log) + (if s.up then [Raise(protocol, profile), Verify] else [Raise(protocol, profile)])
                  + [Lower] + Restart(Previous(old(File()), s.readable))
    {
      if !configured {
        return NotConfigured;
      }
      var previous := Snapshot(s.readable);
      log := log + [Raise(protocol, profile)];
      if !s.up {
        var failed := Rollback(previous, s.restore, "candidate failed to come up: " + s.upError, s.lateAtUp);
        return Done(failed);
      }
      log := log + [Verify];
      assert log == old(log) + [Raise(protocol, profile), Verify];
      if !s.verified {
        var reason := if s.reason == "" then "egress verification failed" else s.reason;
        var refused := Rollback(previous, s.restore, reason, s.lateAtVerify);
        return Done(refused);
      }
      var ok := false;
      if Accepted(Candidate(protocol, profile)) {
        if store == null {
          return Panicked;
        }
        ok := store.Write(Candidate(protocol, profile), s.commit);
      }
      if !ok {
        var broken := Rollback(previous, s.restore, "commit failed: " + s.commitError, false);
        return Done(broken);
      }
      r := Done(Outcome(true, false, "", false));
    }

    /**
     * The transaction and the intent, on every file and for every candidate: a failure leaves the
     * earlier intent exactly if Keeps says so, and a pass leaves the candidate's exactly if the
     * candidate can be written and read back. A settled file stays settled.
     */
    method Transact(protocol: string, profile: string, s: Script) returns (r: RunResult)
      modifies this, store
      ensures r == NotConfigured || r == Panicked ==> Intent(File()) == old(Intent(File()))
      ensures r.Done? && r.outcome.passed && CanonicalProtocol(protocol).Some? ==>
        (Intent(File()) == Ok(Normalize(Candidate(protocol, profile))) <==> Faithful(Candidate(protocol, profile)))
      ensures r.Done? && !r.outcome.passed ==>
        (Intent(File()) == old(Intent(File())) <==> Keeps(s, Candidate(protocol, profile), old(File())))
      ensures r.Done? && !r.outcome.passed ==>
        && log != []
        && match old(Intent(File()))
           case Ok(st) => log[|log| - 1] ==
             if s.readable && st.desired == "up" then Raise(st.protocol, st.profile) else Lower
           case Err(_) => log[|log| - 1] == Lower
      ensures old(SettledFile(File())) ==>
        (CanonicalProtocol(protocol).Some? && Faithful(Candidate(protocol, profile)) ==> SettledFile(File()))
    {
      ghost var file := File();
      r := Run(protocol, profile, s);
      if r.Done? {
        if r.outcome.passed {
          CommittedIntent(Candidate(protocol, profile));
        } else {
          IntentAfter(s, Candidate(protocol, profile), file);
        }
      }
    }
  }

  lemma CommittedIntent(candidate: State)
    requires Accepted(candidate)
    ensures CanonicalProtocol(candidate.protocol).Some? ==>
      (Intent(Some(StateText(candidate))) == Ok(Normalize(candidate)) <==> Faithful(candidate))
    ensures CanonicalProtocol(candidate.protocol).Some? && Faithful(candidate) ==>
      SettledFile(Some(StateText(candidate)))
  {
    if CanonicalProtocol(candidate.protocol).Some? {
      ReadAfterWrite(candidate);
      if Faithful(candidate) {
        NormalizedIsSettled(candidate);
      }
    }
  }

  lemma RestoredIntent(st: State, file: Option<string>)
    requires Intent(file) == Ok(st)
    ensures Intent(Some(StateText(st))) == Intent(file) <==> Settled(st)
    ensures SettledFile(file) ==> SettledFile(Some(StateText(st)))
  {
    ReadStates(file.value);
    WrittenAgain(st);
  }

  lemma CandidateFound(candidate: State, kv: map<string, string>)
    requires candidate == Candidate(candidate.protocol, candidate.profile) && Finds(kv, candidate)
    requires AllFit(StatePairs(candidate))
    ensures StateOf(kv) == Shortened(candidate)
  {
  }

  lemma CandidateRead(candidate: State, text: string)
    requires candidate == Candidate(candidate.protocol, candidate.profile)
    requires Finds(Latest(Pairs(Lines(text))), candidate) && (Scannable(text) <==> AllFit(StatePairs(candidate)))
    ensures StateRead(text) == Shortened(candidate)
  {
    if AllFit(StatePairs(candidate)) {
      CandidateFound(candidate, Latest(Pairs(Lines(text))));
    }
  }

  /** What the candidate's file says. */
  lemma LandedIntent(candidate: State, before: Result<State, ReadError>)
    requires Accepted(candidate) && candidate == Candidate(candidate.protocol, candidate.profile)
    ensures before == StateRead(StateText(candidate)) <==> SaysTheSame(candidate, before)
  {
    if CanonicalProtocol(candidate.protocol).Some? && Faithful(candidate) {
      ReadAfterWrite(candidate);
    } else if NoNewline(candidate) {
      WrittenIsRead(candidate);
      ReadPairsFind(candidate);
      CandidateRead(candidate, StateText(candidate));
    }
  }

  lemma IntentAfter(s: Script, candidate: State, file: Option<string>)
    requires candidate == Candidate(candidate.protocol, candidate.profile)
    ensures Intent(After(s, candidate, file)) == Intent(file) <==> Keeps(s, candidate, file)
    ensures SettledFile(file) && CanonicalProtocol(candidate.protocol).Some? && Faithful(candidate) ==>
      SettledFile(After(s, candidate, file))
  {
    var previous := Previous(file, s.readable);
    if previous.Some? && s.restore != BeforeRename {
      RestoredIntent(previous.value, file);
    } else if LandedInError(s, candidate) {
      CommittedIntent(candidate);
      LandedIntent(candidate, Intent(file));
    }
  }
}
