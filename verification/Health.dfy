/** The health monitor: consecutive failures are counted, and each streak of them recovers once. */
module Health {
  import opened Wrappers

  /** What the probes and the recoverer answer on one tick. */
  datatype Tick = Tick(link: bool, grace: bool, internet: bool, reason: string, recoverError: Option<string>)

  datatype Result = Result(
    healthy: bool, failures: nat, limit: nat, recovered: bool, recoverError: Option<string>, reason: string,
    deferred: bool)

  datatype Kind = Healthy | Deferred | Counted

  function KindOf(t: Tick): Kind {
    if t.link && t.internet then Healthy else if t.grace then Deferred else Counted
  }

  function Limit(configured: int): (l: nat)
    ensures l >= 1
  {
    if configured >= 1 then configured else 2
  }

  /** The failures counted since the last healthy tick. */
  function Streak(ticks: seq<Tick>): nat {
    if ticks == [] then 0
    else
      match KindOf(ticks[|ticks| - 1])
      case Healthy => 0
      case Deferred => Streak(ticks[..|ticks| - 1])
      case Counted => Streak(ticks[..|ticks| - 1]) + 1
  }

  function Min(a: nat, b: nat): nat {
    if a < b then a else b
  }

  /** The ticks at which a streak reaches the limit. */
  function RecoveryTicks(ticks: seq<Tick>, limit: nat): seq<nat> {
    if ticks == [] then []
    else
      var before := RecoveryTicks(ticks[..|ticks| - 1], limit);
      if KindOf(ticks[|ticks| - 1]).Counted? && Streak(ticks) == limit then before + [|ticks| - 1] else before
  }

  class Monitor {
    const configured: int
    var failures: nat
    var recoveredAtLimit: bool

    constructor (configured: int)
      ensures this.configured == configured && failures == 0 && !recoveredAtLimit
    {
      this.configured, failures, recoveredAtLimit := configured, 0, false;
    }

    /** The counters say how far the current streak has come. */
    ghost predicate Reflects(streak: nat)
      reads this
    {
      failures == Min(streak, Limit(configured) + 1) && (recoveredAtLimit <==> failures >= Limit(configured))
    }

    /** Counts a failure, up to one past the limit, and recovers when the limit is reached. */
    method Fail(reason: string, limit: nat, recoverError: Option<string>, ghost streak: nat) returns (r: Result)
      requires limit == Limit(configured) && Reflects(streak)
      modifies this
      ensures Reflects(streak + 1)
      ensures r.recovered <==> streak + 1 == limit
      ensures r ==
        Result(false, failures, limit, r.recovered, if r.recovered then recoverError else None, reason, false)
    {
      if failures < limit + 1 {
        failures := failures + 1;
      }
      r := Result(false, failures, limit, false, None, reason, false);
      if failures == limit && !recoveredAtLimit {
        recoveredAtLimit := true;
        r := r.(recovered := true, recoverError := recoverError);
      }
    }

    /** One tick after `past`. A tick in the startup grace changes nothing. */
    method Check(t: Tick, ghost past: seq<Tick>) returns (r: Result)
      requires Reflects(Streak(past))
      modifies this
      ensures Reflects(Streak(past + [t]))
      ensures (r.healthy <==> t.link && t.internet) && (r.deferred <==> t.grace && !(t.link && t.internet))
      ensures r.failures == failures && r.limit == if configured >= 1 then configured else 2
      ensures r.recovered <==> KindOf(t).Counted? && Streak(past + [t]) == Limit(configured)
      ensures r.deferred ==> failures == old(failures) && recoveredAtLimit == old(recoveredAtLimit)
      ensures r.reason ==
        if r.healthy then ""
        else if r.deferred && !t.link then "interface still being created (startup grace)"
        else if r.deferred then "data plane not ready (startup grace)"
        else if !t.link then "VPN interface missing"
        else if t.reason == "" then "no internet access through VPN"
        else t.reason
      ensures r.recoverError == if r.recovered then t.recoverError else None
    {
      assert (past + [t])[..|past|] == past;
      var limit := Limit(configured);
      if !t.link {
        if t.grace {
          return Result(false, failures, limit, false, None, "interface still being created (startup grace)", true);
        }
        r := Fail("VPN interface missing", limit, t.recoverError, Streak(past));
        return;
      }
      if !t.internet {
        if t.grace {
          return Result(false, failures, limit, false, None, "data plane not ready (startup grace)", true);
        }
        var reason := if t.reason == "" then "no internet access through VPN" else t.reason;
        r := Fail(reason, limit, t.recoverError, Streak(past));
        return;
      }
      failures, recoveredAtLimit := 0, false;
      r := Result(true, 0, limit, false, None, "", false);
    }

    /**
     * The daemon's loop over any ticks, from a fresh monitor: the counters follow the streak, and
     * recovery is attempted exactly at the ticks at which a streak reaches the limit.
     */
    method RunUntil(ticks: seq<Tick>) returns (recoveries: seq<nat>)
      requires failures == 0 && !recoveredAtLimit
      modifies this
      ensures var limit := if configured >= 1 then configured else 2;
        && failures == Min(Streak(ticks), limit + 1)
        && (recoveredAtLimit <==> failures >= limit)
        && recoveries == RecoveryTicks(ticks, limit)
    {
      recoveries := [];
      for i := 0 to |ticks|
        invariant Reflects(Streak(ticks[..i]))
        invariant recoveries == RecoveryTicks(ticks[..i], Limit(configured))
      {
        assert ticks[..i + 1] == ticks[..i] + [ticks[i]] && ticks[..i + 1][..i] == ticks[..i];
        var r := Check(ticks[i], ticks[..i]);
        if r.recovered {
          recoveries := recoveries + [i];
        }
      }
      assert ticks[..|ticks|] == ticks;
    }
  }

  // ---- One recovery a streak ----

  lemma {:induction false} RecoveriesAreReached(ticks: seq<Tick>, limit: nat, i: nat)
    ensures i in RecoveryTicks(ticks, limit) <==>
      i < |ticks| && KindOf(ticks[i]).Counted? && Streak(ticks[..i + 1]) == limit
  {
    if ticks != [] {
      var front := ticks[..|ticks| - 1];
      RecoveriesAreReached(front, limit, i);
      if i < |front| {
        assert front[..i + 1] == ticks[..i + 1] && front[i] == ticks[i];
      } else if i == |front| {
        assert ticks[..i + 1] == ticks;
      }
    }
  }

  /** Without a healthy tick, a streak only grows, and every counted tick makes it grow. */
  lemma {:induction false} StreakGrows(ticks: seq<Tick>, i: nat, j: nat)
    requires i <= j <= |ticks| && forall k :: i <= k < j ==> !KindOf(ticks[k]).Healthy?
    ensures Streak(ticks[..j]) >= Streak(ticks[..i])
    ensures (exists k :: i <= k < j && KindOf(ticks[k]).Counted?) ==> Streak(ticks[..j]) > Streak(ticks[..i])
  {
    if i < j {
      StreakGrows(ticks, i, j - 1);
      assert ticks[..j][..j - 1] == ticks[..j - 1];
    }
  }

  /** Between any two recoveries there is a healthy tick. */
  lemma HealthyBetweenRecoveries(ticks: seq<Tick>, limit: nat, i: nat, j: nat)
    requires i < j && i in RecoveryTicks(ticks, limit) && j in RecoveryTicks(ticks, limit)
    ensures exists k :: i < k < j && k < |ticks| && KindOf(ticks[k]).Healthy?
  {
    RecoveriesAreReached(ticks, limit, i);
    RecoveriesAreReached(ticks, limit, j);
    if forall k :: i < k < j ==> !KindOf(ticks[k]).Healthy? {
      assert KindOf(ticks[j]).Counted?;
      StreakGrows(ticks, i + 1, j + 1);
    }
  }

  /** A streak that has reached the limit has been recovered, once: since its last healthy tick. */
  lemma {:induction false} StreakIsRecovered(ticks: seq<Tick>, limit: nat) returns (i: nat)
    requires limit >= 1 && Streak(ticks) >= limit
    ensures i in RecoveryTicks(ticks, limit) && forall k :: i < k < |ticks| ==> !KindOf(ticks[k]).Healthy?
  {
    var front, last := ticks[..|ticks| - 1], ticks[|ticks| - 1];
    if KindOf(last).Counted? && Streak(ticks) == limit {
      i := |ticks| - 1;
    } else {
      i := StreakIsRecovered(front, limit);
      RecoveriesAreReached(front, limit, i);
      RecoveriesAreReached(ticks, limit, i);
      assert front[..i + 1] == ticks[..i + 1];
      forall k | i < k < |ticks| ensures !KindOf(ticks[k]).Healthy? {
        if k < |front| {
          assert ticks[k] == front[k];
        }
      }
    }
  }
}
