/** Properties of sequences of calls on a breaker: streaks of failures and successes,
    rejection while the reset timeout runs, the invariant of every reachable breaker,
    and the scenario of the package's own test. */
module BreakerTraces {
  import opened BreakerModel
  import CircuitBreaker

  /** One call of RecordResult: the outcome, and the clock reading a transition would stamp. */
  datatype Report = Report(success: bool, at: Time)

  /** One call of Execute: the operation's outcome, the clock at the gate and after the run. */
  datatype Call = Call(outcome: Option<AppError>, now: Time, done: Time)

  /** What a series of Execute calls returned, how often the operation ran, and the final breaker. */
  datatype Trace = Trace(errs: seq<Option<Error>>, invocations: nat, final: Machine)

  /** Any public operation of the breaker. */
  datatype Op =
    | AllowOp(now: Time)
    | RecordOp(success: bool, at: Time)
    | ExecuteOp(outcome: Option<AppError>, now: Time, done: Time)
    | MoveToHalfOpenOp(now: Time)

  function RecordAll(m: Machine, rs: seq<Report>): (r: Machine)
    decreases |rs|
  {
    if rs == [] then m else RecordAll(RecordStep(m, rs[0].success, rs[0].at), rs[1..])
  }

  function ExecuteAll(m: Machine, calls: seq<Call>): (t: Trace)
    decreases |calls|
  {
    if calls == [] then Trace([], 0, m)
    else
      var x := ExecuteStep(m, calls[0].outcome, calls[0].now, calls[0].done);
      var t := ExecuteAll(x.next, calls[1..]);
      Trace([x.err] + t.errs, (if x.invoked then 1 else 0) + t.invocations, t.final)
  }

  function Apply(m: Machine, op: Op): (r: Machine)
  {
    match op
    case AllowOp(now) => AllowStep(m, now).next
    case RecordOp(success, at) => RecordStep(m, success, at)
    case ExecuteOp(outcome, now, done) => ExecuteStep(m, outcome, now, done).next
    case MoveToHalfOpenOp(now) => MoveToHalfOpenStep(m, now)
  }

  function ApplyAll(m: Machine, ops: seq<Op>): (r: Machine)
    decreases |ops|
  {
    if ops == [] then m else ApplyAll(Apply(m, ops[0]), ops[1..])
  }

  /** Length of the run of failures at the end of a series of outcomes. */
  function TrailingFailures(rs: seq<Report>): (n: nat)
    decreases |rs|
  {
    if rs == [] || rs[|rs| - 1].success then 0 else TrailingFailures(rs[..|rs| - 1]) + 1
  }

  /** A breaker that is Open ignores every outcome reported to it. */
  lemma {:induction false} OpenIgnoresReports(m: Machine, rs: seq<Report>)
    requires m.state == Open
    ensures RecordAll(m, rs) == m
    decreases |rs|
  {
    if rs != [] {
      OpenIgnoresReports(RecordStep(m, rs[0].success, rs[0].at), rs[1..]);
    }
  }

  /** Consecutive failures from Closed: below the threshold they are counted and the breaker
      stays Closed with its stamp; once the count reaches the threshold it is Open, counters zeroed,
      stamped with the time of the failure that reached the threshold, options unchanged. */
  lemma {:induction false} ConsecutiveFailuresOpen(m: Machine, rs: seq<Report>)
    requires m.state == Closed && m.failureCount < m.opts.failureThreshold
    requires forall i :: 0 <= i < |rs| ==> !rs[i].success
    ensures m.failureCount + |rs| < m.opts.failureThreshold ==>
      RecordAll(m, rs) == m.(failureCount := m.failureCount + |rs|)
    ensures m.failureCount + |rs| >= m.opts.failureThreshold ==>
      var r := RecordAll(m, rs);
      r.state == Open && r.failureCount == 0 && r.successCount == 0 && r.opts == m.opts &&
      r.lastStateChange == rs[m.opts.failureThreshold - m.failureCount - 1].at
    decreases |rs|
  {
    if rs != [] {
      var m' := RecordStep(m, false, rs[0].at);
      if m.failureCount + 1 >= m.opts.failureThreshold {
        OpenIgnoresReports(m', rs[1..]);
      } else {
        ConsecutiveFailuresOpen(m', rs[1..]);
      }
    }
  }

  /** Consecutive successes from HalfOpen: below the success threshold they are counted;
      once the count reaches it the breaker is Closed with both counters zero, and stays so. */
  lemma {:induction false} ConsecutiveSuccessesClose(m: Machine, rs: seq<Report>)
    requires m.state == HalfOpen && m.successCount < m.opts.successThreshold
    requires forall i :: 0 <= i < |rs| ==> rs[i].success
    ensures m.successCount + |rs| < m.opts.successThreshold ==>
      RecordAll(m, rs) == m.(successCount := m.successCount + |rs|)
    ensures m.successCount + |rs| >= m.opts.successThreshold ==>
      var r := RecordAll(m, rs);
      r.state == Closed && r.failureCount == 0 && r.successCount == 0 && r.opts == m.opts
    decreases |rs|
  {
    if rs != [] {
      var m' := RecordStep(m, true, rs[0].at);
      if m.successCount + 1 >= m.opts.successThreshold {
        ClosedSuccessesStayClosed(m', rs[1..]);
      } else {
        ConsecutiveSuccessesClose(m', rs[1..]);
      }
    }
  }

  /** Successes reported to a Closed breaker with no streak keep it Closed with no streak. */
  lemma {:induction false} ClosedSuccessesStayClosed(m: Machine, rs: seq<Report>)
    requires m.state == Closed && m.failureCount == 0 && m.successCount == 0
    requires forall i :: 0 <= i < |rs| ==> rs[i].success
    ensures RecordAll(m, rs) == m
    decreases |rs|
  {
    if rs != [] {
      ClosedSuccessesStayClosed(RecordStep(m, true, rs[0].at), rs[1..]);
    }
  }

  /** A single failure while HalfOpen reopens at once, whatever the success streak was. */
  lemma HalfOpenFailureReopens(m: Machine, at: Time)
    requires m.state == HalfOpen
    ensures RecordStep(m, false, at) == m.(state := Open, failureCount := 0, successCount := 0, lastStateChange := at)
  {
  }

  lemma {:induction false} RecordAllSnoc(m: Machine, rs: seq<Report>, r: Report)
    ensures RecordAll(m, rs + [r]) == RecordStep(RecordAll(m, rs), r.success, r.at)
    decreases |rs|
  {
    if rs == [] {
      assert rs + [r] == [r];
    } else {
      assert (rs + [r])[1..] == rs[1..] + [r];
      RecordAllSnoc(RecordStep(m, rs[0].success, rs[0].at), rs[1..], r);
    }
  }

  /** From a fresh Closed breaker, as long as no run of failures reaches the threshold, the
      breaker stays Closed and its failure count is the length of the latest run of failures:
      a success anywhere clears the streak. */
  lemma {:induction false} FailureCountIsTrailingRun(m: Machine, rs: seq<Report>)
    requires m.state == Closed && m.failureCount == 0
    requires forall i :: 0 < i <= |rs| ==> TrailingFailures(rs[..i]) < m.opts.failureThreshold
    ensures RecordAll(m, rs).state == Closed
    ensures RecordAll(m, rs).failureCount == TrailingFailures(rs)
    ensures RecordAll(m, rs).lastStateChange == m.lastStateChange
    ensures RecordAll(m, rs).opts == m.opts
    decreases |rs|
  {
    if rs != [] {
      var n := |rs| - 1;
      var init := rs[..n];
      assert rs == init + [rs[n]];
      forall i | 0 < i <= |init|
        ensures TrailingFailures(init[..i]) < m.opts.failureThreshold
      {
        assert init[..i] == rs[..i];
      }
      FailureCountIsTrailingRun(m, init);
      RecordAllSnoc(m, init, rs[n]);
      assert rs[..|rs|] == rs;
    }
  }

  /** The pattern fail, succeed, fail, fail never opens a breaker whose threshold is 3. */
  lemma NonConsecutiveFailuresStayClosed(m: Machine, t: Time)
    requires m.state == Closed && m.failureCount == 0 && m.opts.failureThreshold == 3
    ensures var rs := [Report(false, t), Report(true, t), Report(false, t), Report(false, t)];
      RecordAll(m, rs).state == Closed && RecordAll(m, rs).failureCount == 2
  {
    var rs := [Report(false, t), Report(true, t), Report(false, t), Report(false, t)];
    assert rs[..1] == [Report(false, t)];
    assert rs[..2] == [Report(false, t), Report(true, t)];
    assert rs[..3] == [Report(false, t), Report(true, t), Report(false, t)];
    assert rs[..4] == rs;
    assert rs[..3][..2] == rs[..2];
    assert rs[..2][..1] == rs[..1];
    assert rs[..1][..0] == [];
    assert TrailingFailures(rs[..1]) == 1;
    assert TrailingFailures(rs[..2]) == 0;
    assert TrailingFailures(rs[..3]) == 1;
    assert TrailingFailures(rs) == 2;
    FailureCountIsTrailingRun(m, rs);
  }

  /** While Open and before the reset timeout has passed, every Execute returns
      ErrCircuitOpen, the operation is never run, and the breaker does not change. */
  lemma {:induction false} OpenRejectsUntilTimeout(m: Machine, calls: seq<Call>)
    requires m.state == Open
    requires forall i :: 0 <= i < |calls| ==> calls[i].now - m.lastStateChange <= m.opts.resetTimeout
    ensures ExecuteAll(m, calls).invocations == 0
    ensures ExecuteAll(m, calls).final == m
    ensures |ExecuteAll(m, calls).errs| == |calls|
    ensures forall i :: 0 <= i < |calls| ==> ExecuteAll(m, calls).errs[i] == Some(ErrCircuitOpen)
    decreases |calls|
  {
    if calls != [] {
      OpenRejectsUntilTimeout(m, calls[1..]);
      var t := ExecuteAll(m, calls);
      forall i | 0 <= i < |calls|
        ensures t.errs[i] == Some(ErrCircuitOpen)
      {
        if i > 0 {
          assert t.errs[i] == ExecuteAll(m, calls[1..]).errs[i - 1];
        }
      }
    }
  }

  /** The first call after the reset timeout is let through as a probe, and its outcome
      decides: a success closes (with a success threshold of 1) or counts towards closing,
      a failure reopens with a fresh stamp. */
  lemma ProbeAfterTimeout(m: Machine, c: Call)
    requires m.state == Open && Invariant(m)
    requires c.now - m.lastStateChange > m.opts.resetTimeout
    ensures var x := ExecuteStep(m, c.outcome, c.now, c.done);
      x.invoked && x.err == Returned(c.outcome) &&
      (c.outcome.None? && m.opts.successThreshold <= 1 ==> x.next.state == Closed && x.next.lastStateChange == c.done) &&
      (c.outcome.None? && m.opts.successThreshold > 1 ==> x.next.state == HalfOpen && x.next.successCount == 1) &&
      (c.outcome.Some? ==> x.next.state == Open && x.next.lastStateChange == c.done)
  {
  }

  lemma {:induction false} RecordAllAppend(m: Machine, a: seq<Report>, b: seq<Report>)
    ensures RecordAll(m, a + b) == RecordAll(RecordAll(m, a), b)
    decreases |a|
  {
    if a == [] {
      assert a + b == b;
    } else {
      assert (a + b)[1..] == a[1..] + b;
      RecordAllAppend(RecordStep(m, a[0].success, a[0].at), a[1..], b);
    }
  }

  /** The converse of FailureCountIsTrailingRun: from a Closed breaker with no streak, the first
      report after which the latest run of failures reaches the threshold opens the breaker,
      stamped with that report's time, and every later report leaves it Open. */
  lemma {:induction false} FailureRunReachingThresholdOpens(m: Machine, rs: seq<Report>, k: nat)
    requires m.state == Closed && m.failureCount == 0 && m.opts.failureThreshold >= 1
    requires 0 < k <= |rs|
    requires forall i :: 0 < i < k ==> TrailingFailures(rs[..i]) < m.opts.failureThreshold
    requires TrailingFailures(rs[..k]) >= m.opts.failureThreshold
    ensures var r := RecordAll(m, rs[..k]);
      r.state == Open && r.failureCount == 0 && r.successCount == 0 &&
      r.lastStateChange == rs[k - 1].at && r.opts == m.opts
    ensures RecordAll(m, rs) == RecordAll(m, rs[..k])
  {
    var init := rs[..k - 1];
    forall i | 0 < i <= |init|
      ensures TrailingFailures(init[..i]) < m.opts.failureThreshold
    {
      assert init[..i] == rs[..i];
    }
    FailureCountIsTrailingRun(m, init);
    assert rs[..k] == init + [rs[k - 1]];
    assert rs[..k][..k - 1] == init;
    RecordAllSnoc(m, init, rs[k - 1]);
    assert rs == rs[..k] + rs[k..];
    RecordAllAppend(m, rs[..k], rs[k..]);
    OpenIgnoresReports(RecordAll(m, rs[..k]), rs[k..]);
  }

  /** A new breaker that sees failureThreshold failures in a row is Open, and stays so: every
      Execute up to resetTimeout after the last of those failures is rejected without running. */
  lemma OpenedBreakerRejectsUntilTimeout(opts: Options, t0: Time, rs: seq<Report>, calls: seq<Call>)
    requires opts.failureThreshold >= 1 && |rs| == opts.failureThreshold
    requires forall i :: 0 <= i < |rs| ==> !rs[i].success
    requires forall i :: 0 <= i < |calls| ==> calls[i].now - rs[|rs| - 1].at <= opts.resetTimeout
    ensures RecordAll(NewMachine(opts, t0), rs).state == Open
    ensures ExecuteAll(RecordAll(NewMachine(opts, t0), rs), calls).invocations == 0
    ensures ExecuteAll(RecordAll(NewMachine(opts, t0), rs), calls).final == RecordAll(NewMachine(opts, t0), rs)
    ensures |ExecuteAll(RecordAll(NewMachine(opts, t0), rs), calls).errs| == |calls|
    ensures forall i :: 0 <= i < |calls| ==>
      ExecuteAll(RecordAll(NewMachine(opts, t0), rs), calls).errs[i] == Some(ErrCircuitOpen)
  {
    ConsecutiveFailuresOpen(NewMachine(opts, t0), rs);
    OpenRejectsUntilTimeout(RecordAll(NewMachine(opts, t0), rs), calls);
  }

  /** Every operation, in any order and at any clock readings, keeps the invariant and the
      configuration: between two operations no breaker is ever seen half-way through a transition. */
  lemma {:induction false} InvariantAlwaysHolds(m: Machine, ops: seq<Op>)
    requires Invariant(m)
    ensures Invariant(ApplyAll(m, ops))
    ensures ApplyAll(m, ops).opts == m.opts
    decreases |ops|
  {
    if ops != [] {
      var m' := Apply(m, ops[0]);
      assert Invariant(m') && m'.opts == m.opts;
      InvariantAlwaysHolds(m', ops[1..]);
    }
  }

  /** Every breaker reachable from construction satisfies the invariant. */
  lemma ReachableBreakersAreValid(opts: Options, now: Time, ops: seq<Op>)
    ensures Invariant(ApplyAll(NewMachine(opts, now), ops))
    ensures ApplyAll(NewMachine(opts, now), ops).opts == opts
  {
    InvariantAlwaysHolds(NewMachine(opts, now), ops);
  }

  /** The package test: thresholds 2 and 1, a timeout of 100ms. Two failures open the
      breaker; the next call is rejected without running; 150ms later a succeeding call
      returns nil and closes it. */
  method TestCircuitBreaker(t0: Time)
  {
    var cb := new CircuitBreaker.CircuitBreaker(Options(2, 100 * Millisecond, 1), t0);
    var s := cb.GetState();
    assert s == Closed;

    var err, ran := cb.Execute(Some(AppError(1)), t0, t0);
    assert err == Some(Application(AppError(1)));
    err, ran := cb.Execute(Some(AppError(1)), t0, t0);
    assert err == Some(Application(AppError(1)));
    s := cb.GetState();
    assert s == Open;

    err, ran := cb.Execute(None, t0, t0);
    assert err == Some(ErrCircuitOpen) && !ran;

    var later := t0 + 150 * Millisecond;
    err, ran := cb.Execute(None, later, later);
    assert err == None && ran;
    s := cb.GetState();
    assert s == Closed;
  }
}
