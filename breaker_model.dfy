/** The circuit breaker of package `circuitbreaker` as values: the configuration, the
    mutable state block, and one pure step function per operation. The class in
    module CircuitBreaker updates its fields in place and is specified by these
    functions; the invariants every operation keeps are stated here, on the steps. */
module BreakerModel {

  datatype Option<+T> = None | Some(value: T)

  /** The three states; the source numbers them 0, 1, 2 with iota. */
  datatype State = Closed | Open | HalfOpen

  /** An error produced by the wrapped operation; the breaker never looks inside it. */
  datatype AppError = AppError(id: int)

  /** What Execute can return besides nil: the sentinel for a rejected call, or the
      operation's own error. The two are distinct by construction. */
  datatype Error = ErrCircuitOpen | Application(cause: AppError)

  /** Instants and durations on the caller's clock, in nanoseconds. */
  type Time = int
  type Duration = int

  const Millisecond: Duration := 1_000_000
  const Second: Duration := 1_000 * Millisecond

  datatype Options = Options(failureThreshold: int, resetTimeout: Duration, successThreshold: int)

  /** The recommended configuration: 5 failures, 10 seconds, 2 successes. */
  const DefaultOptions: Options := Options(5, 10 * Second, 2)

  /** Everything a breaker holds: its configuration and its mutable state block. */
  datatype Machine = Machine(
    opts: Options,
    state: State,
    failureCount: nat,
    successCount: nat,
    lastStateChange: Time)

  /** Result of the admission check: whether the call may go ahead, and the state after it. */
  datatype Gate = Gate(allowed: bool, next: Machine)

  /** Result of Execute: what it returns, whether the wrapped operation ran, the state after it. */
  datatype Execution = Execution(err: Option<Error>, invoked: bool, next: Machine)

  /** Each counter is meaningful in one state only and is zero elsewhere. */
  predicate CountersMatchState(m: Machine)
  {
    match m.state
    case Open => m.failureCount == 0 && m.successCount == 0
    case Closed => m.successCount == 0
    case HalfOpen => m.failureCount == 0
  }

  /** Thresholds of at least one; the source does not check this, so it is a hypothesis. */
  predicate WellConfigured(o: Options)
  {
    o.failureThreshold >= 1 && o.successThreshold >= 1
  }

  /** A counter that reached its threshold has always fired its transition. */
  predicate BelowThresholds(m: Machine)
  {
    (m.state == Closed ==> m.failureCount < m.opts.failureThreshold) &&
    (m.state == HalfOpen ==> m.successCount < m.opts.successThreshold)
  }

  /** The invariant of every breaker between two operations. */
  predicate Invariant(m: Machine)
  {
    CountersMatchState(m) && (WellConfigured(m.opts) ==> BelowThresholds(m))
  }

  /** From m to r: the configuration is untouched; a change of state zeroes both
      counters and stamps `now`; without a change of state the stamp stays. */
  predicate StampsOnlyTransitions(m: Machine, r: Machine, now: Time)
  {
    r.opts == m.opts &&
    (r.state != m.state ==> r.failureCount == 0 && r.successCount == 0 && r.lastStateChange == now) &&
    (r.state == m.state ==> r.lastStateChange == m.lastStateChange)
  }

  /** The breaker NewCircuitBreaker builds: the options verbatim, no defaults substituted. */
  function NewMachine(opts: Options, now: Time): (m: Machine)
    ensures m.opts == opts && m.state == Closed && m.lastStateChange == now
    ensures Invariant(m) && m.failureCount == 0
  {
    Machine(opts, Closed, 0, 0, now)
  }

  /** The common body of moveToOpenLocked, moveToClosedLocked and moveToHalfOpen. */
  function MoveTo(m: Machine, s: State, now: Time): (r: Machine)
  {
    m.(state := s, failureCount := 0, successCount := 0, lastStateChange := now)
  }

  /** moveToHalfOpen: acts only from Open. */
  function MoveToHalfOpenStep(m: Machine, now: Time): (r: Machine)
    ensures m.state == Open ==> r.state == HalfOpen
    ensures m.state != Open ==> r == m
    ensures StampsOnlyTransitions(m, r, now)
    ensures Invariant(m) ==> Invariant(r)
  {
    if m.state == Open then MoveTo(m, HalfOpen, now) else m
  }

  /** AllowRequest, with its lazy Open to HalfOpen transition once the timeout has passed. */
  function AllowStep(m: Machine, now: Time): (g: Gate)
    ensures g.allowed <==> g.next.state != Open
    ensures m.state != Open ==> g == Gate(true, m)
    ensures m.state == Open ==> (g.allowed <==> now - m.lastStateChange > m.opts.resetTimeout)
    ensures !g.allowed ==> g.next == m
    ensures g.next.state == m.state || (m.state == Open && g.next.state == HalfOpen)
    ensures StampsOnlyTransitions(m, g.next, now)
    ensures Invariant(m) ==> Invariant(g.next)
  {
    match m.state
    case Closed => Gate(true, m)
    case Open =>
      if now - m.lastStateChange > m.opts.resetTimeout then Gate(true, MoveTo(m, HalfOpen, now))
      else Gate(false, m)
    case HalfOpen => Gate(true, m)
  }

  /** RecordResult: counts consecutive outcomes and fires the threshold transitions. */
  function RecordStep(m: Machine, success: bool, now: Time): (r: Machine)
    // Closed: a success clears the failure streak; a failure extends it and opens at the threshold.
    ensures m.state == Closed && success ==> r.state == Closed && r.failureCount == 0
    ensures m.state == Closed && !success ==>
      (r.state == Open <==> m.failureCount + 1 >= m.opts.failureThreshold) &&
      (r.state != Open ==> r.state == Closed && r.failureCount == m.failureCount + 1)
    // HalfOpen: a success extends the probe streak and closes at the threshold; a failure reopens.
    ensures m.state == HalfOpen && success ==>
      (r.state == Closed <==> m.successCount + 1 >= m.opts.successThreshold) &&
      (r.state != Closed ==> r.state == HalfOpen && r.successCount == m.successCount + 1)
    ensures m.state == HalfOpen && !success ==> r.state == Open
    // Open: nothing is recorded.
    ensures m.state == Open ==> r == m
    ensures StampsOnlyTransitions(m, r, now)
    ensures Invariant(m) ==> Invariant(r)
  {
    match m.state
    case Closed =>
      if !success then
        var failures := m.failureCount + 1;
        if failures >= m.opts.failureThreshold then MoveTo(m, Open, now)
        else m.(failureCount := failures)
      else m.(failureCount := 0)
    case HalfOpen =>
      if success then
        var successes := m.successCount + 1;
        if successes >= m.opts.successThreshold then MoveTo(m, Closed, now)
        else m.(successCount := successes)
      else MoveTo(m, Open, now)
    case Open => m
  }

  /** What Execute hands back once the operation has run: nil, or its own error unchanged. */
  function Returned(outcome: Option<AppError>): (err: Option<Error>)
  {
    match outcome
    case None => None
    case Some(e) => Some(Application(e))
  }

  /** Execute: gate at `now`, run the operation (its outcome is given), record at `done`. */
  function ExecuteStep(m: Machine, outcome: Option<AppError>, now: Time, done: Time): (x: Execution)
    ensures x.invoked == AllowStep(m, now).allowed
    ensures x.err == Some(ErrCircuitOpen) <==> !x.invoked
    ensures x.invoked ==> x.err == Returned(outcome)
    ensures !x.invoked ==> x.next == m
    ensures x.invoked ==> x.next == RecordStep(AllowStep(m, now).next, outcome.None?, done)
    ensures x.next.opts == m.opts
    ensures Invariant(m) ==> Invariant(x.next)
  {
    var g := AllowStep(m, now);
    if !g.allowed then Execution(Some(ErrCircuitOpen), false, m)
    else Execution(Returned(outcome), true, RecordStep(g.next, outcome.None?, done))
  }

  lemma DefaultOptionsWellConfigured()
    ensures WellConfigured(DefaultOptions)
    ensures DefaultOptions.resetTimeout == 10_000_000_000
  {
  }
}
