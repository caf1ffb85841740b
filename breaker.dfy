/** The breaker object of package `circuitbreaker`: configuration fixed at construction,
    a state block (state, two counters, a timestamp) updated in place by its methods.
    Each method is specified by the matching step function of BreakerModel applied to
    the state block as it was before the call. */
module CircuitBreaker {
  import opened BreakerModel

  class CircuitBreaker {
    const failureThreshold: int
    const resetTimeout: Duration
    const successThreshold: int

    var state: State
    var failureCount: nat
    var successCount: nat
    var lastStateChange: Time

    /** The breaker as a value. */
    function Model(): (m: Machine)
      reads this
    {
      Machine(Options(failureThreshold, resetTimeout, successThreshold),
              state, failureCount, successCount, lastStateChange)
    }

    ghost predicate Valid()
      reads this
    {
      Invariant(Model())
    }

    /** NewCircuitBreaker: copies the options as given and starts Closed at `now`. */
    constructor (opts: Options, now: Time)
      ensures Valid()
      ensures failureThreshold == opts.failureThreshold
      ensures resetTimeout == opts.resetTimeout
      ensures successThreshold == opts.successThreshold
      ensures state == Closed && failureCount == 0 && successCount == 0
      ensures lastStateChange == now
      ensures Model() == NewMachine(opts, now)
    {
      failureThreshold := opts.failureThreshold;
      resetTimeout := opts.resetTimeout;
      successThreshold := opts.successThreshold;
      state := Closed;
      failureCount := 0;
      successCount := 0;
      lastStateChange := now;
    }

    /** Gate, run, record, and hand back the operation's own result. The operation is
        represented by its outcome; `invoked` tells whether it was run. */
    method Execute(outcome: Option<AppError>, now: Time, done: Time) returns (err: Option<Error>, ghost invoked: bool)
      requires Valid()
      modifies this
      ensures Valid()
      ensures Execution(err, invoked, Model()) == ExecuteStep(old(Model()), outcome, now, done)
    {
      var allowed := AllowRequest(now);
      if !allowed {
        return Some(ErrCircuitOpen), false;
      }
      invoked := true;
      RecordResult(outcome.None?, done);
      err := Returned(outcome);
    }

    method AllowRequest(now: Time) returns (allowed: bool)
      requires Valid()
      modifies this
      ensures Valid()
      ensures Gate(allowed, Model()) == AllowStep(old(Model()), now)
    {
      match state
      case Closed =>
        allowed := true;
      case Open =>
        if now - lastStateChange > resetTimeout {
          state := HalfOpen;
          lastStateChange := now;
          failureCount := 0;
          successCount := 0;
          allowed := true;
        } else {
          allowed := false;
        }
      case HalfOpen =>
        allowed := true;
    }

    method RecordResult(success: bool, now: Time)
      requires Valid()
      modifies this
      ensures Valid()
      ensures Model() == RecordStep(old(Model()), success, now)
    {
      match state
      case Closed =>
        if !success {
          failureCount := failureCount + 1;
          if failureCount >= failureThreshold {
            MoveToOpenLocked(now);
          }
        } else {
          failureCount := 0;
        }
      case HalfOpen =>
        if success {
          successCount := successCount + 1;
          if successCount >= successThreshold {
            MoveToClosedLocked(now);
          }
        } else {
          MoveToOpenLocked(now);
        }
      case Open =>
    }

    method MoveToOpenLocked(now: Time)
      modifies this
      ensures Valid()
      ensures Model() == MoveTo(old(Model()), Open, now)
    {
      state := Open;
      lastStateChange := now;
      failureCount := 0;
      successCount := 0;
    }

    method MoveToClosedLocked(now: Time)
      modifies this
      ensures Valid()
      ensures Model() == MoveTo(old(Model()), Closed, now)
    {
      state := Closed;
      lastStateChange := now;
      failureCount := 0;
      successCount := 0;
    }

    method MoveToHalfOpen(now: Time)
      requires Valid()
      modifies this
      ensures Valid()
      ensures Model() == MoveToHalfOpenStep(old(Model()), now)
    {
      if state == Open {
        state := HalfOpen;
        lastStateChange := now;
        failureCount := 0;
        successCount := 0;
      }
    }

    method GetState() returns (s: State)
      ensures s == Model().state
    {
      s := state;
    }
  }
}
