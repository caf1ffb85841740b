# Circuit breaker, modelled in Dafny

This project models package `circuitbreaker` of a small Go library. A circuit breaker wraps calls to an
unreliable operation. It counts consecutive failures, and once they reach a threshold it rejects calls
for a reset timeout. After the timeout it lets probe calls through. Enough consecutive probe successes
close it again, and a single probe failure reopens it.

The project has three modules:

- `BreakerModel` (`breaker_model.dfy`) holds the values: `State` (Closed, Open, HalfOpen), `Options`,
  the constant `DefaultOptions` (5 failures, 10 s, 2 successes), the error kinds (`ErrCircuitOpen` and
  an opaque `Application` error), and `Machine`, which is the whole breaker as a value. One pure step
  function per operation carries the invariants that operation keeps. These are: the counters match
  the state, they stay below their thresholds, and every transition, and only a transition, zeroes the
  counters and stamps the time.
- `CircuitBreaker` (`breaker.dfy`) holds the class `CircuitBreaker`. The configuration is in `const`
  fields. The state, the two counters and the last-transition stamp are `var` fields, and the methods
  update them in place as the Go pointer-receiver methods do. The postcondition of each public method
  and of `MoveToHalfOpen` says that the new state is the matching step function applied to the old
  state. The postconditions of `MoveToOpenLocked` and `MoveToClosedLocked` say that the new state is
  `MoveTo` of the old state, which is the transition they share. Every method ends with `Valid()`
  holding.
- `BreakerTraces` (`traces.dfy`) holds properties of sequences of calls. Consecutive failures open
  the breaker, stamped with the time of the failure that reached the threshold. Consecutive probe
  successes close it. A success clears the failure streak, and the breaker opens exactly when the
  latest run of failures reaches the threshold. While Open, before the timeout, every `Execute` is
  rejected and the operation never runs. Every breaker
  reachable from construction satisfies the invariant. The method `TestCircuitBreaker` replays the
  package's own test (`pkg/circuitbreaker/breaker_test.go:10-57`) against the class contracts.

The clock is an integer parameter in nanoseconds. `Execute` takes two readings: `now` at the gate
and `done` when the result is recorded, because the source reads the clock again inside the
transition. The wrapped operation is represented by its outcome: `None` for a nil error, or
`Some(e)` for an application error.

The model follows the code, including where it departs from the usual description of this design:

- `NewCircuitBreaker` copies the options verbatim and substitutes no defaults for zero fields.
  `DefaultOptions` is a separate value.
- The reset timeout has passed when the elapsed time is strictly greater than `resetTimeout`. At
  exactly `resetTimeout`, the breaker still rejects.
- Thresholds of at least 1 are not enforced by the code. Where a property needs them, it is stated
  under the hypothesis `WellConfigured`.

## Model

| member | source | states |
|---|---|---|
| BreakerModel.NewMachine | pkg/circuitbreaker/breaker.go:48-56 | a new breaker has the given options unchanged, is Closed with a zero failure count, is stamped with the construction time, and satisfies the invariant |
| BreakerModel.DefaultOptionsWellConfigured | pkg/circuitbreaker/breaker.go:40-46 | the default options have thresholds of at least 1 and a reset timeout of 10 seconds |
| BreakerModel.AllowStep | pkg/circuitbreaker/breaker.go:70-91 | the call is allowed exactly when the breaker is not Open afterwards; Closed and HalfOpen allow and change nothing; Open allows exactly when the elapsed time is strictly greater than the reset timeout, and then moves to HalfOpen; a refusal changes nothing; only transitions zero the counters and stamp `now`; the invariant is kept |
| BreakerModel.RecordStep | pkg/circuitbreaker/breaker.go:93-117 | Closed: a success clears the failure count, and a failure opens exactly when the count reaches the threshold, otherwise it adds one; HalfOpen: a success closes exactly when the streak reaches the threshold, otherwise it adds one, and a failure opens; Open: nothing changes; only transitions zero the counters and stamp the time; the invariant is kept |
| BreakerModel.MoveToHalfOpenStep | pkg/circuitbreaker/breaker.go:133-143 | moves Open to HalfOpen with zeroed counters and a fresh stamp; any other state is left unchanged; the invariant is kept |
| BreakerModel.ExecuteStep | pkg/circuitbreaker/breaker.go:58-68 | the operation runs exactly when the gate allows; `ErrCircuitOpen` is returned exactly when it did not run, and then the breaker is unchanged; otherwise the operation's own result is returned unchanged and recorded as a success exactly when it is nil; the invariant is kept |
| CircuitBreaker.CircuitBreaker.constructor | pkg/circuitbreaker/breaker.go:48-56 | the thresholds and timeout are copied verbatim; the breaker starts Closed, with zero counters, stamped with the construction time |
| CircuitBreaker.CircuitBreaker.Execute | pkg/circuitbreaker/breaker.go:58-68 | the returned error, whether the operation ran, and the new fields are exactly what `ExecuteStep` gives for the old fields; `Valid()` is kept |
| CircuitBreaker.CircuitBreaker.AllowRequest | pkg/circuitbreaker/breaker.go:70-91 | the answer and the new fields are exactly what `AllowStep` gives for the old fields; `Valid()` is kept |
| CircuitBreaker.CircuitBreaker.RecordResult | pkg/circuitbreaker/breaker.go:93-117 | the new fields are exactly what `RecordStep` gives for the old fields; `Valid()` is kept |
| CircuitBreaker.CircuitBreaker.MoveToOpenLocked | pkg/circuitbreaker/breaker.go:119-124 | the state becomes Open, both counters become zero, and the stamp becomes `now`; the configuration is unchanged |
| CircuitBreaker.CircuitBreaker.MoveToClosedLocked | pkg/circuitbreaker/breaker.go:126-131 | the state becomes Closed, both counters become zero, and the stamp becomes `now`; the configuration is unchanged |
| CircuitBreaker.CircuitBreaker.MoveToHalfOpen | pkg/circuitbreaker/breaker.go:133-143 | the new fields are exactly what `MoveToHalfOpenStep` gives for the old fields, so only an Open breaker changes; `Valid()` is kept |
| CircuitBreaker.CircuitBreaker.GetState | pkg/circuitbreaker/breaker.go:145-150 | returns the current state and changes nothing |
| BreakerTraces.OpenIgnoresReports | pkg/circuitbreaker/breaker.go:97-117 | any number of outcomes reported to an Open breaker leave it exactly as it was |
| BreakerTraces.ConsecutiveFailuresOpen | pkg/circuitbreaker/breaker.go:98-106 | from Closed, a run of failures below the threshold only adds to the count and keeps the stamp; a run that reaches the threshold leaves the breaker Open with both counters zero, stamped with the time of the failure that reached the threshold, and with its options unchanged |
| BreakerTraces.ConsecutiveSuccessesClose | pkg/circuitbreaker/breaker.go:107-112 | from HalfOpen, a run of successes below the success threshold only adds to the streak; a run that reaches it leaves the breaker Closed with both counters zero and its options unchanged |
| BreakerTraces.ClosedSuccessesStayClosed | pkg/circuitbreaker/breaker.go:104-106 | successes reported to a Closed breaker with no failure streak leave it unchanged |
| BreakerTraces.HalfOpenFailureReopens | pkg/circuitbreaker/breaker.go:113-115 | one failure while HalfOpen opens the breaker, discards the success streak, and stamps the time |
| BreakerTraces.FailureCountIsTrailingRun | pkg/circuitbreaker/breaker.go:98-106 | from a Closed breaker with no streak, if no run of failures reaches the threshold, the breaker stays Closed with its stamp, and its failure count is the length of the latest run of failures |
| BreakerTraces.FailureRunReachingThresholdOpens | pkg/circuitbreaker/breaker.go:98-106 | from a Closed breaker with no streak, the first report after which the latest run of failures reaches the threshold opens the breaker, with zero counters and that report's time as its stamp, and every later report leaves it as it is |
| BreakerTraces.OpenedBreakerRejectsUntilTimeout | pkg/circuitbreaker/breaker.go:58-102 | a new breaker that sees `failureThreshold` failures in a row is Open; every `Execute` up to `resetTimeout` after the last of those failures returns `ErrCircuitOpen`; the operation runs zero times, and the breaker is unchanged |
| BreakerTraces.NonConsecutiveFailuresStayClosed | pkg/circuitbreaker/breaker.go:98-106 | with a threshold of 3, the outcomes fail, succeed, fail, fail leave the breaker Closed with a failure count of 2 |
| BreakerTraces.OpenRejectsUntilTimeout | pkg/circuitbreaker/breaker.go:58-91 | while Open and no later than the reset timeout, every call of a series of `Execute` calls returns `ErrCircuitOpen`; the operation runs zero times, and the breaker is unchanged |
| BreakerTraces.ProbeAfterTimeout | pkg/circuitbreaker/breaker.go:77-84 | the first `Execute` after the timeout runs the operation and returns its result; a success closes the breaker when the success threshold is 1, or leaves it HalfOpen with a streak of 1; a failure reopens it with a fresh stamp |
| BreakerTraces.InvariantAlwaysHolds | pkg/circuitbreaker/breaker.go:119-143 | any sequence of operations, at any clock readings, keeps the invariant and the configuration |
| BreakerTraces.ReachableBreakersAreValid | pkg/circuitbreaker/breaker.go:48-56 | every breaker reachable from construction satisfies the invariant and keeps its options |

## Left out

- Locking (`sync.RWMutex`): the model is sequential, and each operation is one atomic step. `AllowRequest` in the source writes fields while holding only the read lock (pkg/circuitbreaker/breaker.go:71-82). That is a data race, and the model neither captures nor repairs it.
- Real time (`time.Now`, `time.Since`, `time.Duration`): replaced by integer clock readings in nanoseconds that the caller passes in. Go's saturating duration arithmetic is not modelled, because the integers are unbounded.
- The callback `fn func() error` of `Execute`: replaced by its outcome. An operation that itself returns `ErrCircuitOpen` is not modelled, because application errors are a separate kind in the model.
- 64-bit overflow of the counters is not modelled. It would need more than 2^63 consecutive outcomes.
- The `default` branch of `AllowRequest` (pkg/circuitbreaker/breaker.go:88-89): `State` has exactly three values, so that branch cannot be reached.
- `main.go`: a demo driver that prints and sleeps in a loop; its state-name rendering is diagnostic output.
