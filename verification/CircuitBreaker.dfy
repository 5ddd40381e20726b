/** The circuit breaker in front of the HCM: a timed machine with three states. */
module CircuitBreaker {
  import opened Wrappers
  import opened Upstream

  datatype State = Closed | Open | HalfOpen

  datatype Breaker = Breaker(state: State, failures: nat, successes: int, lastFailure: Option<int>)

  datatype Config = Config(threshold: int, resetTimeout: int)

  const INITIAL: Breaker := Breaker(Closed, 0, 0, None)

  /** Successes that close a half-open breaker. */
  const CLOSING_SUCCESSES: int := 1

  // ---- the transitions -----------------------------------------------------------------------

  function TryReset(b: Breaker, c: Config, now: int): Breaker {
    if b.state == Open && b.lastFailure.Some? && now - b.lastFailure.value >= c.resetTimeout
    then b.(state := HalfOpen, successes := 0)
    else b
  }

  function Succeed(b: Breaker): Breaker {
    match b.state
    case HalfOpen =>
      if b.successes + 1 >= CLOSING_SUCCESSES then INITIAL else b.(successes := b.successes + 1)
    case Closed => b.(failures := 0)
    case Open => b
  }

  /** A late failure opens the breaker again whatever it was doing, and restarts the timeout. */
  function Fail(b: Breaker, c: Config, now: int): Breaker {
    Breaker(if b.state == HalfOpen || b.failures + 1 >= c.threshold then Open else b.state,
            b.failures + 1, 0, Some(now))
  }

  function Settle(b: Breaker, c: Config, ok: bool, now: int): Breaker {
    if ok then Succeed(b) else Fail(b, c, now)
  }

  predicate Admits(b: Breaker, c: Config, now: int) {
    TryReset(b, c, now).state != Open
  }

  // ---- the service ---------------------------------------------------------------------------

  /** What a call answers: the operation's outcome, or the refusal to run it. */
  datatype Answer<+T, +E> = Rejected(failures: nat) | Answered(result: Result<T, E>)

  /** `get(...) || standard` */
  function Configured(setting: Option<int>, standard: int): int {
    if setting.None? || setting.value == 0 then standard else setting.value
  }

  class CircuitBreakerService {
    const config: Config
    var state: State
    var failureCount: nat
    var consecutiveSuccesses: int
    var lastFailureTime: Option<int>

    constructor (threshold: Option<int>, resetTimeout: Option<int>)
      ensures config.threshold == if threshold.Some? && threshold.value != 0 then threshold.value else 5
      ensures config.resetTimeout == if resetTimeout.Some? && resetTimeout.value != 0 then resetTimeout.value else 60000
      ensures View() == INITIAL == Breaker(Closed, 0, 0, None)
    {
      config := Config(Configured(threshold, 5), Configured(resetTimeout, 60000));
      state, failureCount, consecutiveSuccesses, lastFailureTime := Closed, 0, 0, None;
    }

    function View(): Breaker
      reads this
    {
      Breaker(state, failureCount, consecutiveSuccesses, lastFailureTime)
    }

    /** `execute` for a call that nothing overlaps: the operation runs from `at` to `done`, and only
        if the call is admitted. */
    method Execute<T, E>(operation: Operation<T, E>, at: int, done: int) returns (answer: Answer<T, E>)
      modifies this, operation
      ensures Admits(old(View()), config, at) ==>
        && operation.calls == old(operation.calls) + 1
        && answer == Answered(operation.outcomes(old(operation.calls)))
        && View() == Settle(TryReset(old(View()), config, at), config, answer.result.Ok?, done)
      ensures !Admits(old(View()), config, at) ==>
        operation.calls == old(operation.calls) && answer == Rejected(old(failureCount)) && View() == old(View())
    {
      MaybeReset(at);
      if state == Open {
        return Rejected(failureCount);
      }
      var result := operation.Invoke();
      if result.Ok? {
        RecordSuccess();
      } else {
        RecordFailure(done);
      }
      return Answered(result);
    }

    /** `tryReset` */
    method MaybeReset(now: int)
      modifies this
      ensures View() == TryReset(old(View()), config, now)
    {
      if state == Open && lastFailureTime.Some? {
        var elapsed := now - lastFailureTime.value;
        if elapsed >= config.resetTimeout {
          state := HalfOpen;
          consecutiveSuccesses := 0;
        }
      }
    }

    method RecordSuccess()
      modifies this
      ensures View() == Succeed(old(View()))
    {
      if state == HalfOpen {
        consecutiveSuccesses := consecutiveSuccesses + 1;
        if consecutiveSuccesses >= CLOSING_SUCCESSES {
          state, failureCount, consecutiveSuccesses, lastFailureTime := Closed, 0, 0, None;
        }
      } else if state == Closed {
        if failureCount > 0 {
          failureCount := 0;
        }
      }
    }

    method RecordFailure(now: int)
      modifies this
      ensures View() == Fail(old(View()), config, now)
    {
      failureCount := failureCount + 1;
      lastFailureTime := Some(now);
      consecutiveSuccesses := 0;
      if state == HalfOpen {
        state := Open;
      } else if failureCount >= config.threshold {
        state := Open;
      }
    }

    method Reset()
      modifies this
      ensures View() == INITIAL == Breaker(Closed, 0, 0, None)
    {
      state, failureCount, consecutiveSuccesses, lastFailureTime := Closed, 0, 0, None;
    }
  }
}
