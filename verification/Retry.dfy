/** Retrying HCM calls with exponential back-off. */
module Retry {
  import opened Wrappers
  import opened Text
  import opened Upstream

  // ---- which errors are retried --------------------------------------------------------------

  /** What a failed call throws, as far as the classification looks at it; `isError` tells an `Error`
      object from any other thrown object. */
  datatype HcmError = HcmError(
    isError: bool,
    code: Option<string>,
    status: Option<int>,
    message: Option<string>,
    name: Option<string>)

  const NETWORK_CODES: seq<string> :=
    ["ETIMEDOUT", "ECONNRESET", "ENOTFOUND", "ECONNREFUSED", "ECONNABORTED", "ESOCKETTIMEDOUT"]

  const TIMEOUT_PHRASES: seq<string> := ["timeout", "etimedout", "econnreset", "aborted"]

  predicate Includes(s: string, part: string) {
    exists i :: 0 <= i <= |s| && part <= s[i..]
  }

  predicate HasNetworkCode(e: HcmError) {
    e.code.Some? && Upper(e.code.value) in NETWORK_CODES
  }

  predicate StatusBetween(e: HcmError, low: int, high: int) {
    e.status.Some? && low <= e.status.value < high
  }

  predicate SaysTimeout(e: HcmError) {
    e.message.Some? && exists p :: p in TIMEOUT_PHRASES && Includes(Lower(e.message.value), p)
  }

  /** The checks in their order. Only the code and the 4xx range decide: the tests on the message and
      the name come after every permanent answer and guard an answer that is transient anyway. So a
      408 is permanent whatever its message says. */
  function IsTransient(e: HcmError): (transient: bool)
    ensures transient <==> HasNetworkCode(e) || !StatusBetween(e, 400, 500)
  {
    if HasNetworkCode(e) then true
    else if StatusBetween(e, 500, 600) then true
    else if StatusBetween(e, 400, 500) then false
    else if SaysTimeout(e) then true
    else if e.name == Some("TimeoutError") then true
    else true
  }

  /** The six network codes, in any case. */
  lemma NetworkCodes(e: HcmError)
    ensures HasNetworkCode(e) <==>
      && e.code.Some?
      && (|| SameIgnoringCase(e.code.value, "ETIMEDOUT") || SameIgnoringCase(e.code.value, "ECONNRESET")
          || SameIgnoringCase(e.code.value, "ENOTFOUND") || SameIgnoringCase(e.code.value, "ECONNREFUSED")
          || SameIgnoringCase(e.code.value, "ECONNABORTED") || SameIgnoringCase(e.code.value, "ESOCKETTIMEDOUT"))
  {
    assert NETWORK_CODES[0] == "ETIMEDOUT" && NETWORK_CODES[1] == "ECONNRESET" && NETWORK_CODES[2] == "ENOTFOUND";
    assert NETWORK_CODES[3] == "ECONNREFUSED" && NETWORK_CODES[4] == "ECONNABORTED" && NETWORK_CODES[5] == "ESOCKETTIMEDOUT";
    if e.code.Some? {
      forall k | 0 <= k < |NETWORK_CODES|
        ensures Upper(e.code.value) == NETWORK_CODES[k] <==> SameIgnoringCase(e.code.value, NETWORK_CODES[k])
      {
        Capitals(k);
        UpperIgnoresCase(e.code.value, NETWORK_CODES[k]);
      }
    }
  }

  lemma Capitals(k: nat)
    requires k < |NETWORK_CODES|
    ensures Upper(NETWORK_CODES[k]) == NETWORK_CODES[k]
  {
  }

  /** "4xx client errors (except timeouts)" is not what happens: a timeout the server reports with a
      4xx status is not retried, although its message says so and its name says so. */
  lemma ServerTimeoutsAreNotRetried(e: HcmError)
    requires e.status == Some(408) && !HasNetworkCode(e)
    ensures !IsTransient(e)
    ensures exists e' :: SaysTimeout(e') && e'.name == Some("TimeoutError") && e'.status == Some(408) && !IsTransient(e')
  {
    var e' := HcmError(true, None, Some(408), Some("timeout"), Some("TimeoutError"));
    assert Lower("timeout") == "timeout" == "timeout"[0..];
    assert Includes(Lower("timeout"), TIMEOUT_PHRASES[0]);
    assert SaysTimeout(e');
  }

  // ---- delays --------------------------------------------------------------------------------

  function Pow(m: real, k: nat): (r: real)
    ensures m >= 1.0 ==> r >= 1.0
    ensures m >= 0.0 ==> r >= 0.0
  {
    if k == 0 then 1.0 else m * Pow(m, k - 1)
  }

  /** `Math.round`: to the nearest integer, a tie upwards. */
  function Rounded(x: real): (n: int)
    ensures -0.5 < n as real - x <= 0.5
  {
    (x + 0.5).Floor
  }

  datatype Schedule = Schedule(initialDelay: real, multiplier: real)

  function Backoff(s: Schedule, attempt: nat): int {
    Rounded(s.initialDelay * Pow(s.multiplier, attempt))
  }

  function Delays(s: Schedule, count: nat): (waits: seq<int>)
    ensures |waits| == count
    ensures forall k :: 0 <= k < count ==> waits[k] == Backoff(s, k)
  {
    seq(count, k requires 0 <= k < count => Backoff(s, k))
  }

  function Total(waits: seq<int>): int {
    if |waits| == 0 then 0 else Total(waits[..|waits| - 1]) + waits[|waits| - 1]
  }

  /** The unrounded total. */
  function Geometric(s: Schedule, count: nat): real {
    if count == 0 then 0.0 else Geometric(s, count - 1) + s.initialDelay * Pow(s.multiplier, count - 1)
  }

  /** (m - 1) g = d (m^k - 1), for any multiplier. */
  predicate Telescopes(g: real, d: real, m: real, power: real) {
    (m - 1.0) * g == d * (power - 1.0)
  }

  lemma TelescopesFurther(g: real, d: real, m: real, p: real)
    requires Telescopes(g, d, m, p)
    ensures Telescopes(g + d * p, d, m, m * p)
  {
    calc {
      (m - 1.0) * (g + d * p);
      (m - 1.0) * g + (m - 1.0) * (d * p);
      d * (p - 1.0) + (m - 1.0) * (d * p);
      d * (m * p - 1.0);
    }
  }

  lemma {:induction false} GeometricSum(s: Schedule, count: nat)
    ensures Telescopes(Geometric(s, count), s.initialDelay, s.multiplier, Pow(s.multiplier, count))
  {
    if count > 0 {
      GeometricSum(s, count - 1);
      TelescopesFurther(Geometric(s, count - 1), s.initialDelay, s.multiplier, Pow(s.multiplier, count - 1));
    }
  }

  /** The rounded total differs from the unrounded one by half a millisecond a wait at most. */
  predicate HalfEach(total: int, unrounded: real, count: nat) {
    -(count as real) / 2.0 <= total as real - unrounded <= count as real / 2.0
  }

  lemma HalfMore(total: int, unrounded: real, count: nat, x: real)
    requires HalfEach(total, unrounded, count)
    ensures HalfEach(total + Rounded(x), unrounded + x, count + 1)
  {
  }

  lemma {:induction false} RoundingAddsHalfEach(s: Schedule, count: nat)
    ensures HalfEach(Total(Delays(s, count)), Geometric(s, count), count)
  {
    if count > 0 {
      RoundingAddsHalfEach(s, count - 1);
      var waits := Delays(s, count);
      assert waits[..count - 1] == Delays(s, count - 1);
      HalfMore(Total(Delays(s, count - 1)), Geometric(s, count - 1), count - 1,
               s.initialDelay * Pow(s.multiplier, count - 1));
    }
  }

  /** d (m^k - 1) / (m - 1) */
  function ClosedForm(d: real, m: real, power: real): real
    requires m > 1.0
  {
    d * (power - 1.0) / (m - 1.0)
  }

  lemma QuotientOf(g: real, d: real, m: real, power: real)
    requires m > 1.0 && Telescopes(g, d, m, power)
    ensures ClosedForm(d, m, power) == g
  {
    var q := m - 1.0;
    assert q * g / q == g;
  }

  lemma SumInClosedForm(s: Schedule, k: nat)
    requires s.multiplier > 1.0
    ensures ClosedForm(s.initialDelay, s.multiplier, Pow(s.multiplier, k)) == Geometric(s, k)
  {
    GeometricSum(s, k);
    QuotientOf(Geometric(s, k), s.initialDelay, s.multiplier, Pow(s.multiplier, k));
  }

  /** For a growing back-off the time slept after `k` failures is the geometric sum in closed form,
      to within half a millisecond for each wait. */
  lemma TotalWait(s: Schedule, k: nat)
    requires s.multiplier > 1.0
    ensures var sum := ClosedForm(s.initialDelay, s.multiplier, Pow(s.multiplier, k));
      sum - k as real / 2.0 <= Total(Delays(s, k)) as real <= sum + k as real / 2.0
  {
    SumInClosedForm(s, k);
    RoundingAddsHalfEach(s, k);
  }

  lemma RoundedMonotone(x: real, y: real)
    requires x <= y
    ensures Rounded(x) <= Rounded(y)
  {
  }

  lemma PowGrows(d: real, m: real, k: nat)
    requires d >= 0.0 && m >= 1.0
    ensures d * Pow(m, k) <= d * Pow(m, k + 1)
  {
    var p := Pow(m, k);
    calc {
      d * (m * p);
      d * p + d * ((m - 1.0) * p);
    }
    assert (m - 1.0) * p >= 0.0;
    assert d * ((m - 1.0) * p) >= 0.0;
  }

  lemma NextDelay(s: Schedule, k: nat)
    requires s.initialDelay >= 0.0 && s.multiplier >= 1.0
    ensures Backoff(s, k) <= Backoff(s, k + 1)
  {
    PowGrows(s.initialDelay, s.multiplier, k);
    RoundedMonotone(s.initialDelay * Pow(s.multiplier, k), s.initialDelay * Pow(s.multiplier, k + 1));
  }

  /** For a multiplier of at least one the waits never get shorter. */
  lemma {:induction false} DelaysNeverDecrease(s: Schedule, i: nat, j: nat)
    requires s.initialDelay >= 0.0 && s.multiplier >= 1.0 && i <= j
    ensures Backoff(s, i) <= Backoff(s, j)
    decreases j
  {
    if i < j {
      DelaysNeverDecrease(s, i, j - 1);
      NextDelay(s, j - 1);
    }
  }

  // ---- configuration -------------------------------------------------------------------------

  /** A setting as the configuration yields it: absent, a number, or the text of an environment
      variable, here one that holds a numeral. */
  datatype Setting<+V> = Unset | Numeric(value: V) | FromText(value: V)

  /** `get(...) || standard`: zero falls back to the standard as a number but not as a text. */
  function IntSetting(setting: Setting<int>, standard: int): Setting<int> {
    match setting
    case Unset => Numeric(standard)
    case Numeric(v) => Numeric(if v == 0 then standard else v)
    case FromText(v) => FromText(v)
  }

  function RealSetting(setting: Setting<real>, standard: real): real {
    match setting
    case Unset => standard
    case Numeric(v) => if v == 0.0 then standard else v
    case FromText(v) => v
  }

  /** With nothing configured the waits are 500, 750 and 1125 ms. */
  lemma StandardDelays()
    ensures Delays(Schedule(500.0, 1.5), 3) == [500, 750, 1125]
  {
    var s := Schedule(500.0, 1.5);
    assert Pow(1.5, 1) == 1.5 * Pow(1.5, 0) == 1.5;
    assert Pow(1.5, 2) == 1.5 * Pow(1.5, 1) == 2.25;
    assert Backoff(s, 0) == 500 && Backoff(s, 1) == 750 && Backoff(s, 2) == 1125;
  }

  // ---- the retry loop ------------------------------------------------------------------------

  /** What the caller gets when it is not an answer. */
  datatype Refusal = Thrown(error: HcmError) | NeverAttempted

  /** A finished call: what came out, how often the operation ran, and the waits between the runs. */
  datatype Trace<+T> = Trace(result: Result<T, Refusal>, runs: nat, waits: seq<int>)

  /** The outcomes from the `k`-th invocation on. */
  function From<T>(outcomes: nat -> Result<T, HcmError>, k: nat): nat -> Result<T, HcmError> {
    (i: nat) => outcomes(k + i)
  }

  predicate Stops<T>(outcome: Result<T, HcmError>) {
    outcome.Ok? || !IsTransient(outcome.error)
  }

  /** The attempt that ends a call: the first success or permanent error, or else the last one
      allowed. */
  function LastAttempt<T>(outcomes: nat -> Result<T, HcmError>, start: nat, max: nat): (last: nat)
    requires start <= max
    ensures start <= last <= max
    ensures forall i :: start <= i < last ==> !Stops(outcomes(i))
    ensures last == max || Stops(outcomes(last))
    decreases max - start
  {
    if start == max || Stops(outcomes(start)) then start else LastAttempt(outcomes, start + 1, max)
  }

  function ToRefusal<T>(outcome: Result<T, HcmError>): Result<T, Refusal> {
    match outcome
    case Ok(v) => Ok(v)
    case Err(e) => Err(Thrown(e))
  }

  /** `lastError`: thrown objects that are not errors are replaced. */
  function AsError(e: HcmError): HcmError {
    if e.isError then e else HcmError(true, None, None, Some("Unknown error"), Some("Error"))
  }

  /** What a call does. A limit that is a number ends the loop at the last attempt; a limit that is a
      text never equals the attempt number, so the loop waits once more before it gives up. */
  function Retried<T>(outcomes: nat -> Result<T, HcmError>, limit: Setting<int>, s: Schedule): Trace<T>
    requires !limit.Unset?
  {
    if limit.value < 0 then Trace(Err(NeverAttempted), 0, [])
    else
      var last := LastAttempt(outcomes, 0, limit.value);
      var outcome := outcomes(last);
      if limit.FromText? && !Stops(outcome) then
        Trace(Err(Thrown(AsError(outcome.error))), last + 1, Delays(s, last + 1))
      else Trace(ToRefusal(outcome), last + 1, Delays(s, last))
  }

  lemma OnlyLastAttempt<T>(outcomes: nat -> Result<T, HcmError>, last: nat, max: nat)
    requires last <= max && forall i :: 0 <= i < last ==> !Stops(outcomes(i))
    requires last == max || Stops(outcomes(last))
    ensures LastAttempt(outcomes, 0, max) == last
  {
    var found := LastAttempt(outcomes, 0, max);
    assert !(found < last);
  }

  ghost predicate AllTransient<T>(outcomes: nat -> Result<T, HcmError>, count: nat) {
    forall i :: 0 <= i < count ==> !Stops(outcomes(i))
  }

  /** What comes out when `last` is where the call ends. */
  lemma EndsAt<T>(outcomes: nat -> Result<T, HcmError>, limit: Setting<int>, s: Schedule, last: nat)
    requires !limit.Unset? && last <= limit.value && AllTransient(outcomes, last)
    ensures Stops(outcomes(last)) || (last == limit.value && limit.Numeric?) ==>
      Retried(outcomes, limit, s) == Trace(ToRefusal(outcomes(last)), last + 1, Delays(s, last))
    ensures last == limit.value && !Stops(outcomes(last)) && limit.FromText? ==>
      Retried(outcomes, limit, s) == Trace(Err(Thrown(AsError(outcomes(last).error))), last + 1, Delays(s, last + 1))
  {
    if last == limit.value || Stops(outcomes(last)) {
      OnlyLastAttempt(outcomes, last, limit.value);
    }
  }

  /** The operation runs 1 + min(limit, index of the first success or permanent error) times, and
      that last outcome is what the caller gets. */
  lemma RunsAndResult<T>(outcomes: nat -> Result<T, HcmError>, limit: Setting<int>, s: Schedule, first: nat)
    requires !limit.Unset? && limit.value >= 0
    requires forall i :: 0 <= i < first ==> !Stops(outcomes(i))
    requires first >= limit.value || Stops(outcomes(first))
    ensures var t := Retried(outcomes, limit, s);
      var min := if first < limit.value then first else limit.value;
      && t.runs == 1 + min
      && (outcomes(min).Ok? ==> t.result == Ok(outcomes(min).value))
      && (outcomes(min).Err? && (outcomes(min).error.isError || limit.Numeric? || Stops(outcomes(min))) ==>
            t.result == Err(Thrown(outcomes(min).error)))
      && (t.result.Ok? <==> outcomes(min).Ok?)
      && (outcomes(min).Err? && !outcomes(min).error.isError && limit.FromText? && !Stops(outcomes(min)) ==>
            t.result == Err(Thrown(HcmError(true, None, None, Some("Unknown error"), Some("Error")))))
  {
    OnlyLastAttempt(outcomes, if first < limit.value then first else limit.value, limit.value);
  }

  /** A negative limit runs nothing. */
  lemma NegativeLimitRunsNothing<T>(outcomes: nat -> Result<T, HcmError>, limit: Setting<int>, s: Schedule)
    requires !limit.Unset? && limit.value < 0
    ensures var t := Retried(outcomes, limit, s); t.runs == 0 && t.waits == [] && t.result == Err(NeverAttempted)
  {
  }

  /** The waits follow the schedule from its start. There is one between any two runs and no other,
      if and only if the limit is a number or the call did not use up its attempts. */
  lemma OneWaitBetweenRuns<T>(outcomes: nat -> Result<T, HcmError>, limit: Setting<int>, s: Schedule)
    requires !limit.Unset? && limit.value >= 0
    ensures var t := Retried(outcomes, limit, s);
      && t.waits == Delays(s, |t.waits|)
      && t.runs <= |t.waits| + 1 <= t.runs + 1
      && (t.runs == |t.waits| + 1 <==>
            limit.Numeric? || exists i :: 0 <= i <= limit.value && Stops(outcomes(i)))
  {
    var last := LastAttempt(outcomes, 0, limit.value);
    if Stops(outcomes(last)) {
      assert 0 <= last <= limit.value && Stops(outcomes(last));
    }
  }

  class HcmRetryService {
    const limit: Setting<int>
    const schedule: Schedule
    /** Every wait so far, in milliseconds. */
    var slept: seq<int>

    constructor (maxRetries: Setting<int>, initialDelay: Setting<real>, multiplier: Setting<real>)
      ensures limit == if maxRetries.Unset? || maxRetries == Numeric(0) then Numeric(3) else maxRetries
      ensures schedule.initialDelay ==
        if initialDelay.Unset? || initialDelay == Numeric(0.0) then 500.0 else initialDelay.value
      ensures schedule.multiplier == if multiplier.Unset? || multiplier == Numeric(0.0) then 1.5 else multiplier.value
      ensures slept == []
    {
      limit := IntSetting(maxRetries, 3);
      schedule := Schedule(RealSetting(initialDelay, 500.0), RealSetting(multiplier, 1.5));
      slept := [];
    }

    method Sleep(ms: int)
      modifies this
      ensures slept == old(slept) + [ms]
    {
      slept := slept + [ms];
    }

    method ExecuteWithRetry<T>(operation: Operation<T, HcmError>) returns (result: Result<T, Refusal>)
      requires !limit.Unset?
      modifies this, operation
      ensures var t := Retried(From(operation.outcomes, old(operation.calls)), limit, schedule);
        && result == t.result
        && operation.calls == old(operation.calls) + t.runs
        && slept == old(slept) + t.waits
    {
      ghost var outcomes := From(operation.outcomes, operation.calls);
      var lastError: Option<HcmError> := None;
      var attempt := 0;
      while attempt <= limit.value
        invariant 0 <= attempt && (attempt <= limit.value + 1 || attempt == 0)
        invariant operation.calls == old(operation.calls) + attempt
        invariant AllTransient(outcomes, attempt)
        invariant attempt == 0 <==> lastError.None?
        invariant attempt > 0 ==> lastError == Some(AsError(outcomes(attempt - 1).error))
        invariant attempt == limit.value + 1 && attempt > 0 ==> limit.FromText?
        invariant slept == old(slept) + Delays(schedule, attempt)
      {
        EndsAt(outcomes, limit, schedule, attempt);
        var outcome := operation.Invoke();
        if outcome.Ok? {
          return Ok(outcome.value);
        }
        lastError := Some(AsError(outcome.error));
        if !IsTransient(outcome.error) {
          return Err(Thrown(outcome.error));
        }
        if limit.Numeric? && attempt == limit.value {
          return Err(Thrown(outcome.error));
        }
        Sleep(Backoff(schedule, attempt));
        assert Delays(schedule, attempt + 1) == Delays(schedule, attempt) + [Backoff(schedule, attempt)];
        attempt := attempt + 1;
      }
      if attempt > 0 {
        EndsAt(outcomes, limit, schedule, attempt - 1);
      }
      return Err(if lastError.Some? then Thrown(lastError.value) else NeverAttempted);
    }
  }
}
