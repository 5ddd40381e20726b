/** What the circuit breaker does over whole runs, without and with overlapping calls. */
module BreakerRuns {
  import opened Wrappers
  import opened CircuitBreaker

  /** The number of failures that opens the breaker; it takes one at least. */
  function Limit(c: Config): nat {
    if c.threshold < 1 then 1 else c.threshold
  }

  // ---- single transitions --------------------------------------------------------------------

  /** A failure counts, is remembered, and opens the breaker from half-open or at the threshold. */
  lemma FailureDecides(b: Breaker, c: Config, now: int)
    ensures var b' := Fail(b, c, now);
      && b'.failures == b.failures + 1 && b'.successes == 0 && b'.lastFailure == Some(now)
      && (b.state == HalfOpen || b'.failures >= c.threshold ==> b'.state == Open)
      && (b.state != HalfOpen && b'.failures < c.threshold ==> b'.state == b.state)
  {
  }

  /** A first success closes a half-open breaker and forgets its failures; it only clears the count of a
      closed one, and an open one ignores it. */
  lemma SuccessDecides(b: Breaker)
    ensures b.state == HalfOpen && b.successes >= 0 ==> Succeed(b) == Breaker(Closed, 0, 0, None)
    ensures b.state == Closed ==> Succeed(b) == Breaker(Closed, 0, b.successes, b.lastFailure)
    ensures b.state == Open ==> Succeed(b) == b
  {
  }

  /** An open breaker becomes half-open once the timeout after its last failure has passed; nothing else
      changes by waiting. */
  lemma WaitingDecides(b: Breaker, c: Config, now: int)
    ensures var due := b.state == Open && b.lastFailure.Some? && b.lastFailure.value + c.resetTimeout <= now;
      TryReset(b, c, now) == if due then Breaker(HalfOpen, b.failures, 0, b.lastFailure) else b
  {
  }

  // ---- calls that do not overlap -------------------------------------------------------------

  datatype Action = Call(at: int, ok: bool, done: int) | ManualReset

  function Act(b: Breaker, c: Config, a: Action): Breaker {
    match a
    case ManualReset => INITIAL
    case Call(at, ok, done) => if Admits(b, c, at) then Settle(TryReset(b, c, at), c, ok, done) else b
  }

  function Perform(b: Breaker, c: Config, actions: seq<Action>): Breaker {
    if |actions| == 0 then b
    else Act(Perform(b, c, actions[..|actions| - 1]), c, actions[|actions| - 1])
  }

  /** What has been observed of the operation: outcomes with the time they came, and resets. */
  datatype Mark = Succeeded | Failed(at: int) | Cleared

  /** The failures since the last success or reset. */
  function Streak(history: seq<Mark>): nat {
    if |history| == 0 || !history[|history| - 1].Failed? then 0
    else Streak(history[..|history| - 1]) + 1
  }

  /** The rule a caller can state without the machine: a call runs unless the last `Limit` outcomes
      were failures and the last of them is less than the timeout ago. */
  predicate Allowed(history: seq<Mark>, c: Config, now: int) {
    Streak(history) < Limit(c)
    || (Streak(history) > 0 && now - history[|history| - 1].at >= c.resetTimeout)
  }

  function Observed(ok: bool, done: int): Mark {
    if ok then Succeeded else Failed(done)
  }

  /** The history under that rule alone: rejected calls leave no mark. */
  function History(c: Config, actions: seq<Action>): seq<Mark> {
    if |actions| == 0 then []
    else
      var before := History(c, actions[..|actions| - 1]);
      match actions[|actions| - 1]
      case ManualReset => before + [Cleared]
      case Call(at, ok, done) => if Allowed(before, c, at) then before + [Observed(ok, done)] else before
  }

  ghost predicate Represents(b: Breaker, history: seq<Mark>, c: Config) {
    && b.failures == Streak(history)
    && b.successes == 0
    && b.state == (if Streak(history) < Limit(c) then Closed else Open)
    && (Streak(history) > 0 ==> b.lastFailure == Some(history[|history| - 1].at))
  }

  lemma StreakOfOneMore(history: seq<Mark>, mark: Mark)
    ensures Streak(history + [mark]) == if mark.Failed? then Streak(history) + 1 else 0
  {
    assert (history + [mark])[..|history|] == history;
  }

  lemma RepresentedAdmission(b: Breaker, history: seq<Mark>, c: Config, now: int)
    requires Represents(b, history, c)
    ensures Admits(b, c, now) <==> Allowed(history, c, now)
  {
  }

  lemma SettlingRepresents(b: Breaker, history: seq<Mark>, c: Config, at: int, ok: bool, done: int)
    requires Represents(b, history, c) && Admits(b, c, at)
    ensures Represents(Settle(TryReset(b, c, at), c, ok, done), history + [Observed(ok, done)], c)
  {
    StreakOfOneMore(history, Observed(ok, done));
  }

  /** Over every run of calls that do not overlap, whatever the clock does, the breaker is nothing but
      its history: the failure count is the streak, it is closed exactly while the streak is shorter
      than the limit, and it is never left half-open. */
  lemma {:induction false} BreakerRefinesHistory(c: Config, actions: seq<Action>)
    ensures Represents(Perform(INITIAL, c, actions), History(c, actions), c)
  {
    if |actions| > 0 {
      var earlier, last := actions[..|actions| - 1], actions[|actions| - 1];
      BreakerRefinesHistory(c, earlier);
      var b, h := Perform(INITIAL, c, earlier), History(c, earlier);
      match last {
        case ManualReset => StreakOfOneMore(h, Cleared);
        case Call(at, ok, done) =>
          RepresentedAdmission(b, h, c, at);
          if Admits(b, c, at) {
            SettlingRepresents(b, h, c, at, ok, done);
          }
      }
    }
  }

  /** A call after any run goes through exactly when the rule on the history allows it. */
  lemma AdmissionFollowsHistory(c: Config, actions: seq<Action>, now: int)
    ensures Admits(Perform(INITIAL, c, actions), c, now) <==> Allowed(History(c, actions), c, now)
  {
    BreakerRefinesHistory(c, actions);
    RepresentedAdmission(Perform(INITIAL, c, actions), History(c, actions), c, now);
  }

  // ---- the call rate -------------------------------------------------------------------------

  predicate Failing(actions: seq<Action>) {
    forall k :: 0 <= k < |actions| ==> actions[k].Call? && !actions[k].ok
  }

  /** One call after the other. */
  predicate InOrder(actions: seq<Action>) {
    && (forall k :: 0 <= k < |actions| && actions[k].Call? ==> actions[k].at <= actions[k].done)
    && (forall j, k :: 0 <= j < k < |actions| && actions[j].Call? && actions[k].Call? ==>
          actions[j].done <= actions[k].at)
  }

  /** The operations run. */
  function Runs(b: Breaker, c: Config, actions: seq<Action>): nat {
    if |actions| == 0 then 0
    else
      var earlier, last := actions[..|actions| - 1], actions[|actions| - 1];
      Runs(b, c, earlier) + if last.Call? && Admits(Perform(b, c, earlier), c, last.at) then 1 else 0
  }

  /** Rejected calls leave no trace: between resets the marks are exactly the operations run. */
  lemma {:induction false} RunsAreMarks(c: Config, actions: seq<Action>)
    requires forall k :: 0 <= k < |actions| ==> actions[k].Call?
    ensures Runs(INITIAL, c, actions) == |History(c, actions)|
  {
    if |actions| > 0 {
      RunsAreMarks(c, actions[..|actions| - 1]);
      AdmissionFollowsHistory(c, actions[..|actions| - 1], actions[|actions| - 1].at);
    }
  }

  /** After the first `Limit` failures each further one is a timeout later. */
  ghost predicate Paced(b: Breaker, c: Config, runs: nat, start: int) {
    && b.failures == runs
    && b.state == (if runs < Limit(c) then Closed else Open)
    && (runs > 0 ==> b.lastFailure.Some? && b.lastFailure.value >= start)
    && (runs >= Limit(c) ==> b.lastFailure.value >= start + (runs - Limit(c)) * c.resetTimeout)
  }

  lemma AdmittedFailureIsPaced(b: Breaker, c: Config, runs: nat, start: int, a: Action)
    requires Paced(b, c, runs, start) && c.resetTimeout >= 1
    requires a.Call? && !a.ok && start <= a.at <= a.done && Admits(b, c, a.at)
    ensures Paced(Act(b, c, a), c, runs + 1, start)
    ensures runs >= Limit(c) ==> a.at >= start + (runs + 1 - Limit(c)) * c.resetTimeout
  {
    var r := c.resetTimeout;
    if runs >= Limit(c) {
      assert (runs + 1 - Limit(c)) * r == (runs - Limit(c)) * r + r;
    } else if runs + 1 == Limit(c) {
      assert (runs + 1 - Limit(c)) * r == 0;
    }
  }

  /** So many runs take that long. */
  predicate LateEnough(runs: nat, c: Config, elapsed: int) {
    runs > Limit(c) ==> (runs - Limit(c)) * c.resetTimeout <= elapsed
  }

  lemma {:induction false} FailingRunIsPaced(b: Breaker, c: Config, actions: seq<Action>, start: int)
    requires b.state == Closed && b.failures == 0 && c.resetTimeout >= 1
    requires Failing(actions) && InOrder(actions)
    requires forall k :: 0 <= k < |actions| ==> start <= actions[k].at
    ensures Paced(Perform(b, c, actions), c, Runs(b, c, actions), start)
    ensures |actions| == 0 ==> Runs(b, c, actions) == 0
    ensures |actions| > 0 ==> LateEnough(Runs(b, c, actions), c, actions[|actions| - 1].at - start)
  {
    if |actions| > 0 {
      var earlier, last := actions[..|actions| - 1], actions[|actions| - 1];
      assert last.Call? && !last.ok && start <= last.at <= last.done;
      FailingRunIsPaced(b, c, earlier, start);
      var runs := Runs(b, c, earlier);
      if Admits(Perform(b, c, earlier), c, last.at) {
        AdmittedFailureIsPaced(Perform(b, c, earlier), c, runs, start, last);
      } else if runs > Limit(c) {
        assert earlier[|earlier| - 1].at <= earlier[|earlier| - 1].done <= last.at;
      }
    }
  }

  lemma ProductGrows(i: nat, j: nat, r: int)
    requires i <= j && r >= 0
    ensures 0 <= i * r <= j * r
  {
  }

  lemma QuotientTimes(window: nat, r: int)
    requires r >= 1
    ensures window / r * r <= window < window / r * r + r
  {
  }

  lemma QuotientBounds(k: nat, r: int, window: nat)
    requires r >= 1 && k * r <= window
    ensures k <= window / r
  {
    QuotientTimes(window, r);
    if window / r < k {
      ProductGrows(window / r + 1, k, r);
    }
  }

  lemma CountInWindow(runs: nat, c: Config, elapsed: int, window: nat)
    requires c.resetTimeout >= 1 && LateEnough(runs, c, elapsed) && elapsed <= window
    ensures runs <= Limit(c) + window / c.resetTimeout
  {
    if runs > Limit(c) {
      QuotientBounds(runs - Limit(c), c.resetTimeout, window);
    } else {
      QuotientTimes(window, c.resetTimeout);
    }
  }

  /** While every call fails, calls that do not overlap, starting with the breaker closed and its
      count at zero, reach the HCM at most `Limit + W / timeout` times in the first W milliseconds. */
  lemma CallRateIsBounded(b: Breaker, c: Config, actions: seq<Action>, window: nat)
    requires b.state == Closed && b.failures == 0 && c.resetTimeout >= 1
    requires Failing(actions) && InOrder(actions)
    requires forall k :: 0 <= k < |actions| ==> actions[k].at <= actions[0].at + window
    ensures Runs(b, c, actions) <= Limit(c) + window / c.resetTimeout
  {
    if |actions| > 0 {
      FirstIsFirst(actions);
      FailingRunIsPaced(b, c, actions, actions[0].at);
      CountInWindow(Runs(b, c, actions), c, actions[|actions| - 1].at - actions[0].at, window);
    } else {
      CountInWindow(0, c, 0, window);
    }
  }

  lemma FirstIsFirst(actions: seq<Action>)
    requires Failing(actions) && InOrder(actions)
    ensures forall k :: 0 <= k < |actions| ==> actions[0].at <= actions[k].at
  {
    forall k | 0 <= k < |actions|
      ensures actions[0].at <= actions[k].at
    {
      if k > 0 {
        assert actions[0].at <= actions[0].done <= actions[k].at;
      }
    }
  }

  /** The call times that use the bound up: `Limit` calls at once, then one as each timeout ends. */
  function Greedy(c: Config, count: nat): seq<Action> {
    seq(count, k requires 0 <= k < count => Call(GreedyTime(c, k), false, GreedyTime(c, k)))
  }

  lemma {:induction false} GreedyRunsEverything(c: Config, count: nat)
    requires c.resetTimeout >= 1
    ensures Runs(INITIAL, c, Greedy(c, count)) == count
    ensures var b := Perform(INITIAL, c, Greedy(c, count));
      && b.failures == count
      && b.state == (if count < Limit(c) then Closed else Open)
      && (count > 0 ==> b.lastFailure == Some(Greedy(c, count)[count - 1].at))
  {
    if count > 0 {
      GreedyRunsEverything(c, count - 1);
      var all := Greedy(c, count);
      assert all[..count - 1] == Greedy(c, count - 1);
      if count > Limit(c) {
        assert (count - Limit(c)) * c.resetTimeout == (count - 1 - Limit(c)) * c.resetTimeout + c.resetTimeout;
      }
    }
  }

  /** When the `k`-th of these calls comes. */
  function GreedyTime(c: Config, k: nat): int {
    if k < Limit(c) then 0 else (k + 1 - Limit(c)) * c.resetTimeout
  }

  lemma GreedyTimesGrow(c: Config, j: nat, k: nat)
    requires c.resetTimeout >= 1 && j <= k
    ensures 0 <= GreedyTime(c, j) <= GreedyTime(c, k)
  {
    ProductGrows(if j < Limit(c) then 0 else j + 1 - Limit(c), if k < Limit(c) then 0 else k + 1 - Limit(c), c.resetTimeout);
  }

  lemma GreedyTimesFit(c: Config, window: nat, k: nat)
    requires c.resetTimeout >= 1 && k < Limit(c) + window / c.resetTimeout
    ensures GreedyTime(c, k) <= window
  {
    if k >= Limit(c) {
      QuotientTimes(window, c.resetTimeout);
      ProductGrows(k + 1 - Limit(c), window / c.resetTimeout, c.resetTimeout);
    }
  }

  /** The bound is met: for every window there is such a run that reaches the HCM exactly that often. */
  lemma CallRateBoundIsTight(c: Config, window: nat)
    requires c.resetTimeout >= 1
    ensures var actions := Greedy(c, Limit(c) + window / c.resetTimeout);
      && Failing(actions) && InOrder(actions)
      && (forall k :: 0 <= k < |actions| ==> actions[k].at <= actions[0].at + window)
      && Runs(INITIAL, c, actions) == Limit(c) + window / c.resetTimeout
  {
    var count := Limit(c) + window / c.resetTimeout;
    var actions := Greedy(c, count);
    GreedyRunsEverything(c, count);
    forall k | 0 <= k < count
      ensures actions[k].at <= actions[0].at + window
    {
      GreedyTimesFit(c, window, k);
    }
    forall j, k | 0 <= j < k < count
      ensures actions[j].done <= actions[k].at
    {
      GreedyTimesGrow(c, j, k);
    }
  }

  // ---- overlapping calls ---------------------------------------------------------------------

  /** A call begins, the operation of an admitted call ends, or somebody resets the breaker. */
  datatype Event = Begin(at: int) | End(ok: bool, at: int) | Clear(at: int)

  /** The breaker, the operations under way, the events so far seen by the clock. */
  datatype System = System(breaker: Breaker, running: nat)

  function Next(s: System, c: Config, e: Event): System {
    match e
    case Begin(at) =>
      var b := TryReset(s.breaker, c, at);
      System(b, if b.state != Open then s.running + 1 else s.running)
    case End(ok, at) =>
      if s.running == 0 then s else System(Settle(s.breaker, c, ok, at), s.running - 1)
    case Clear(_) => s.(breaker := INITIAL)
  }

  function Play(c: Config, events: seq<Event>): System {
    if |events| == 0 then System(INITIAL, 0)
    else Next(Play(c, events[..|events| - 1]), c, events[|events| - 1])
  }

  ghost predicate Consistent(b: Breaker, c: Config) {
    && (b.state == Closed <==> b.failures < Limit(c))
    && (b.state != Closed ==> b.lastFailure.Some?)
    && b.successes == 0
  }

  /** However calls overlap and whatever the clock does, between steps the breaker is closed exactly
      while its count is below the limit, remembers a failure whenever it is not closed, and carries
      no half-counted successes. */
  lemma {:induction false} OverlapKeepsConsistent(c: Config, events: seq<Event>)
    ensures Consistent(Play(c, events).breaker, c)
  {
    if |events| > 0 {
      OverlapKeepsConsistent(c, events[..|events| - 1]);
    }
  }

  /** No lockout: a call made a timeout or more after the last failure is admitted. */
  lemma {:induction false} NoLockout(c: Config, events: seq<Event>, now: int)
    ensures var b := Play(c, events).breaker;
      b.lastFailure.None? || now - b.lastFailure.value >= c.resetTimeout ==> Admits(b, c, now)
  {
    OverlapKeepsConsistent(c, events);
  }

  ghost predicate ClockOf(events: seq<Event>, now: int) {
    && (forall i :: 0 <= i < |events| ==> events[i].at <= now)
    && (forall i, j :: 0 <= i < j < |events| ==> events[i].at <= events[j].at)
  }

  lemma {:induction false} HalfOpenIsDue(c: Config, events: seq<Event>, now: int)
    requires ClockOf(events, now)
    ensures var b := Play(c, events).breaker;
      b.state == HalfOpen ==> b.lastFailure.Some? && now - b.lastFailure.value >= c.resetTimeout
  {
    if |events| > 0 {
      HalfOpenIsDue(c, events[..|events| - 1], now);
      assert events[|events| - 1].at <= now;
    }
  }

  /** While the clock does not run backwards a call is rejected if and only if the count has reached
      the limit and the last failure is less than a timeout ago. */
  lemma RejectedExactlyWhenRecent(c: Config, events: seq<Event>, now: int)
    requires ClockOf(events, now)
    ensures var b := Play(c, events).breaker;
      !Admits(b, c, now) <==>
        b.failures >= Limit(c) && b.lastFailure.Some? && now < b.lastFailure.value + c.resetTimeout
  {
    OverlapKeepsConsistent(c, events);
    HalfOpenIsDue(c, events, now);
  }

  function Begins(count: nat, at: int): seq<Event> {
    seq(count, k requires 0 <= k < count => Begin(at))
  }

  /** Half-open is not one probe at a time: once the timeout is over, every call that arrives before
      the first of them ends is let through. */
  lemma {:induction false} HalfOpenDoesNotLimitProbes(c: Config, events: seq<Event>, at: int, count: nat)
    requires Admits(Play(c, events).breaker, c, at)
    ensures Play(c, events + Begins(count, at)).running == Play(c, events).running + count
    ensures Admits(Play(c, events + Begins(count, at)).breaker, c, at)
  {
    var all := events + Begins(count, at);
    if count == 0 {
      assert all == events;
    } else {
      HalfOpenDoesNotLimitProbes(c, events, at, count - 1);
      assert all[..|all| - 1] == events + Begins(count - 1, at);
    }
  }

  /** A call that does not overlap another is its two events in a row. */
  lemma CallIsTwoEvents(c: Config, s: System, a: Action)
    requires a.Call?
    ensures var begun := Next(s, c, Begin(a.at));
      if Admits(s.breaker, c, a.at) then Next(begun, c, End(a.ok, a.done)) == System(Act(s.breaker, c, a), s.running)
      else begun == s && Act(s.breaker, c, a) == s.breaker
  {
  }
}
