/** What a batch synchronisation guarantees. */
module SyncRuns {
  import opened Wrappers
  import opened CacheKeys
  import opened FixedPoint
  import opened Binary64
  import opened BalanceTable
  import opened BalanceCache
  import opened Balances
  import opened Reconciliation
  import opened Sync
  import B = BalanceRuns

  // ---- drift ---------------------------------------------------------------------------------

  /** Equal balances never drift, and two hundredths apart they always do. */
  lemma DriftIsADifference(round: real -> real, row: Row, balance: HcmBalance)
    requires forall x :: RoundedWithin(round, x)
    requires Within(row.figures.available) && Within(balance.available)
    ensures var drift := DetectDrift(round, row, balance);
      var gap := balance.available - row.figures.available;
      && (gap == 0 ==> drift.None?)
      && (gap >= 2 || gap <= -2 ==> drift.Some?)
      && (drift.Some? ==> (drift.value.increase <==> gap > 0))
      && (drift.Some? ==> row.figures.available + (if gap > 0 then drift.value.amount else -drift.value.amount) == balance.available)
  {
    var x, y := row.figures.available as real / 100.0, balance.available as real / 100.0;
    ThreeRoundings(round, x, y);
    RoundingError(round, 0.01, 1.0);
    RoundingError(round, 0.0, 0.0);
    assert RoundedWithin(round, 0.01);
  }

  /** In double arithmetic, however ties are broken, a drift of one hundredth is seen or not depending
      on the balance: 10.01 against 10.00 passes as equal, 1.01 against 1.00 does not. */
  lemma OneHundredthDependsOnTheBalance(round: real -> real)
    requires CorrectlyRounded(round)
    ensures Matches(round, 1001, 1000) && !Matches(round, 101, 100)
  {
    AmountsRound(round);
    DifferencesRound(round);
  }

  // ---- accounting and composition ------------------------------------------------------------

  /** Every employee is counted once, and every counted drift has its detail. */
  lemma {:induction false} BatchAccounts(st: SyncState, items: seq<Item>, at: Setting)
    ensures var r := Batch(st, items, at).report;
      && r.synced + r.failed == |items|
      && r.drifted == |r.details| <= |items|
    decreases |items|
  {
    if |items| > 0 {
      BatchAccounts(SyncOne(st, items[0], at).state, items[1..], at);
    }
  }

  /** Splitting a batch changes nothing: same tables, cache, history and audit, and counts that add
      up. */
  lemma BatchComposes(st: SyncState, xs: seq<Item>, ys: seq<Item>, at: Setting)
    ensures var first := Batch(st, xs, at);
      var second := Batch(first.state, ys, at);
      && Batch(st, xs + ys, at).state == second.state
      && Batch(st, xs + ys, at).report == Plus(first.report, second.report)
  {
    AccumulateComposes(Body(at), st, xs, ys);
  }

  // ---- convergence ---------------------------------------------------------------------------

  /** The row of `d`, as spelled, holds what the HCM says. */
  ghost predicate Converged(rows: seq<Row>, d: Dims, hcm: Hcm) {
    && hcm(d).Some? && FindExact(rows, d).Some?
    && var row := rows[FindExact(rows, d).value];
       && row.figures.available == hcm(d).value.available
       && (hcm(d).value.used.Some? ==> row.figures.used == hcm(d).value.used.value)
       && ChecksHold(row)
  }

  lemma ReconcileConverges(rows: seq<Row>, d: Dims, hcm: Hcm)
    requires hcm(d).Some? && Reconcile(rows, d, hcm(d).value).Ok?
    ensures Converged(Reconcile(rows, d, hcm(d).value).value, d, hcm)
  {
    var id := FindExact(rows, d).value;
    RewriteKeepsLookups(rows, id, Overwritten(rows[id], hcm(d).value), d);
  }

  lemma ReconcileKeepsConverged(rows: seq<Row>, d: Dims, d': Dims, hcm: Hcm)
    requires hcm(d).Some? && Converged(rows, d', hcm)
    ensures Reconcile(rows, d, hcm(d).value).Ok? ==> Converged(Reconcile(rows, d, hcm(d).value).value, d', hcm)
  {
    if Reconcile(rows, d, hcm(d).value).Ok? {
      var id := FindExact(rows, d).value;
      RewriteKeepsLookups(rows, id, Overwritten(rows[id], hcm(d).value), d');
    }
  }

  lemma ReadKeepsConverged(s: Store, d: Dims, at: Setting, d': Dims)
    requires Converged(s.rows, d', at.hcm)
    ensures Converged(GetBalance(s, d, at.year, at.hcm, at.now).store.rows, d', at.hcm)
  {
    B.ReadShape(s, d, at.year, at.hcm, at.now);
    B.HydrationKeepsLookups(s.rows, d, at.year, at.hcm, at.now, d');
    B.HydrationAnswersLookup(s.rows, d, at.year, at.hcm, at.now);
  }

  /** The table after one body: the read's table, or that one reconciled. */
  lemma SyncOneRows(st: SyncState, item: Item, at: Setting)
    ensures var o := SyncOne(st, item, at);
      var read := GetBalance(st.store, item.dims, at.year, at.hcm, at.now).store;
      && (at.hcm(item.dims).None? ==> o.state == st && o.failure.Some?)
      && (at.hcm(item.dims).Some? ==>
            && o.state.store.cache == read.cache
            && (o.state.store.rows == read.rows
                || (Reconcile(read.rows, item.dims, at.hcm(item.dims).value) == Ok(o.state.store.rows))))
      && (o.failure.None? ==>
            && at.hcm(item.dims).Some?
            && Reconcile(read.rows, item.dims, at.hcm(item.dims).value) == Ok(o.state.store.rows))
  {
  }

  lemma SyncOneKeepsConverged(st: SyncState, item: Item, at: Setting, d: Dims)
    requires Converged(st.store.rows, d, at.hcm)
    ensures Converged(SyncOne(st, item, at).state.store.rows, d, at.hcm)
  {
    SyncOneRows(st, item, at);
    ReadKeepsConverged(st.store, item.dims, at, d);
    if at.hcm(item.dims).Some? {
      ReconcileKeepsConverged(GetBalance(st.store, item.dims, at.year, at.hcm, at.now).store.rows, item.dims, d, at.hcm);
    }
  }

  lemma {:induction false} BatchKeepsConverged(st: SyncState, items: seq<Item>, at: Setting, d: Dims)
    requires Converged(st.store.rows, d, at.hcm)
    ensures Converged(Batch(st, items, at).state.store.rows, d, at.hcm)
    decreases |items|
  {
    if |items| > 0 {
      SyncOneKeepsConverged(st, items[0], at, d);
      BatchKeepsConverged(SyncOne(st, items[0], at).state, items[1..], at, d);
    }
  }

  lemma SyncOneConverges(st: SyncState, item: Item, at: Setting)
    requires SyncOne(st, item, at).failure.None?
    ensures Converged(SyncOne(st, item, at).state.store.rows, item.dims, at.hcm)
  {
    SyncOneRows(st, item, at);
    ReconcileConverges(GetBalance(st.store, item.dims, at.year, at.hcm, at.now).store.rows, item.dims, at.hcm);
  }

  lemma BatchUnfolds(st: SyncState, items: seq<Item>, at: Setting)
    requires |items| > 0
    ensures var o := SyncOne(st, items[0], at);
      var rest := Batch(o.state, items[1..], at);
      Batch(st, items, at) == BatchResult(rest.state, Plus(ReportOf(o), rest.report))
  {
  }

  /** After a batch in which nobody failed, every listed row holds the HCM figures, whatever the list
      repeats and whatever had to be hydrated first. */
  lemma {:induction false} BatchConverges(st: SyncState, items: seq<Item>, at: Setting, k: nat)
    requires Batch(st, items, at).report.failed == 0 && k < |items|
    ensures Converged(Batch(st, items, at).state.store.rows, items[k].dims, at.hcm)
    decreases |items|
  {
    BatchUnfolds(st, items, at);
    var o := SyncOne(st, items[0], at);
    if k == 0 {
      SyncOneConverges(st, items[0], at);
      BatchKeepsConverged(o.state, items[1..], at, items[0].dims);
    } else {
      BatchConverges(o.state, items[1..], at, k - 1);
    }
  }

  // ---- the second batch ----------------------------------------------------------------------

  predicate ListedIn(items: seq<Item>, d: Dims) {
    exists k :: 0 <= k < |items| && items[k].dims == d
  }

  /** A fresh slot holds the balance that the HCM reports. */
  ghost predicate SlotCurrent(cache: Cache, d: Dims, at: Setting) {
    match Fresh(cache, CacheKey(d, at.year), at.now)
    case None => true
    case Some(row) => at.hcm(d).Some? && row.figures.available == at.hcm(d).value.available
  }

  ghost predicate SlotsCurrent(cache: Cache, at: Setting) {
    forall d :: PlainIds(d) ==> SlotCurrent(cache, d, at)
  }

  /** Nothing is left to do for any item: the table is settled, and so is what the cache serves. */
  ghost predicate Settled(st: SyncState, items: seq<Item>, at: Setting) {
    && Functional(st.store.rows)
    && SlotsCurrent(st.store.cache, at)
    && (forall k :: 0 <= k < |items| ==> ItemSettled(st.store.rows, items[k], at))
  }

  ghost predicate ItemSettled(rows: seq<Row>, item: Item, at: Setting) {
    Converged(rows, item.dims, at.hcm) && PlainIds(item.dims) && item.reconcileAudited
  }

  lemma ReconcileKeepsFunctional(rows: seq<Row>, d: Dims, balance: HcmBalance)
    requires Functional(rows) && Reconcile(rows, d, balance).Ok?
    ensures Functional(Reconcile(rows, d, balance).value)
  {
  }

  lemma SyncOneKeepsFunctional(st: SyncState, item: Item, at: Setting)
    requires Functional(st.store.rows)
    ensures Functional(SyncOne(st, item, at).state.store.rows)
  {
    SyncOneRows(st, item, at);
    B.ReadShape(st.store, item.dims, at.year, at.hcm, at.now);
    B.HydrationAnswersLookup(st.store.rows, item.dims, at.year, at.hcm, at.now);
    var read := GetBalance(st.store, item.dims, at.year, at.hcm, at.now).store;
    if at.hcm(item.dims).Some? && Reconcile(read.rows, item.dims, at.hcm(item.dims).value).Ok? {
      ReconcileKeepsFunctional(read.rows, item.dims, at.hcm(item.dims).value);
    }
  }

  lemma {:induction false} BatchKeepsFunctional(st: SyncState, items: seq<Item>, at: Setting)
    requires Functional(st.store.rows)
    ensures Functional(Batch(st, items, at).state.store.rows)
    decreases |items|
  {
    if |items| > 0 {
      SyncOneKeepsFunctional(st, items[0], at);
      BatchUnfolds(st, items, at);
      BatchKeepsFunctional(SyncOne(st, items[0], at).state, items[1..], at);
    }
  }

  /** The case-insensitive lookup finds the converged row. */
  lemma ConvergedLookup(rows: seq<Row>, d: Dims, hcm: Hcm)
    requires Functional(rows) && Converged(rows, d, hcm)
    ensures FindByDimensions(rows, d) == FindExact(rows, d)
    ensures RowFor(rows, d).Some? && RowFor(rows, d).value.figures.available == hcm(d).value.available
  {
    FunctionalLookup(rows, FindExact(rows, d).value, d);
  }

  /** From a settled state a read answers the HCM balance, leaves the table alone and serves nothing
      stale afterwards. */
  lemma SettledRead(s: Store, d: Dims, at: Setting)
    requires Functional(s.rows) && SlotsCurrent(s.cache, at)
    requires PlainIds(d) && Converged(s.rows, d, at.hcm)
    ensures var reply := GetBalance(s, d, at.year, at.hcm, at.now);
      && reply.result.Ok? && reply.result.value.figures.available == at.hcm(d).value.available
      && reply.store.rows == s.rows
      && SlotsCurrent(reply.store.cache, at)
  {
    var key := CacheKey(d, at.year);
    B.ReadShape(s, d, at.year, at.hcm, at.now);
    ConvergedLookup(s.rows, d, at.hcm);
    assert SlotCurrent(s.cache, d, at);
    if Fresh(s.cache, key, at.now).None? {
      var row := RowFor(s.rows, d).value;
      forall d' | PlainIds(d')
        ensures SlotCurrent(Put(s.cache, key, row, at.now), d', at)
      {
        assert SlotCurrent(s.cache, d', at);
        if CacheKey(d', at.year) == key {
          KeyInjective(d', at.year, d, at.year);
        }
      }
    }
  }

  lemma SettledReconcile(rows: seq<Row>, d: Dims, hcm: Hcm)
    requires Converged(rows, d, hcm)
    ensures Reconcile(rows, d, hcm(d).value).Ok?
  {
  }

  lemma EqualBalancesMatch(round: real -> real, a: int)
    requires RoundedWithin(round, 0.0) && RoundedWithin(round, 0.01)
    ensures Matches(round, a, a)
  {
  }

  /** In a settled state one body finds no drift and succeeds. */
  lemma SettledItem(st: SyncState, item: Item, at: Setting)
    requires RoundedWithin(at.round, 0.0) && RoundedWithin(at.round, 0.01)
    requires Functional(st.store.rows) && SlotsCurrent(st.store.cache, at) && ItemSettled(st.store.rows, item, at)
    ensures ReportOf(SyncOne(st, item, at)) == Report(1, 0, 0, [])
    ensures SlotsCurrent(SyncOne(st, item, at).state.store.cache, at)
  {
    var d := item.dims;
    SettledRead(st.store, d, at);
    SettledReconcile(st.store.rows, d, at.hcm);
    EqualBalancesMatch(at.round, at.hcm(d).value.available);
    SyncOneRows(st, item, at);
  }

  lemma {:induction false} SettledBatch(st: SyncState, items: seq<Item>, at: Setting)
    requires RoundedWithin(at.round, 0.0) && RoundedWithin(at.round, 0.01)
    requires Settled(st, items, at)
    ensures Batch(st, items, at).report == Report(|items|, 0, 0, [])
    decreases |items|
  {
    if |items| > 0 {
      var item, rest := items[0], items[1..];
      var o := SyncOne(st, item, at);
      SettledItem(st, item, at);
      SyncOneKeepsFunctional(st, item, at);
      forall k | 0 <= k < |rest|
        ensures ItemSettled(o.state.store.rows, rest[k], at)
      {
        assert ItemSettled(st.store.rows, items[k + 1], at);
        SyncOneKeepsConverged(st, item, at, items[k + 1].dims);
      }
      assert Settled(o.state, rest, at);
      SettledBatch(o.state, rest, at);
      BatchUnfolds(st, items, at);
    }
  }

  ghost predicate ExpireBy(cache: Cache, time: int) {
    forall key :: key in cache ==> cache[key].expiresAt <= time
  }

  lemma SyncOneSlotsExpire(st: SyncState, item: Item, at: Setting)
    requires ExpireBy(st.store.cache, at.now + TTL)
    ensures ExpireBy(SyncOne(st, item, at).state.store.cache, at.now + TTL)
  {
    SyncOneRows(st, item, at);
    B.ReadShape(st.store, item.dims, at.year, at.hcm, at.now);
  }

  /** Slots filled by a batch expire one TTL after it. */
  lemma {:induction false} BatchSlotsExpire(st: SyncState, items: seq<Item>, at: Setting)
    requires ExpireBy(st.store.cache, at.now + TTL)
    ensures ExpireBy(Batch(st, items, at).state.store.cache, at.now + TTL)
    decreases |items|
  {
    if |items| > 0 {
      SyncOneSlotsExpire(st, items[0], at);
      BatchUnfolds(st, items, at);
      BatchSlotsExpire(SyncOne(st, items[0], at).state, items[1..], at);
    }
  }

  /** A batch in which nobody failed converges: once its cache slots have expired, a second batch
      over any of the same employees, repeated or not, against the same HCM figures reports no drift
      and synchronises everybody. */
  lemma SecondBatchFindsNothing(st: SyncState, first: seq<Item>, at: Setting, second: seq<Item>, at': Setting)
    requires Functional(st.store.rows)
    requires ExpireBy(st.store.cache, at.now + TTL)
    requires Batch(st, first, at).report.failed == 0
    requires at'.hcm == at.hcm && at'.now > at.now + TTL
    requires forall x :: RoundedWithin(at'.round, x)
    requires forall k :: 0 <= k < |second| ==>
      ListedIn(first, second[k].dims) && PlainIds(second[k].dims) && second[k].reconcileAudited
    ensures Batch(Batch(st, first, at).state, second, at').report == Report(|second|, 0, 0, [])
  {
    var st' := Batch(st, first, at).state;
    BatchKeepsFunctional(st, first, at);
    BatchSlotsExpire(st, first, at);
    forall k | 0 <= k < |second|
      ensures Converged(st'.store.rows, second[k].dims, at'.hcm)
    {
      assert ListedIn(first, second[k].dims);
      var j :| 0 <= j < |first| && first[j].dims == second[k].dims;
      BatchConverges(st, first, at, j);
    }
    forall d | PlainIds(d)
      ensures SlotCurrent(st'.store.cache, d, at')
    {
    }
    assert RoundedWithin(at'.round, 0.0) && RoundedWithin(at'.round, 0.01);
    SettledBatch(st', second, at');
  }

  /** A read answers the row of an earlier read for as long as the slot is fresh, whatever has
      happened to the table. */
  lemma WarmRead(s: Store, s': Store, d: Dims, at: Setting, later: int)
    requires GetBalance(s, d, at.year, at.hcm, at.now).result.Ok?
    requires s'.cache == GetBalance(s, d, at.year, at.hcm, at.now).store.cache
    requires Fresh(s'.cache, CacheKey(d, at.year), later).Some?
    ensures GetBalance(s', d, at.year, at.hcm, later) == Reply(s', GetBalance(s, d, at.year, at.hcm, at.now).result)
  {
    B.ReadShape(s, d, at.year, at.hcm, at.now);
    B.ReadShape(s', d, at.year, at.hcm, later);
  }

  lemma WarmRepeat(st: SyncState, item: Item, at: Setting, later: int)
    requires SyncOne(st, item, at).failure.None? && SyncOne(st, item, at).counted.Some?
    requires Fresh(SyncOne(st, item, at).state.store.cache, CacheKey(item.dims, at.year), later).Some?
    ensures var first := SyncOne(st, item, at);
      var again := SyncOne(first.state, item, at.(now := later));
      again.failure.None? && again.counted == first.counted
  {
    var first := SyncOne(st, item, at);
    SyncOneRows(st, item, at);
    SyncOneConverges(st, item, at);
    SettledReconcile(first.state.store.rows, item.dims, at.hcm);
    WarmRead(st.store, first.state.store, item.dims, at, later);
  }

  /** A read past the life of its slot finds the converged row. */
  lemma ColdRead(s: Store, d: Dims, at: Setting)
    requires Functional(s.rows) && Converged(s.rows, d, at.hcm)
    requires Fresh(s.cache, CacheKey(d, at.year), at.now).None?
    ensures var reply := GetBalance(s, d, at.year, at.hcm, at.now);
      && reply.result.Ok? && reply.result.value.figures.available == at.hcm(d).value.available
      && reply.store.rows == s.rows
  {
    B.ReadShape(s, d, at.year, at.hcm, at.now);
    ConvergedLookup(s.rows, d, at.hcm);
  }

  lemma ColdRepeat(st: SyncState, item: Item, at: Setting)
    requires RoundedWithin(at.round, 0.0) && RoundedWithin(at.round, 0.01)
    requires Functional(st.store.rows) && Converged(st.store.rows, item.dims, at.hcm) && item.reconcileAudited
    requires Fresh(st.store.cache, CacheKey(item.dims, at.year), at.now).None?
    ensures SyncOne(st, item, at).failure.None? && SyncOne(st, item, at).counted.None?
  {
    ColdRead(st.store, item.dims, at);
    SettledReconcile(st.store.rows, item.dims, at.hcm);
    EqualBalancesMatch(at.round, at.hcm(item.dims).value.available);
  }

  /** The wait matters: reconciling does not touch the cache, so a synchronisation repeated later counts
      the drift that has already been removed if and only if the slot is still fresh then. */
  lemma DriftIsRecountedIff(st: SyncState, item: Item, at: Setting, later: int)
    requires RoundedWithin(at.round, 0.0) && RoundedWithin(at.round, 0.01)
    requires Functional(st.store.rows)
    requires SyncOne(st, item, at).failure.None? && SyncOne(st, item, at).counted.Some?
    ensures var first := SyncOne(st, item, at);
      var again := SyncOne(first.state, item, at.(now := later));
      && Converged(first.state.store.rows, item.dims, at.hcm) && again.failure.None?
      && (again.counted == first.counted <==> Fresh(first.state.store.cache, CacheKey(item.dims, at.year), later).Some?)
      && (again.counted.Some? ==> again.counted == first.counted)
  {
    var first := SyncOne(st, item, at);
    SyncOneConverges(st, item, at);
    SyncOneKeepsFunctional(st, item, at);
    if Fresh(first.state.store.cache, CacheKey(item.dims, at.year), later).Some? {
      WarmRepeat(st, item, at, later);
    } else {
      SyncOneRows(st, item, at);
      SyncOneAudits(st, item, at);
      ColdRepeat(first.state, item, at.(now := later));
    }
  }

  lemma SyncOneAudits(st: SyncState, item: Item, at: Setting)
    requires SyncOne(st, item, at).failure.None?
    ensures item.reconcileAudited
  {
  }
}
