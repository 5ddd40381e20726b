/** What a synchronisation answers and writes, in terms of the HCM figures and the local row. */
module SyncAnswers {
  import opened Wrappers
  import opened Failures
  import opened CacheKeys
  import opened FixedPoint
  import opened BalanceTable
  import opened Balances
  import opened AuditTrail
  import opened Reconciliation
  import opened Sync
  import opened SyncRuns
  import B = BalanceRuns

  // ---- reconciliation ------------------------------------------------------------------------

  /** The row after an overwrite: the HCM's available days, its used days if it reports any, one version
      up, and all else as it was. */
  function Repaired(row: Row, balance: HcmBalance): Row {
    var used := if balance.used.Some? then balance.used.value else row.figures.used;
    row.(figures := Figures(balance.available, used), version := row.version + 1)
  }

  /** A reconciliation overwrites the row as spelled, and is refused if there is none or if a figure
      would be negative. */
  lemma ReconcileDecides(rows: seq<Row>, d: Dims, balance: HcmBalance)
    ensures Reconcile(rows, d, balance) ==
      match FindExact(rows, d)
      case None => Err(NotFound)
      case Some(id) =>
        var row := Repaired(rows[id], balance);
        if row.figures.available < 0 || row.figures.used < 0 then Err(CheckViolation) else Ok(rows[id := row])
  {
  }

  /** Its entry tells the figures and versions before and after, where a missing version counts as 1. */
  lemma ReconcileEntryTells(row: Row, d: Dims, balance: HcmBalance)
    ensures var e := ReconcileEntry(row, d, balance);
      && e.BalanceReconciled? && e.dims == d
      && e.oldAvailable == row.figures.available && e.newAvailable == Repaired(row, balance).figures.available
      && e.oldVersion == (if row.version == 0 then 1 else row.version) && e.newVersion == Repaired(row, balance).version
  {
  }

  // ---- drift ---------------------------------------------------------------------------------

  /** The doubles of the two balances are a hundredth or more apart. */
  predicate Drifts(round: real -> real, row: Row, balance: HcmBalance) {
    var gap := round(round(row.figures.available as real / 100.0) - round(balance.available as real / 100.0));
    (if gap < 0.0 then -gap else gap) >= round(0.01)
  }

  /** The drift of a row, local balance first. */
  predicate DriftTells(drift: Drift, row: Row, balance: HcmBalance) {
    && drift.dims == row.dims
    && drift.localAvailable == row.figures.available && drift.hcmAvailable == balance.available
    && (drift.increase <==> balance.available > row.figures.available)
    && drift.amount == (if drift.increase then balance.available - row.figures.available
                        else row.figures.available - balance.available)
  }

  lemma DriftDecides(round: real -> real, row: Row, balance: HcmBalance)
    ensures var drift := DetectDrift(round, row, balance);
      && (drift.Some? <==> Drifts(round, row, balance))
      && (drift.Some? ==> DriftTells(drift.value, row, balance))
  {
  }

  /** Its history row goes from the local to the HCM balance, and its audit entry tells both. */
  lemma DriftRecordsTell(d: Dims, drift: Drift)
    ensures DriftHistory(d, drift) == HistoryEntry(d, drift.localAvailable, drift.hcmAvailable, true)
    ensures var e := DriftEntry(d, drift);
      e.DriftFound? && e.dims == d && e.localAvailable == drift.localAvailable && e.hcmAvailable == drift.hcmAvailable
  {
  }

  // ---- one employee --------------------------------------------------------------------------

  /** The balance the body compares: what a read answers then. */
  function ReadFor(st: SyncState, item: Item, at: Setting): Reply<Row> {
    GetBalance(st.store, item.dims, at.year, at.hcm, at.now)
  }

  /** A drift is found for the item. */
  predicate DriftFor(st: SyncState, item: Item, at: Setting) {
    && at.hcm(item.dims).Some? && ReadFor(st, item, at).result.Ok?
    && Drifts(at.round, ReadFor(st, item, at).result.value, at.hcm(item.dims).value)
  }

  /** After the read the row is there as spelled, and the HCM figures may be written into it. */
  predicate Repairable(st: SyncState, item: Item, at: Setting) {
    var rows := ReadFor(st, item, at).store.rows;
    && at.hcm(item.dims).Some? && FindExact(rows, item.dims).Some?
    && var row := Repaired(rows[FindExact(rows, item.dims).value], at.hcm(item.dims).value);
       row.figures.available >= 0 && row.figures.used >= 0
  }

  /** What the item needs to go through. */
  predicate CanSync(st: SyncState, item: Item, at: Setting) {
    && ReadFor(st, item, at).result.Ok? && Repairable(st, item, at)
    && (DriftFor(st, item, at) ==> item.driftAudited) && item.reconcileAudited
  }

  /** A synchronisation succeeds if and only if the HCM answers, the read does, the row is there as
      spelled, its figures may be written, and the audit writes it needs succeed; then the row is
      repaired and the cache is as the read left it. */
  lemma SyncSucceedsIff(st: SyncState, item: Item, at: Setting)
    ensures var o := SyncOne(st, item, at);
      && (o.failure.None? <==> CanSync(st, item, at))
      && (o.failure.None? ==>
            var read := ReadFor(st, item, at).store;
            var id := FindExact(read.rows, item.dims).value;
            && o.state.store == Store(read.rows[id := Repaired(read.rows[id], at.hcm(item.dims).value)], read.cache)
            && Converged(o.state.store.rows, item.dims, at.hcm))
  {
    SyncOutcome(st, item, at);
    if SyncOne(st, item, at).failure.None? {
      SyncRepairs(st, item, at);
    }
  }

  lemma RepairOutcome(st: SyncState, item: Item, balance: HcmBalance, counted: Option<Drift>)
    ensures ReconcileItem(st, item, balance, counted).failure.None? <==>
      && FindExact(st.store.rows, item.dims).Some?
      && Repaired(st.store.rows[FindExact(st.store.rows, item.dims).value], balance).figures.available >= 0
      && Repaired(st.store.rows[FindExact(st.store.rows, item.dims).value], balance).figures.used >= 0
      && item.reconcileAudited
  {
    ReconcileDecides(st.store.rows, item.dims, balance);
  }

  lemma SyncOutcome(st: SyncState, item: Item, at: Setting)
    ensures SyncOne(st, item, at).failure.None? <==> CanSync(st, item, at)
  {
    var read := ReadFor(st, item, at);
    if at.hcm(item.dims).Some? && read.result.Ok? {
      var balance := at.hcm(item.dims).value;
      var st1 := st.(store := read.store);
      DriftDecides(at.round, read.result.value, balance);
      match DetectDrift(at.round, read.result.value, balance)
      case None => RepairOutcome(st1, item, balance, None);
      case Some(drift) =>
        var st2 := st1.(history := st1.history + [DriftHistory(item.dims, drift)],
                        audit := Logging(st1.audit, DriftEntry(item.dims, drift), item.driftAudited));
        RepairOutcome(st2, item, balance, Some(drift));
    }
  }

  lemma SyncRepairs(st: SyncState, item: Item, at: Setting)
    requires SyncOne(st, item, at).failure.None?
    ensures at.hcm(item.dims).Some? && FindExact(ReadFor(st, item, at).store.rows, item.dims).Some?
    ensures var o, read := SyncOne(st, item, at), ReadFor(st, item, at).store;
      var id := FindExact(read.rows, item.dims).value;
      && o.state.store == Store(read.rows[id := Repaired(read.rows[id], at.hcm(item.dims).value)], read.cache)
      && Converged(o.state.store.rows, item.dims, at.hcm)
  {
    SyncOneRows(st, item, at);
    ReconcileDecides(ReadFor(st, item, at).store.rows, item.dims, at.hcm(item.dims).value);
    SyncOneConverges(st, item, at);
  }

  /** A successful synchronisation logs the drift, if there was one, and then the repair. */
  lemma SyncLogs(st: SyncState, item: Item, at: Setting)
    requires CanSync(st, item, at)
    ensures var read := ReadFor(st, item, at);
      var balance, row := at.hcm(item.dims).value, read.store.rows[FindExact(read.store.rows, item.dims).value];
      var found := DriftFound(item.dims, read.result.value.figures.available, balance.available);
      var version := if row.version == 0 then 1 else row.version;
      var repaired := BalanceReconciled(item.dims, row.figures.available, version, balance.available, row.version + 1);
      SyncOne(st, item, at).state.audit ==
        st.audit + (if DriftFor(st, item, at) then [found] else []) + [repaired]
  {
    DriftDecides(at.round, ReadFor(st, item, at).result.value, at.hcm(item.dims).value);
    ReconcileDecides(ReadFor(st, item, at).store.rows, item.dims, at.hcm(item.dims).value);
  }

  /** A drift is counted if and only if it is found and its audit write succeeds, whatever becomes of the
      reconciliation; it tells the balance read and the HCM balance. */
  lemma DriftCountedIff(st: SyncState, item: Item, at: Setting)
    ensures var o := SyncOne(st, item, at);
      && (o.counted.Some? <==> DriftFor(st, item, at) && item.driftAudited)
      && (o.counted.Some? ==>
            DriftTells(o.counted.value, ReadFor(st, item, at).result.value, at.hcm(item.dims).value))
      && o.state.history ==
           (if DriftFor(st, item, at) then
              st.history + [HistoryEntry(item.dims, ReadFor(st, item, at).result.value.figures.available,
                                         at.hcm(item.dims).value.available, true)]
            else st.history)
  {
    if at.hcm(item.dims).Some? && ReadFor(st, item, at).result.Ok? {
      DriftDecides(at.round, ReadFor(st, item, at).result.value, at.hcm(item.dims).value);
    }
  }

  /** Which failure it is, and what stays written. */
  lemma SyncFailsWith(st: SyncState, item: Item, at: Setting)
    requires SyncOne(st, item, at).failure.Some?
    ensures var o, read := SyncOne(st, item, at), ReadFor(st, item, at);
      if at.hcm(item.dims).None? then o.failure == Some(HcmUnavailable) && o.state == st
      else if read.result.Err? then o.failure == Some(read.result.error) && o.state == st.(store := read.store)
      else if DriftFor(st, item, at) && !item.driftAudited then
        o.failure == Some(AuditUnavailable) && o.state.store == read.store && o.state.audit == st.audit
      else if FindExact(read.store.rows, item.dims).None? then o.failure == Some(NotFound) && o.state.store == read.store
      else if !Repairable(st, item, at) then o.failure == Some(CheckViolation) && o.state.store == read.store
      else
        && o.failure == Some(AuditUnavailable)
        && Converged(o.state.store.rows, item.dims, at.hcm) && o.state.store.cache == read.store.cache
  {
    var read := ReadFor(st, item, at);
    if at.hcm(item.dims).Some? && read.result.Ok? {
      var balance := at.hcm(item.dims).value;
      DriftDecides(at.round, read.result.value, balance);
      ReconcileDecides(read.store.rows, item.dims, balance);
      if Reconcile(read.store.rows, item.dims, balance).Ok? {
        ReconcileConverges(read.store.rows, item.dims, at.hcm);
      }
    }
  }

  /** The answer of an on-demand synchronisation: its failure, or the HCM balance with the drift found. */
  lemma RealTimeDecides(st: SyncState, item: Item, at: Setting)
    ensures var o := SyncOne(st, item, at);
      var answer := RealTimeAnswer(o, at.hcm(item.dims));
      && (answer.Ok? <==> CanSync(st, item, at))
      && (answer.Ok? ==>
            && answer.value.balance == at.hcm(item.dims).value
            && (answer.value.drift.Some? <==> DriftFor(st, item, at))
            && answer.value.drift == o.counted)
      && (answer.Err? ==> Some(answer.error) == o.failure)
  {
    SyncSucceedsIff(st, item, at);
    DriftCountedIff(st, item, at);
  }

  // ---- the batch -----------------------------------------------------------------------------

  /** The state that item `k` of a batch meets. */
  function Before(st: SyncState, items: seq<Item>, at: Setting, k: nat): SyncState
    requires k <= |items|
  {
    Batch(st, items[..k], at).state
  }

  /** How many of the first `n` items cannot go through, each in the state it meets. */
  ghost function Stuck(st: SyncState, items: seq<Item>, at: Setting, n: nat): nat
    requires n <= |items|
  {
    if n == 0 then 0
    else Stuck(st, items, at, n - 1) + if CanSync(Before(st, items, at, n - 1), items[n - 1], at) then 0 else 1
  }

  /** The drifts of the first `n` items, in their order. */
  ghost function Drifting(st: SyncState, items: seq<Item>, at: Setting, n: nat): nat
    requires n <= |items|
  {
    if n == 0 then 0
    else
      Drifting(st, items, at, n - 1)
      + if DriftFor(Before(st, items, at, n - 1), items[n - 1], at) && items[n - 1].driftAudited then 1 else 0
  }

  lemma BatchOneMore(st: SyncState, items: seq<Item>, at: Setting, n: nat)
    requires 0 < n <= |items|
    ensures var o := SyncOne(Before(st, items, at, n - 1), items[n - 1], at);
      Batch(st, items[..n], at) == BatchResult(o.state, Plus(Batch(st, items[..n - 1], at).report, ReportOf(o)))
  {
    assert items[..n] == items[..n - 1] + [items[n - 1]];
    AccumulateOneMore(Body(at), st, items[..n - 1], items[n - 1]);
  }

  predicate ReportIs(r: Report, synced: int, drifted: int, failed: int) {
    r.synced == synced && r.drifted == drifted && r.failed == failed
  }

  lemma ItemReport(st: SyncState, item: Item, at: Setting)
    ensures var stuck := if CanSync(st, item, at) then 0 else 1;
      ReportIs(ReportOf(SyncOne(st, item, at)), 1 - stuck, if DriftFor(st, item, at) && item.driftAudited then 1 else 0, stuck)
  {
    SyncOutcome(st, item, at);
    DriftCountedIff(st, item, at);
  }

  lemma ReportsAdd(r: Report, r': Report, synced: int, drifted: int, failed: int, synced': int, drifted': int, failed': int)
    requires ReportIs(r, synced, drifted, failed) && ReportIs(r', synced', drifted', failed')
    ensures ReportIs(Plus(r, r'), synced + synced', drifted + drifted', failed + failed')
  {
  }

  lemma {:induction false} PrefixCounts(st: SyncState, items: seq<Item>, at: Setting, n: nat)
    requires n <= |items|
    ensures ReportIs(Batch(st, items[..n], at).report,
                     n - Stuck(st, items, at, n), Drifting(st, items, at, n), Stuck(st, items, at, n))
  {
    if n > 0 {
      PrefixCounts(st, items, at, n - 1);
      BatchOneMore(st, items, at, n);
      var reached, item := Before(st, items, at, n - 1), items[n - 1];
      ItemReport(reached, item, at);
      var stuck := if CanSync(reached, item, at) then 0 else 1;
      ReportsAdd(Batch(st, items[..n - 1], at).report, ReportOf(SyncOne(reached, item, at)),
                 n - 1 - Stuck(st, items, at, n - 1), Drifting(st, items, at, n - 1), Stuck(st, items, at, n - 1),
                 1 - stuck, if DriftFor(reached, item, at) && item.driftAudited then 1 else 0, stuck);
    }
  }

  /** A batch fails for exactly the items that cannot go through when their turn comes, synchronises all
      others, and counts the drifts that are found and logged. */
  lemma BatchCounts(st: SyncState, items: seq<Item>, at: Setting)
    ensures var r := Batch(st, items, at).report;
      && r.failed == Stuck(st, items, at, |items|)
      && r.synced == |items| - Stuck(st, items, at, |items|)
      && r.drifted == Drifting(st, items, at, |items|)
  {
    assert items[..|items|] == items;
    PrefixCounts(st, items, at, |items|);
  }

  /** The details of a batch are the drifts counted for its items, in their order. */
  lemma DetailsTell(st: SyncState, items: seq<Item>, at: Setting, n: nat)
    requires 0 < n <= |items|
    ensures var before, after := Batch(st, items[..n - 1], at).report.details, Batch(st, items[..n], at).report.details;
      var reached := Before(st, items, at, n - 1);
      if DriftFor(reached, items[n - 1], at) && items[n - 1].driftAudited then
        && |after| == |before| + 1 && after[..|before|] == before
        && DriftTells(after[|before|], ReadFor(reached, items[n - 1], at).result.value, at.hcm(items[n - 1].dims).value)
      else after == before
  {
    BatchOneMore(st, items, at, n);
    DriftCountedIff(Before(st, items, at, n - 1), items[n - 1], at);
  }

  // ---- a batch that has what it needs --------------------------------------------------------

  /** The HCM reports usable figures, the row is there as spelled, and the audit can be written. */
  predicate Ready(rows: seq<Row>, item: Item, hcm: Hcm) {
    && hcm(item.dims).Some? && hcm(item.dims).value.available >= 0
    && (hcm(item.dims).value.used.Some? ==> hcm(item.dims).value.used.value >= 0)
    && FindExact(rows, item.dims).Some? && item.driftAudited && item.reconcileAudited
  }

  lemma ReadyCanSync(st: SyncState, item: Item, at: Setting)
    requires AllChecksHold(st.store.rows) && Ready(st.store.rows, item, at.hcm)
    ensures CanSync(st, item, at)
  {
    var rows, id := st.store.rows, FindExact(st.store.rows, item.dims).value;
    assert SameFold(rows[id].dims, item.dims);
    assert FindByDimensions(rows, item.dims).Some?;
    B.ReadShape(st.store, item.dims, at.year, at.hcm, at.now);
    B.HydrationAnswersLookup(rows, item.dims, at.year, at.hcm, at.now);
    assert ChecksHold(rows[id]);
  }

  lemma ReadKeepsReady(st: SyncState, item: Item, at: Setting, other: Item)
    requires AllChecksHold(st.store.rows) && Ready(st.store.rows, other, at.hcm)
    ensures AllChecksHold(ReadFor(st, item, at).store.rows) && Ready(ReadFor(st, item, at).store.rows, other, at.hcm)
  {
    B.ReadShape(st.store, item.dims, at.year, at.hcm, at.now);
    B.HydrationAnswersLookup(st.store.rows, item.dims, at.year, at.hcm, at.now);
    B.HydrationKeepsLookups(st.store.rows, item.dims, at.year, at.hcm, at.now, other.dims);
  }

  lemma RepairKeepsReady(rows: seq<Row>, d: Dims, balance: HcmBalance, other: Item, hcm: Hcm)
    requires AllChecksHold(rows) && Ready(rows, other, hcm) && Reconcile(rows, d, balance).Ok?
    ensures AllChecksHold(Reconcile(rows, d, balance).value) && Ready(Reconcile(rows, d, balance).value, other, hcm)
  {
    var id := FindExact(rows, d).value;
    ReconcileDecides(rows, d, balance);
    RewriteKeepsLookups(rows, id, Repaired(rows[id], balance), other.dims);
  }

  lemma ReadyStaysReady(st: SyncState, item: Item, at: Setting, other: Item)
    requires AllChecksHold(st.store.rows) && Ready(st.store.rows, other, at.hcm)
    ensures AllChecksHold(SyncOne(st, item, at).state.store.rows)
    ensures Ready(SyncOne(st, item, at).state.store.rows, other, at.hcm)
  {
    SyncOneRows(st, item, at);
    ReadKeepsReady(st, item, at, other);
    var rows := ReadFor(st, item, at).store.rows;
    if at.hcm(item.dims).Some? && Reconcile(rows, item.dims, at.hcm(item.dims).value).Ok? {
      RepairKeepsReady(rows, item.dims, at.hcm(item.dims).value, other, at.hcm);
    }
  }

  /** If the HCM reports usable figures for every listed employee, their rows are there as spelled and the
      audit can be written, then a batch synchronises everybody, and every listed row holds the HCM
      figures afterwards, whether they had risen or fallen. */
  lemma {:induction false} ReadyBatchSucceeds(st: SyncState, items: seq<Item>, at: Setting)
    requires AllChecksHold(st.store.rows)
    requires forall k :: 0 <= k < |items| ==> Ready(st.store.rows, items[k], at.hcm)
    ensures Batch(st, items, at).report.failed == 0 && Batch(st, items, at).report.synced == |items|
    ensures forall k :: 0 <= k < |items| ==> Converged(Batch(st, items, at).state.store.rows, items[k].dims, at.hcm)
    decreases |items|
  {
    ReadyBatchCounts(st, items, at);
    forall k | 0 <= k < |items|
      ensures Converged(Batch(st, items, at).state.store.rows, items[k].dims, at.hcm)
    {
      BatchConverges(st, items, at, k);
    }
  }

  lemma {:induction false} ReadyBatchCounts(st: SyncState, items: seq<Item>, at: Setting)
    requires AllChecksHold(st.store.rows)
    requires forall k :: 0 <= k < |items| ==> Ready(st.store.rows, items[k], at.hcm)
    ensures Batch(st, items, at).report.failed == 0 && Batch(st, items, at).report.synced == |items|
    decreases |items|
  {
    if |items| > 0 {
      var o := SyncOne(st, items[0], at);
      ReadyCanSync(st, items[0], at);
      SyncSucceedsIff(st, items[0], at);
      ReadyStaysReady(st, items[0], at, items[0]);
      forall k | 0 <= k < |items[1..]|
        ensures Ready(o.state.store.rows, items[1..][k], at.hcm)
      {
        ReadyStaysReady(st, items[0], at, items[k + 1]);
      }
      ReadyBatchCounts(o.state, items[1..], at);
      BatchUnfolds(st, items, at);
    }
  }
}
