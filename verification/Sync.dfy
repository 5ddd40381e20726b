/** Synchronisation with the HCM: drift detection and the batch loop. */
module Sync {
  import opened Wrappers
  import opened Failures
  import opened CacheKeys
  import opened FixedPoint
  import opened BalanceTable
  import opened Balances
  import opened AuditTrail
  import opened Reconciliation

  // ---- drift ---------------------------------------------------------------------------------

  datatype Drift = Drift(dims: Dims, increase: bool, amount: int, localAvailable: int, hcmAvailable: int)

  /** `Math.abs(local - hcm) < 0.01`, in doubles. */
  predicate Matches(round: real -> real, localAvailable: int, hcmAvailable: int) {
    Abs(round(round(localAvailable as real / 100.0) - round(hcmAvailable as real / 100.0))) < round(0.01)
  }

  function DetectDrift(round: real -> real, row: Row, balance: HcmBalance): Option<Drift> {
    var a, b := row.figures.available, balance.available;
    if Matches(round, a, b) then None
    else Some(Drift(row.dims, b > a, if b > a then b - a else a - b, a, b))
  }

  /** A row of the balance history. */
  datatype HistoryEntry = HistoryEntry(dims: Dims, previous: int, next: int, isDrift: bool)

  function DriftHistory(d: Dims, drift: Drift): HistoryEntry {
    HistoryEntry(d, drift.localAvailable, drift.hcmAvailable, true)
  }

  function DriftEntry(d: Dims, drift: Drift): AuditEntry {
    DriftFound(d, drift.localAvailable, drift.hcmAvailable)
  }

  // ---- one employee --------------------------------------------------------------------------

  datatype SyncState = SyncState(store: Store, history: seq<HistoryEntry>, audit: seq<AuditEntry>)

  /** One entry of the batch, and whether the audit writes made for it succeed. */
  datatype Item = Item(dims: Dims, driftAudited: bool, reconcileAudited: bool)

  /** What a batch runs against. */
  datatype Setting = Setting(hcm: Hcm, year: int, now: int, round: real -> real)

  /** The drift that was counted, and what the body threw. */
  datatype Outcome = Outcome(state: SyncState, counted: Option<Drift>, failure: Option<Failure>)

  function Logging(audit: seq<AuditEntry>, entry: AuditEntry, writable: bool): seq<AuditEntry> {
    if writable then audit + [entry] else audit
  }

  /** The last stop of the body: overwrite the row, then write the audit entry. */
  function ReconcileItem(st: SyncState, item: Item, balance: HcmBalance, counted: Option<Drift>): Outcome {
    match Reconcile(st.store.rows, item.dims, balance)
    case Err(f) => Outcome(st, counted, Some(f))
    case Ok(rows) =>
      var row := st.store.rows[FindExact(st.store.rows, item.dims).value];
      var audit := Logging(st.audit, ReconcileEntry(row, item.dims, balance), item.reconcileAudited);
      Outcome(st.(store := st.store.(rows := rows), audit := audit), counted,
              if item.reconcileAudited then None else Some(AuditUnavailable))
  }

  /** The body for one employee. */
  function SyncOne(st: SyncState, item: Item, at: Setting): Outcome {
    match at.hcm(item.dims)
    case None => Outcome(st, None, Some(HcmUnavailable))
    case Some(balance) =>
      var reply := GetBalance(st.store, item.dims, at.year, at.hcm, at.now);
      var st1 := st.(store := reply.store);
      match reply.result
      case Err(f) => Outcome(st1, None, Some(f))
      case Ok(row) =>
        match DetectDrift(at.round, row, balance)
        case None => ReconcileItem(st1, item, balance, None)
        case Some(drift) =>
          var st2 := st1.(history := st1.history + [DriftHistory(item.dims, drift)],
                          audit := Logging(st1.audit, DriftEntry(item.dims, drift), item.driftAudited));
          if item.driftAudited then ReconcileItem(st2, item, balance, Some(drift))
          else Outcome(st2, None, Some(AuditUnavailable))
  }

  // ---- the batch -----------------------------------------------------------------------------

  datatype Report = Report(synced: nat, drifted: nat, failed: nat, details: seq<Drift>)

  const NOTHING: Report := Report(0, 0, 0, [])

  function Plus(r: Report, r': Report): Report {
    Report(r.synced + r'.synced, r.drifted + r'.drifted, r.failed + r'.failed, r.details + r'.details)
  }

  function ReportOf(o: Outcome): Report {
    Report(if o.failure.None? then 1 else 0,
           if o.counted.Some? then 1 else 0,
           if o.failure.Some? then 1 else 0,
           if o.counted.Some? then [o.counted.value] else [])
  }

  datatype BatchResult = BatchResult(state: SyncState, report: Report)

  /** Runs a body over the items and adds the reports up. */
  function Accumulate(body: (SyncState, Item) -> Outcome, st: SyncState, items: seq<Item>): BatchResult
    decreases |items|
  {
    if |items| == 0 then BatchResult(st, NOTHING)
    else
      var first := body(st, items[0]);
      var rest := Accumulate(body, first.state, items[1..]);
      BatchResult(rest.state, Plus(ReportOf(first), rest.report))
  }

  function Body(at: Setting): (SyncState, Item) -> Outcome {
    (st: SyncState, item: Item) => SyncOne(st, item, at)
  }

  function Batch(st: SyncState, items: seq<Item>, at: Setting): BatchResult {
    Accumulate(Body(at), st, items)
  }

  lemma PlusAssociates(a: Report, b: Report, c: Report)
    ensures Plus(Plus(a, b), c) == Plus(a, Plus(b, c))
    ensures Plus(NOTHING, a) == a == Plus(a, NOTHING)
  {
  }

  lemma {:induction false} AccumulateComposes(
      body: (SyncState, Item) -> Outcome, st: SyncState, xs: seq<Item>, ys: seq<Item>)
    ensures var first := Accumulate(body, st, xs);
      var second := Accumulate(body, first.state, ys);
      Accumulate(body, st, xs + ys) == BatchResult(second.state, Plus(first.report, second.report))
    decreases |xs|
  {
    if |xs| == 0 {
      assert xs + ys == ys;
      PlusAssociates(Accumulate(body, st, ys).report, NOTHING, NOTHING);
    } else {
      var first := body(st, xs[0]);
      assert (xs + ys)[1..] == xs[1..] + ys;
      AccumulateComposes(body, first.state, xs[1..], ys);
      var rest := Accumulate(body, first.state, xs[1..]);
      PlusAssociates(ReportOf(first), rest.report, Accumulate(body, rest.state, ys).report);
    }
  }

  lemma AccumulateOneMore(body: (SyncState, Item) -> Outcome, st: SyncState, items: seq<Item>, item: Item)
    ensures var before := Accumulate(body, st, items);
      var last := body(before.state, item);
      Accumulate(body, st, items + [item]) == BatchResult(last.state, Plus(before.report, ReportOf(last)))
  {
    AccumulateComposes(body, st, items, [item]);
    var before := Accumulate(body, st, items);
    var last := body(before.state, item);
    assert Accumulate(body, last.state, [item][1..]) == BatchResult(last.state, NOTHING);
    PlusAssociates(ReportOf(last), NOTHING, NOTHING);
  }

  /** A batch that starts at `start` and has gone through `done` is at `st` with this report. */
  ghost predicate BatchIs(start: SyncState, done: seq<Item>, at: Setting, st: SyncState, report: Report) {
    BatchResult(st, report) == Batch(start, done, at)
  }

  /** One more item, done by the body of one pass. */
  ghost predicate PassIs(st: SyncState, report: Report, item: Item, at: Setting, st': SyncState, report': Report) {
    var o := Body(at)(st, item);
    st' == o.state && report' == Plus(report, ReportOf(o))
  }

  lemma BatchGrows(start: SyncState, done: seq<Item>, item: Item, at: Setting,
      st: SyncState, report: Report, st': SyncState, report': Report)
    requires BatchIs(start, done, at, st, report) && PassIs(st, report, item, at, st', report')
    ensures BatchIs(start, done + [item], at, st', report')
  {
    AccumulateOneMore(Body(at), start, done, item);
  }

  // ---- the service ---------------------------------------------------------------------------

  datatype RealTime = RealTime(balance: HcmBalance, drift: Option<Drift>)

  function RealTimeAnswer(o: Outcome, balance: Option<HcmBalance>): Result<RealTime, Failure> {
    match o.failure
    case Some(f) => Err(f)
    case None => if balance.Some? then Ok(RealTime(balance.value, o.counted)) else Err(HcmUnavailable)
  }

  datatype SessionStatus = InProgress | Completed

  datatype Session = Session(status: SessionStatus, synced: nat, total: nat)

  class HistoryRepository {
    var entries: seq<HistoryEntry>

    constructor ()
      ensures entries == []
    {
      entries := [];
    }
  }

  class SyncService {
    const balances: BalancesService
    const resolver: ConflictResolutionService
    const history: HistoryRepository
    const audit: AuditService
    var sessions: map<string, Session>

    constructor (balances: BalancesService, resolver: ConflictResolutionService, history: HistoryRepository, audit: AuditService)
      ensures this.balances == balances && this.resolver == resolver && this.history == history && this.audit == audit
      ensures sessions == map[]
    {
      this.balances := balances;
      this.resolver := resolver;
      this.history := history;
      this.audit := audit;
      this.sessions := map[];
    }

    /** The collaborators share one balances table and one audit log. */
    ghost predicate Wired() {
      resolver.repository == balances.repository && resolver.audit == audit
    }

    ghost function View(): SyncState
      reads balances.repository, balances.cacheService, history, audit
    {
      SyncState(balances.View(), history.entries, audit.entries)
    }

    method RecordDrift(d: Dims, drift: Drift, writable: bool) returns (failure: Option<Failure>)
      modifies history, audit
      ensures history.entries == old(history.entries) + [DriftHistory(d, drift)]
      ensures audit.entries == Logging(old(audit.entries), DriftEntry(d, drift), writable)
      ensures failure == if writable then None else Some(AuditUnavailable)
    {
      history.entries := history.entries + [DriftHistory(d, drift)];
      failure := audit.LogChange(DriftEntry(d, drift), writable);
    }

    /** The body of the inner `try`; `realTimeSyncBalance` runs the same steps and lets the failure out. */
    method SyncItem(item: Item, at: Setting) returns (counted: Option<Drift>, failure: Option<Failure>)
      requires Wired()
      modifies balances.repository, balances.cacheService, history, audit
      ensures Outcome(View(), counted, failure) == SyncOne(old(View()), item, at)
    {
      counted := None;
      var balance := at.hcm(item.dims);
      if balance.None? {
        return None, Some(HcmUnavailable);
      }
      var row := balances.Get(item.dims, at.year, at.hcm, at.now);
      if row.Err? {
        return None, Some(row.error);
      }
      var drift := DetectDrift(at.round, row.value, balance.value);
      if drift.Some? {
        failure := RecordDrift(item.dims, drift.value, item.driftAudited);
        if failure.Some? {
          return;
        }
        counted := drift;
      }
      failure := resolver.ReconcileBalance(item.dims, balance.value, item.reconcileAudited);
    }

    /** One employee on demand: the same steps, and the caller gets the failure. */
    method RealTimeSyncBalance(item: Item, at: Setting) returns (result: Result<RealTime, Failure>)
      requires Wired()
      modifies balances.repository, balances.cacheService, history, audit
      ensures View() == SyncOne(old(View()), item, at).state
      ensures result == RealTimeAnswer(SyncOne(old(View()), item, at), at.hcm(item.dims))
    {
      var counted, failure := SyncItem(item, at);
      var balance := at.hcm(item.dims);
      result := match failure
        case Some(f) => Err(f)
        case None => if balance.Some? then Ok(RealTime(balance.value, counted)) else Err(HcmUnavailable);
    }

    method BatchSyncBalances(syncId: string, items: seq<Item>, at: Setting, eventWritable: bool) returns (result: Report)
      requires Wired()
      modifies this, balances.repository, balances.cacheService, history, audit
      ensures var b := Batch(old(View()), items, at);
        && result == b.report
        && View() == b.state.(audit := Logging(b.state.audit, SyncFinished(syncId), eventWritable))
      ensures sessions == old(sessions)[syncId := Session(Completed, |items|, |items|)]
    {
      sessions := sessions[syncId := Session(InProgress, 0, |items|)];
      result := SyncAll(syncId, items, at);
      sessions := sessions[syncId := sessions[syncId].(status := Completed)];
      var ignored := audit.LogChange(SyncFinished(syncId), eventWritable);
    }

    /** The loop over the employees. */
    method SyncAll(syncId: string, items: seq<Item>, at: Setting) returns (result: Report)
      requires Wired() && syncId in sessions && sessions[syncId] == Session(InProgress, 0, |items|)
      modifies this`sessions, balances.repository, balances.cacheService, history, audit
      ensures BatchIs(old(View()), items, at, View(), result)
      ensures sessions == old(sessions)[syncId := Session(InProgress, |items|, |items|)]
    {
      result := NOTHING;
      for i := 0 to |items|
        invariant BatchIs(old(View()), items[..i], at, View(), result)
        invariant sessions == old(sessions)[syncId := Session(InProgress, i, |items|)]
      {
        assert items[..i + 1] == items[..i] + [items[i]];
        result := SyncNext(items[i], at, result, old(View()), items[..i]);
        CountProgress(syncId);
      }
      assert items[..|items|] == items;
    }

    /** `session.progress.synced++` */
    method CountProgress(syncId: string)
      requires syncId in sessions
      modifies this`sessions
      ensures View() == old(View())
      ensures sessions ==
        old(sessions)[syncId := old(sessions)[syncId].(synced := old(sessions)[syncId].synced + 1)]
    {
      sessions := sessions[syncId := sessions[syncId].(synced := sessions[syncId].synced + 1)];
    }

    /** One loop pass, and what it adds to the batch so far. */
    method SyncNext(item: Item, at: Setting, sofar: Report, ghost start: SyncState, ghost done: seq<Item>)
        returns (result: Report)
      requires Wired() && BatchIs(start, done, at, View(), sofar)
      modifies balances.repository, balances.cacheService, history, audit
      ensures BatchIs(start, done + [item], at, View(), result)
    {
      ghost var before := View();
      result := SyncAndCount(item, at, sofar);
      BatchGrows(start, done, item, at, before, sofar, View(), result);
    }

    /** The `try` and `catch` of one loop pass. */
    method SyncAndCount(item: Item, at: Setting, sofar: Report) returns (result: Report)
      requires Wired()
      modifies balances.repository, balances.cacheService, history, audit
      ensures PassIs(old(View()), sofar, item, at, View(), result)
    {
      var counted, failure := SyncItem(item, at);
      result := sofar;
      if counted.Some? {
        result := result.(drifted := result.drifted + 1, details := result.details + [counted.value]);
      }
      if failure.None? {
        result := result.(synced := result.synced + 1);
      } else {
        result := result.(failed := result.failed + 1);
      }
    }
  }
}
