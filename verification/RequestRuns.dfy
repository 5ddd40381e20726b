/** What every serialized run of request calls keeps: the ledger of days, the lifecycle of each
    request, and the audit trail. */
module RequestRuns {
  import opened Wrappers
  import opened Failures
  import opened CacheKeys
  import opened FixedPoint
  import opened BalanceTable
  import opened Balances
  import opened AuditTrail
  import opened RequestTable
  import opened Requests
  import opened Sums
  import B = BalanceRuns

  datatype Call =
    | Creating(dto: CreateDto, env: Env)
    | Approving(id: nat, env: Env)
    | Rejecting(id: nat, reason: string, env: Env)
    | Cancelling(id: nat, why: Option<string>, env: Env)
    | Looking(lookup: B.Event)

  /** Reads and refreshes may run between the request calls. */
  predicate IsLookup(op: B.Op) {
    B.Hydrates(op) || op.Refreshing?
  }

  predicate Allowed(call: Call) {
    call.Looking? ==> IsLookup(call.lookup.op)
  }

  function Do(w: World, call: Call): World {
    match call
    case Creating(dto, env) => CreateRequest(w, dto, env).world
    case Approving(id, env) => ApproveRequest(w, id, env, []).world
    case Rejecting(id, reason, env) => RejectRequest(w, id, reason, env).world
    case Cancelling(id, why, env) => CancelRequest(w, id, why, env).world
    case Looking(lookup) => w.(store := B.Step(w.store, lookup))
  }

  function RunCalls(w: World, calls: seq<Call>): World {
    if |calls| == 0 then w else Do(RunCalls(w, calls[..|calls| - 1]), calls[|calls| - 1])
  }

  // ---- the ledger ----------------------------------------------------------------------------

  function ApprovedWeight(d: Dims): Request -> int {
    (r: Request) => if r.status == Approved && SameFold(r.dims, d) then r.days else 0
  }

  /** Days of the approved requests on the dimensions of `d`, however spelled. */
  function ApprovedDays(requests: seq<Request>, d: Dims): int {
    SumOf(ApprovedWeight(d), requests)
  }

  function FiguresFor(s: Store, d: Dims): Option<Figures> {
    match RowFor(s.rows, d)
    case Some(row) => Some(row.figures)
    case None => None
  }

  /** The figures the row of `d` would show if nothing were approved. */
  function Opening(w: World, d: Dims): Option<Figures> {
    var approved := ApprovedDays(w.requests, d);
    match FiguresFor(w.store, d)
    case Some(f) => Some(Figures(f.available + approved, f.used - approved))
    case None => None
  }

  predicate VersionMatchesStatus(r: Request) {
    match r.status
    case Pending => r.version == 1
    case Approved => r.version == 2
    case Rejected => r.version == 2
    case Cancelled => r.version == 3
  }

  predicate RowOk(r: Request) {
    RequestChecks(r) && VersionMatchesStatus(r)
  }

  ghost predicate RowsOk(w: World) {
    forall id :: 0 <= id < |w.requests| ==> RowOk(w.requests[id])
  }

  ghost predicate TableOk(s: Store) {
    Functional(s.rows) && AllChecksHold(s.rows)
  }

  ghost predicate RequestOk(s: Store, r: Request) {
    RowOk(r) && RowFor(s.rows, r.dims).Some?
  }

  ghost predicate Covered(w: World, d: Dims) {
    FiguresFor(w.store, d).Some? ==> ApprovedDays(w.requests, d) <= FiguresFor(w.store, d).value.used
  }

  ghost predicate LedgerOk(w: World) {
    && TableOk(w.store)
    && RequestsOk(w)
    && (forall d :: Covered(w, d))
  }

  /** The balance of `d` stays covered, and its opening figures stay what they were if it had any. */
  ghost predicate ConservesAt(w: World, w': World, d: Dims) {
    Covered(w', d) && (Opening(w, d).Some? ==> Opening(w', d) == Opening(w, d))
  }

  ghost predicate RequestsOk(w: World) {
    forall id :: 0 <= id < |w.requests| ==> RequestOk(w.store, w.requests[id])
  }

  /** `w'` keeps the ledger and the opening figures of every balance that `w` has. */
  ghost predicate Conserves(w: World, w': World) {
    TableOk(w'.store) && RequestsOk(w') && forall d :: ConservesAt(w, w', d)
  }

  lemma ConservesKeepsLedger(w: World, w': World)
    requires Conserves(w, w')
    ensures LedgerOk(w')
  {
    forall d
      ensures Covered(w', d)
    {
      assert ConservesAt(w, w', d);
    }
  }

  // ---- balance operations below the request calls --------------------------------------------

  ghost predicate KeptAt(s: Store, s': Store, d: Dims) {
    FiguresFor(s, d).Some? ==> FiguresFor(s', d) == FiguresFor(s, d)
  }

  ghost predicate KeepsFigures(s: Store, s': Store) {
    TableOk(s') && forall d :: KeptAt(s, s', d)
  }

  lemma LookupKeepsFigures(s: Store, e: B.Event)
    requires TableOk(s) && IsLookup(e.op)
    ensures KeepsFigures(s, B.Step(s, e))
  {
    forall d
      ensures TableOk(B.Step(s, e))
      ensures KeptAt(s, B.Step(s, e), d)
    {
      B.StepKeepsTable(s, e, d);
      if B.Hydrates(e.op) {
        B.HydratingOpShape(s, e);
        B.HydrationKeepsLookups(s.rows, e.op.d, e.op.year, e.op.hcm, e.at, d);
      } else if B.Step(s, e) != s {
        var id, row := B.RewriteOpShape(s, e);
        B.RewriteIsLocal(s.rows, id, row, d);
      }
    }
    assert TableOk(B.Step(s, e)) by { B.StepKeepsTable(s, e, e.op.d); }
  }

  lemma NewFiguresConserve(w: World, s': Store)
    requires LedgerOk(w) && KeepsFigures(w.store, s')
    ensures Conserves(w, w.(store := s'))
  {
    var w' := w.(store := s');
    forall id | 0 <= id < |w.requests|
      ensures RequestOk(s', w.requests[id])
    {
      assert RequestOk(w.store, w.requests[id]);
      assert KeptAt(w.store, s', w.requests[id].dims);
    }
    forall d
      ensures ConservesAt(w, w', d)
    {
      assert Covered(w, d) && KeptAt(w.store, s', d);
      if FiguresFor(w.store, d).None? {
        NothingApprovedWithoutRow(w, d);
        if RowFor(s'.rows, d).Some? {
          assert ChecksHold(RowFor(s'.rows, d).value);
        }
      }
    }
  }

  lemma NothingApprovedWithoutRow(w: World, d: Dims)
    requires RequestsOk(w) && FiguresFor(w.store, d).None?
    ensures ApprovedDays(w.requests, d) == 0
  {
    forall k | 0 <= k < |w.requests|
      ensures ApprovedWeight(d)(w.requests[k]) == 0
    {
      assert RequestOk(w.store, w.requests[k]);
      if SameFold(w.requests[k].dims, d) {
        LookupFolds(w.store.rows, w.requests[k].dims, d);
      }
    }
    SumZero(ApprovedWeight(d), w.requests);
  }

  lemma ConservesTransitive(w: World, w1: World, w2: World)
    requires Conserves(w, w1) && Conserves(w1, w2)
    ensures Conserves(w, w2)
  {
    forall d
      ensures ConservesAt(w, w2, d)
    {
      assert ConservesAt(w, w1, d) && ConservesAt(w1, w2, d);
    }
  }

  // ---- what the four calls do to the figures -------------------------------------------------

  /** The figures of `d` become `f`, and no other figures change or appear. */
  ghost predicate MovesFigures(s: Store, s': Store, d: Dims, f: Figures) {
    TableOk(s') && forall d' :: MovedAt(s, s', d, f, d')
  }

  ghost predicate MovedAt(s: Store, s': Store, d: Dims, f: Figures, d': Dims) {
    FiguresFor(s', d') == if SameFold(d', d) then Some(f) else FiguresFor(s, d')
  }

  lemma RewriteMovesFigures(s: Store, e: B.Event, f: Figures)
    requires TableOk(s) && (e.op.Refreshing? || e.op.Spending? || e.op.GivingBack?)
    requires FiguresFor(s, e.op.d).Some? && B.Step(s, e) != s
    requires FiguresFor(B.Step(s, e), e.op.d) == Some(f)
    ensures MovesFigures(s, B.Step(s, e), e.op.d, f)
  {
    var s' := B.Step(s, e);
    var id, row := B.RewriteOpShape(s, e);
    B.RewriteIsLocal(s.rows, id, row, e.op.d);
    forall d'
      ensures MovedAt(s, s', e.op.d, f, d')
    {
      B.RewriteIsLocal(s.rows, id, row, d');
      if SameFold(d', e.op.d) {
        LookupFolds(s.rows, d', e.op.d);
      }
    }
    B.StepKeepsTable(s, e, e.op.d);
  }

  ghost predicate SameFiguresEverywhere(s: Store, s': Store) {
    forall d :: SameAt(s, s', d)
  }

  ghost predicate SameAt(s: Store, s': Store, d: Dims) {
    FiguresFor(s', d) == FiguresFor(s, d)
  }

  lemma RefreshMovesNothing(s: Store, d: Dims, year: int, now: int)
    requires TableOk(s)
    ensures TableOk(RefreshBalance(s, d, year, now).store)
    ensures SameFiguresEverywhere(s, RefreshBalance(s, d, year, now).store)
  {
    var e := B.Event(B.Refreshing(d, year), now);
    assert B.Step(s, e) == RefreshBalance(s, d, year, now).store;
    B.StepKeepsTable(s, e, d);
    if B.Step(s, e) != s {
      var id, row := B.RewriteOpShape(s, e);
      forall d'
        ensures SameAt(s, B.Step(s, e), d')
      {
        B.RewriteIsLocal(s.rows, id, row, d');
      }
    }
  }

  /** A deduction that succeeds moves exactly its days from available to used, for one balance. */
  lemma DeductionMoves(s: Store, d: Dims, days: int)
    requires TableOk(s) && UpdateUsedBalance(s, d, days).result.Ok?
    ensures FiguresFor(s, d).Some?
    ensures MovesFigures(s, UpdateUsedBalance(s, d, days).store, d, Deduct(FiguresFor(s, d).value, days))
  {
    var e := B.Event(B.Spending(d, days), 0);
    var id := FindByDimensions(s.rows, d).value;
    var row := s.rows[id].(figures := Deduct(s.rows[id].figures, days), version := NextVersion(s.rows[id].version));
    B.RewriteIsLocal(s.rows, id, row, d);
    assert B.Step(s, e).rows == s.rows[id := row];
    assert s.rows[id := row][id] == row != s.rows[id];
    RewriteMovesFigures(s, e, Deduct(s.rows[id].figures, days));
  }

  /** A refund that succeeds moves its days back, clamped at zero used days, for one balance. */
  lemma RefundMoves(s: Store, d: Dims, days: int)
    requires TableOk(s) && RefundBalance(s, d, days).result.Ok?
    ensures FiguresFor(s, d).Some?
    ensures MovesFigures(s, RefundBalance(s, d, days).store, d, Refund(FiguresFor(s, d).value, days))
  {
    var e := B.Event(B.GivingBack(d, days), 0);
    var id := FindByDimensions(s.rows, d).value;
    var row := s.rows[id].(figures := Refund(s.rows[id].figures, days), version := NextVersion(s.rows[id].version));
    B.RewriteIsLocal(s.rows, id, row, d);
    assert B.Step(s, e).rows == s.rows[id := row];
    assert s.rows[id := row][id] == row != s.rows[id];
    RewriteMovesFigures(s, e, Refund(s.rows[id].figures, days));
  }

  /** A deduction succeeds exactly when the balance covers it. */
  lemma CoveredDeduction(s: Store, d: Dims, days: int)
    requires TableOk(s) && FiguresFor(s, d).Some? && 0 < days
    ensures UpdateUsedBalance(s, d, days).result.Ok? <==> days <= FiguresFor(s, d).value.available
  {
    assert ChecksHold(s.rows[FindByDimensions(s.rows, d).value]);
  }

  /** A refund of days that are in use is not clamped: it is the exact inverse of the deduction. */
  lemma UnclampedRefund(s: Store, d: Dims, days: int)
    requires TableOk(s) && FiguresFor(s, d).Some?
    requires 0 < days <= FiguresFor(s, d).value.used
    ensures RefundBalance(s, d, days).result.Ok?
    ensures MovesFigures(s, RefundBalance(s, d, days).store, d, Deduct(FiguresFor(s, d).value, -days))
  {
    assert ChecksHold(s.rows[FindByDimensions(s.rows, d).value]);
    RefundMoves(s, d, days);
    assert Refund(FiguresFor(s, d).value, days) == Deduct(FiguresFor(s, d).value, -days);
  }

  // ---- the calls conserve the ledger ---------------------------------------------------------

  function ApprovedPart(r: Request): int {
    if r.status == Approved then r.days else 0
  }

  /** A request changes status while its balance moves by the days that became approved. */
  ghost predicate Transition(w: World, id: nat, r': Request, s': Store) {
    && id < |w.requests|
    && r'.dims == w.requests[id].dims && r'.days == w.requests[id].days && RequestChecks(r') && VersionMatchesStatus(r')
    && FiguresFor(w.store, r'.dims).Some?
    && MovesFigures(w.store, s', r'.dims,
         Deduct(FiguresFor(w.store, r'.dims).value, ApprovedPart(r') - ApprovedPart(w.requests[id])))
  }

  lemma ApprovedDaysAfter(requests: seq<Request>, id: nat, r': Request, d: Dims)
    requires id < |requests| && r'.dims == requests[id].dims && r'.days == requests[id].days
    ensures ApprovedDays(requests[id := r'], d) == ApprovedDays(requests, d)
      + if SameFold(r'.dims, d) then ApprovedPart(r') - ApprovedPart(requests[id]) else 0
  {
    SumUpdate(ApprovedWeight(d), requests, id, r');
  }

  lemma TransitionAt(w: World, id: nat, r': Request, s': Store, d: Dims)
    requires id < |w.requests| && r'.dims == w.requests[id].dims && r'.days == w.requests[id].days
    requires Covered(w, d) && FiguresFor(w.store, r'.dims).Some?
    requires SameFold(d, r'.dims) ==> FiguresFor(w.store, d) == FiguresFor(w.store, r'.dims)
    requires FiguresFor(s', d) ==
      if SameFold(d, r'.dims) then
        Some(Deduct(FiguresFor(w.store, r'.dims).value, ApprovedPart(r') - ApprovedPart(w.requests[id])))
      else FiguresFor(w.store, d)
    ensures ConservesAt(w, w.(store := s', requests := w.requests[id := r']), d)
  {
    ApprovedDaysAfter(w.requests, id, r', d);
  }

  lemma TransitionKeepsRequests(w: World, id: nat, r': Request, s': Store, k: nat)
    requires RequestsOk(w) && Transition(w, id, r', s') && k < |w.requests|
    ensures RequestOk(s', w.requests[id := r'][k])
  {
    var d := w.requests[id := r'][k].dims;
    assert RequestOk(w.store, w.requests[k]);
    assert FiguresFor(w.store, d).Some?;
    assert MovedAt(w.store, s', r'.dims,
      Deduct(FiguresFor(w.store, r'.dims).value, ApprovedPart(r') - ApprovedPart(w.requests[id])), d);
  }

  lemma TransitionConserves(w: World, id: nat, r': Request, s': Store)
    requires LedgerOk(w) && Transition(w, id, r', s')
    ensures Conserves(w, w.(store := s', requests := w.requests[id := r']))
  {
    var w' := w.(store := s', requests := w.requests[id := r']);
    var f := Deduct(FiguresFor(w.store, r'.dims).value, ApprovedPart(r') - ApprovedPart(w.requests[id]));
    forall k | 0 <= k < |w'.requests|
      ensures RequestOk(s', w'.requests[k])
    {
      TransitionKeepsRequests(w, id, r', s', k);
    }
    forall d
      ensures ConservesAt(w, w', d)
    {
      assert Covered(w, d) && MovedAt(w.store, s', r'.dims, f, d);
      if SameFold(d, r'.dims) {
        LookupFolds(w.store.rows, d, r'.dims);
      }
      TransitionAt(w, id, r', s', d);
    }
  }

  /** Only the audit log differs. */
  lemma AuditConserves(w: World, w': World)
    requires LedgerOk(w) && w'.store == w.store && w'.requests == w.requests
    ensures Conserves(w, w')
  {
    forall d
      ensures ConservesAt(w, w', d)
    {
      assert Covered(w, d);
    }
  }

  lemma BalanceFailuresAreNotMismatches(s: Store, d: Dims, days: real, units: int, year: int, hcm: Hcm, now: int)
    ensures RefreshBalance(s, d, year, now).result != Err(VersionMismatch)
    ensures ValidateBalance(s, d, days, year, hcm, now).result != Err(VersionMismatch)
    ensures UpdateUsedBalance(s, d, units).result != Err(VersionMismatch)
  {
  }

  lemma UnrivalledPassNeverMismatches(w: World, id: nat, env: Env)
    ensures ApproveOnce(w, id, env, None).result != Err(VersionMismatch)
  {
    if id < |w.requests| {
      var r := w.requests[id];
      var s1 := RefreshBalance(w.store, r.dims, env.year, env.now).store;
      var s2 := ValidateBalance(s1, r.dims, DaysOf(r), env.year, env.hcm, env.now).store;
      BalanceFailuresAreNotMismatches(w.store, r.dims, DaysOf(r), r.days, env.year, env.hcm, env.now);
      BalanceFailuresAreNotMismatches(s1, r.dims, DaysOf(r), r.days, env.year, env.hcm, env.now);
      BalanceFailuresAreNotMismatches(s2, r.dims, DaysOf(r), r.days, env.year, env.hcm, env.now);
    }
  }

  /** Without rivals the row is saved at the version it was read, so one pass decides. */
  lemma SerialApproveIsOnePass(w: World, id: nat, env: Env)
    ensures ApproveRequest(w, id, env, []) == ApproveOnce(w, id, env, None)
  {
    UnrivalledPassNeverMismatches(w, id, env);
  }

  /** Inside an approval: the refresh finds the row, the validation reads its current figures and
      decides by them alone, and a validated deduction cannot fail. */
  lemma ApprovalFigures(s: Store, d: Dims, days: int, env: Env)
    requires TableOk(s) && FiguresFor(s, d).Some? && days > 0
    ensures var current := RefreshBalance(s, d, env.year, env.now);
      var enough := ValidateBalance(current.store, d, days as real / 100.0, env.year, env.hcm, env.now);
      var deducted := UpdateUsedBalance(enough.store, d, days);
      && current.result.Ok?
      && KeepsFigures(s, enough.store)
      && (enough.result.Ok? <==> days <= FiguresFor(s, d).value.available)
      && (enough.result.Err? ==> enough.result.error == InsufficientBalance)
      && (enough.result.Ok? ==> deducted.result.Ok?)
      && (enough.result.Ok? ==> MovesFigures(s, deducted.store, d, Deduct(FiguresFor(s, d).value, days)))
  {
    var current := RefreshBalance(s, d, env.year, env.now);
    RefreshMovesNothing(s, d, env.year, env.now);
    var id := FindByDimensions(s.rows, d).value;
    assert ChecksHold(s.rows[id]);
    B.ReadAfterRefresh(s, d, env.year, env.now, env.hcm, env.now);
    var enough := ValidateBalance(current.store, d, days as real / 100.0, env.year, env.hcm, env.now);
    assert enough.store.rows == current.store.rows;
    assert SameAt(s, current.store, d);
    forall d'
      ensures KeptAt(s, enough.store, d')
    {
      assert SameAt(s, current.store, d');
    }
    if enough.result.Ok? {
      CoveredDeduction(enough.store, d, days);
      DeductionMoves(enough.store, d, days);
      var f := Deduct(FiguresFor(s, d).value, days);
      var s' := UpdateUsedBalance(enough.store, d, days).store;
      forall d'
        ensures MovedAt(s, s', d, f, d')
      {
        assert SameAt(s, current.store, d') && MovedAt(enough.store, s', d, f, d');
      }
    }
  }

  lemma ConservesButAudit(w: World, w1: World, w2: World)
    requires Conserves(w, w1) && w2.store == w1.store && w2.requests == w1.requests
    ensures Conserves(w, w2)
  {
    ConservesKeepsLedger(w, w1);
    AuditConserves(w1, w2);
    ConservesTransitive(w, w1, w2);
  }

  lemma TransitionWorld(w: World, id: nat, r': Request, w': World)
    requires LedgerOk(w) && Transition(w, id, r', w'.store) && w'.requests == w.requests[id := r']
    ensures Conserves(w, w')
  {
    TransitionConserves(w, id, r', w'.store);
    ConservesButAudit(w, w.(store := w'.store, requests := w.requests[id := r']), w');
  }

  /** The audit entry was appended, or its write failed and the log is unchanged. */
  ghost predicate Logged(w: World, w': World, entry: AuditEntry, env: Env) {
    w'.audit == if env.auditWritable then w.audit + [entry] else w.audit
  }

  /** The validation inside an approval of request `id`. */
  function ValidatedFor(w: World, id: nat, env: Env): Reply<bool>
    requires id < |w.requests|
  {
    var r := w.requests[id];
    ValidateBalance(RefreshBalance(w.store, r.dims, env.year, env.now).store, r.dims, DaysOf(r), env.year, env.hcm, env.now)
  }

  lemma ApprovedWorld(w: World, id: nat, env: Env)
    requires id < |w.requests| && w.requests[id].status == Pending
    requires RequestChecks(w.requests[id]) && w.requests[id].version == 1
    requires RefreshBalance(w.store, w.requests[id].dims, env.year, env.now).result.Ok?
    requires ValidatedFor(w, id, env).result.Ok?
    requires UpdateUsedBalance(ValidatedFor(w, id, env).store, w.requests[id].dims, w.requests[id].days).result.Ok?
    ensures var r, a := w.requests[id], ApproveOnce(w, id, env, None);
      && a.world.store == UpdateUsedBalance(ValidatedFor(w, id, env).store, r.dims, r.days).store
      && a.world.requests == w.requests[id := MarkApproved(r, env.now).(version := 2)]
      && Logged(w, a.world, RequestChange(id, Sync, Some(Pending), Approved), env)
      && a.result == if env.auditWritable then Ok(a.world.requests[id]) else Err(AuditUnavailable)
  {
  }

  /** A serialized approval of a pending request goes through exactly when the balance covers it,
      otherwise it reports that it does not; the CHECK constraints are never met. */
  lemma ApprovalDecides(w: World, id: nat, env: Env)
    requires LedgerOk(w) && id < |w.requests| && w.requests[id].status == Pending
    ensures FiguresFor(w.store, w.requests[id].dims).Some?
    ensures var r, a := w.requests[id], ApproveRequest(w, id, env, []);
      var r' := r.(status := Approved, approvedAt := Some(env.now), hcmSynced := true, version := 2);
      var covered := r.days <= FiguresFor(w.store, r.dims).value.available;
      && Conserves(w, a.world)
      && (!covered ==> a.result == Err(InsufficientBalance))
      && (!covered ==> a.world.requests == w.requests && a.world.audit == w.audit)
      && (covered ==> Logged(w, a.world, RequestChange(id, Sync, Some(Pending), Approved), env))
      && (covered ==> a.world.requests == w.requests[id := r'])
      && (covered ==> a.result == if env.auditWritable then Ok(a.world.requests[id]) else Err(AuditUnavailable))
  {
    var r := w.requests[id];
    assert RequestOk(w.store, r);
    SerialApproveIsOnePass(w, id, env);
    ApprovalFigures(w.store, r.dims, r.days, env);
    var enough := ValidatedFor(w, id, env);
    if enough.result.Err? {
      NewFiguresConserve(w, enough.store);
    } else {
      ApprovedWorld(w, id, env);
      TransitionWorld(w, id, MarkApproved(r, env.now).(version := 2), ApproveOnce(w, id, env, None).world);
    }
  }

  lemma RejectedWorld(w: World, id: nat, reason: string, env: Env)
    requires id < |w.requests| && w.requests[id].status == Pending
    requires RequestChecks(w.requests[id]) && w.requests[id].version == 1
    ensures var r, a := w.requests[id], RejectRequest(w, id, reason, env);
      && a.world.store == w.store
      && a.world.requests == w.requests[id := MarkRejected(r, reason).(version := 2)]
      && Logged(w, a.world, RequestChange(id, Update, Some(Pending), Rejected), env)
      && a.result == if env.auditWritable then Ok(a.world.requests[id]) else Err(AuditUnavailable)
  {
  }

  lemma NothingMoves(s: Store, d: Dims)
    requires TableOk(s) && FiguresFor(s, d).Some?
    ensures MovesFigures(s, s, d, FiguresFor(s, d).value)
  {
    forall d'
      ensures MovedAt(s, s, d, FiguresFor(s, d).value, d')
    {
      if SameFold(d', d) {
        LookupFolds(s.rows, d', d);
      }
    }
  }

  lemma RejectionMoves(w: World, id: nat, reason: string)
    requires TableOk(w.store) && id < |w.requests| && w.requests[id].status == Pending
    requires RequestOk(w.store, w.requests[id])
    ensures Transition(w, id, MarkRejected(w.requests[id], reason).(version := 2), w.store)
  {
    var d := w.requests[id].dims;
    assert FiguresFor(w.store, d).Some?;
    NothingMoves(w.store, d);
    assert Deduct(FiguresFor(w.store, d).value, 0) == FiguresFor(w.store, d).value;
  }

  /** A serialized rejection of a pending request moves no days. */
  lemma RejectionDecides(w: World, id: nat, reason: string, env: Env)
    requires LedgerOk(w) && id < |w.requests| && w.requests[id].status == Pending
    ensures var r, a := w.requests[id], RejectRequest(w, id, reason, env);
      var r' := r.(status := Rejected, rejectionReason := Some(reason), hcmSynced := true, version := 2);
      && Conserves(w, a.world)
      && a.world.store == w.store
      && a.world.requests == w.requests[id := r']
      && Logged(w, a.world, RequestChange(id, Update, Some(Pending), Rejected), env)
      && a.result == if env.auditWritable then Ok(a.world.requests[id]) else Err(AuditUnavailable)
  {
    assert RequestOk(w.store, w.requests[id]);
    RejectedWorld(w, id, reason, env);
    RejectionMoves(w, id, reason);
    TransitionWorld(w, id, MarkRejected(w.requests[id], reason).(version := 2), RejectRequest(w, id, reason, env).world);
  }

  /** The used days of a balance cover each approved request on it. */
  lemma UsedCoversApproved(w: World, id: nat)
    requires LedgerOk(w) && id < |w.requests| && w.requests[id].status == Approved
    ensures FiguresFor(w.store, w.requests[id].dims).Some?
    ensures 0 < w.requests[id].days <= FiguresFor(w.store, w.requests[id].dims).value.used
  {
    var d := w.requests[id].dims;
    assert RequestOk(w.store, w.requests[id]) && Covered(w, d);
    forall k | 0 <= k < |w.requests|
      ensures 0 <= ApprovedWeight(d)(w.requests[k])
    {
      assert RequestOk(w.store, w.requests[k]);
    }
    SumAtLeast(ApprovedWeight(d), w.requests, id);
  }

  lemma CancellationMoves(w: World, id: nat, why: Option<string>)
    requires TableOk(w.store) && id < |w.requests| && w.requests[id].status == Approved
    requires RequestOk(w.store, w.requests[id]) && FiguresFor(w.store, w.requests[id].dims).Some?
    requires w.requests[id].days <= FiguresFor(w.store, w.requests[id].dims).value.used
    ensures RefundBalance(w.store, w.requests[id].dims, w.requests[id].days).result.Ok?
    ensures Transition(w, id, MarkCancelled(w.requests[id], why).(version := 3),
                       RefundBalance(w.store, w.requests[id].dims, w.requests[id].days).store)
  {
    var r := w.requests[id];
    UnclampedRefund(w.store, r.dims, r.days);
    assert ApprovedPart(MarkCancelled(r, why)) - ApprovedPart(r) == -r.days;
  }

  lemma CancelledWorld(w: World, id: nat, why: Option<string>, env: Env)
    requires id < |w.requests| && w.requests[id].status == Approved
    requires RequestChecks(w.requests[id]) && w.requests[id].version == 2
    requires RefundBalance(w.store, w.requests[id].dims, w.requests[id].days).result.Ok?
    ensures var r, a := w.requests[id], CancelRequest(w, id, why, env);
      && a.world.store == RefundBalance(w.store, r.dims, r.days).store
      && a.world.requests == w.requests[id := MarkCancelled(r, why).(version := 3)]
      && Logged(w, a.world, RequestChange(id, Update, Some(Approved), Cancelled), env)
      && a.result == if env.auditWritable then Ok(a.world.requests[id]) else Err(AuditUnavailable)
  {
  }

  /** A serialized cancellation of an approved request always goes through: the used days cover the
      refund, so it is never clamped and the CHECK constraints are never met. */
  lemma CancellationDecides(w: World, id: nat, why: Option<string>, env: Env)
    requires LedgerOk(w) && id < |w.requests| && w.requests[id].status == Approved
    ensures var r, a := w.requests[id], CancelRequest(w, id, why, env);
      var reason := if why.None? || why.value == "" then "Request cancelled" else why.value;
      var r' := r.(status := Cancelled, rejectionReason := Some(reason), hcmSynced := true, version := 3);
      && Conserves(w, a.world)
      && FiguresFor(w.store, r.dims).Some? && r.days <= FiguresFor(w.store, r.dims).value.used
      && a.world.requests == w.requests[id := r']
      && Logged(w, a.world, RequestChange(id, Update, Some(Approved), Cancelled), env)
      && a.result == if env.auditWritable then Ok(a.world.requests[id]) else Err(AuditUnavailable)
  {
    assert RequestOk(w.store, w.requests[id]);
    UsedCoversApproved(w, id);
    CancellationMoves(w, id, why);
    CancelledWorld(w, id, why, env);
    TransitionWorld(w, id, MarkCancelled(w.requests[id], why).(version := 3), CancelRequest(w, id, why, env).world);
  }

  // ---- creation ------------------------------------------------------------------------------

  lemma KeepsFiguresTransitive(s: Store, s1: Store, s2: Store)
    requires KeepsFigures(s, s1) && KeepsFigures(s1, s2)
    ensures KeepsFigures(s, s2)
  {
    forall d
      ensures KeptAt(s, s2, d)
    {
      assert KeptAt(s, s1, d) && KeptAt(s1, s2, d);
    }
  }

  /** The store after the three balance calls of a creation, or of as many as succeed. */
  lemma CreationKeepsFigures(w: World, dto: CreateDto, env: Env)
    requires TableOk(w.store)
    ensures KeepsFigures(w.store, CreateRequest(w, dto, env).world.store)
    ensures ValidateDimensions(w.store, dto.dims, env.year, env.hcm, env.now).result.Ok? ==>
      FiguresFor(CreateRequest(w, dto, env).world.store, dto.dims).Some?
  {
    var s := w.store;
    var e1 := B.Event(B.CheckDims(dto.dims, env.year, env.hcm), env.now);
    var e2 := B.Event(B.Check(dto.dims, dto.days, env.year, env.hcm), env.now);
    var e3 := B.Event(B.Read(dto.dims, env.year, env.hcm), env.now);
    var s1 := B.Step(s, e1);
    var s2 := B.Step(s1, e2);
    var s3 := B.Step(s2, e3);
    LookupKeepsFigures(s, e1);
    LookupKeepsFigures(s1, e2);
    LookupKeepsFigures(s2, e3);
    KeepsFiguresTransitive(s, s1, s2);
    KeepsFiguresTransitive(s, s2, s3);
    B.HydrationAnswersLookup(s.rows, dto.dims, env.year, env.hcm, env.now);
    assert ValidateDimensions(s, dto.dims, env.year, env.hcm, env.now).store == s1;
    assert ValidateBalance(s1, dto.dims, dto.days, env.year, env.hcm, env.now).store == s2;
    assert GetBalance(s2, dto.dims, env.year, env.hcm, env.now).store == s3;
    CreationStores(w, dto, env, s1, s2, s3);
    if ValidateDimensions(s, dto.dims, env.year, env.hcm, env.now).result.Ok? {
      assert FiguresFor(s1, dto.dims).Some?;
      assert KeptAt(s1, s2, dto.dims) && KeptAt(s2, s3, dto.dims);
    }
  }

  lemma CreationStores(w: World, dto: CreateDto, env: Env, s1: Store, s2: Store, s3: Store)
    requires ValidateDimensions(w.store, dto.dims, env.year, env.hcm, env.now).store == s1
    requires ValidateBalance(s1, dto.dims, dto.days, env.year, env.hcm, env.now).store == s2
    requires GetBalance(s2, dto.dims, env.year, env.hcm, env.now).store == s3
    ensures CreateRequest(w, dto, env).world.store in {s1, s2, s3}
  {
  }

  /** The row that a creation, once its balance calls have answered, would insert. */
  ghost predicate Creates(w: World, w': World, dto: CreateDto) {
    && |w'.requests| == |w.requests| + 1 && w'.requests[..|w.requests|] == w.requests
    && RequestChecks(w'.requests[|w.requests|])
    && w'.requests[|w.requests|].version == 1
    && w'.requests[|w.requests|].status == Pending
    && w'.requests[|w.requests|].dims == dto.dims
    && w'.requests[|w.requests|].days == ToFixed2(dto.days)
  }

  /** A creation appends one pending request at version 1, or leaves the requests alone. */
  lemma CreationShape(w: World, dto: CreateDto, env: Env)
    ensures var a := CreateRequest(w, dto, env);
      || (a.world.requests == w.requests && a.world.audit == w.audit && a.result.Err?)
      || (&& ValidateDimensions(w.store, dto.dims, env.year, env.hcm, env.now).result.Ok?
          && Creates(w, a.world, dto)
          && Logged(w, a.world, RequestChange(|w.requests|, Create, None, Pending), env)
          && a.result == if env.auditWritable then Ok(a.world.requests[|w.requests|]) else Err(AuditUnavailable))
  {
    var dims := ValidateDimensions(w.store, dto.dims, env.year, env.hcm, env.now);
    var enough := ValidateBalance(dims.store, dto.dims, dto.days, env.year, env.hcm, env.now);
    var balance := GetBalance(enough.store, dto.dims, env.year, env.hcm, env.now);
    if dims.result.Ok? && enough.result.Ok? && balance.result.Ok? {
      CreationInserts(w, dto, env, balance.store, balance.result.value);
    }
  }

  lemma CreationInserts(w: World, dto: CreateDto, env: Env, store: Store, row: Row)
    requires var dims := ValidateDimensions(w.store, dto.dims, env.year, env.hcm, env.now);
      var enough := ValidateBalance(dims.store, dto.dims, dto.days, env.year, env.hcm, env.now);
      && dims.result.Ok? && enough.result.Ok?
      && GetBalance(enough.store, dto.dims, env.year, env.hcm, env.now) == Reply(store, Ok(row))
    ensures var a, r := CreateRequest(w, dto, env), NewRequest(dto, row, env.now);
      && (!RequestChecks(r) ==> a == Answer(w.(store := store), Err(CheckViolation)))
      && (RequestChecks(r) ==>
            && a.world.requests == w.requests + [r]
            && Logged(w, a.world, RequestChange(|w.requests|, Create, None, Pending), env)
            && a.result == if env.auditWritable then Ok(r) else Err(AuditUnavailable))
  {
  }

  lemma PendingAppendAt(w: World, r: Request, d: Dims)
    requires Covered(w, d) && r.status == Pending
    ensures ConservesAt(w, w.(requests := w.requests + [r]), d)
  {
    SumAppend(ApprovedWeight(d), w.requests, r);
  }

  lemma PendingAppendConserves(w: World, r: Request)
    requires LedgerOk(w)
    requires RequestOk(w.store, r) && r.status == Pending
    ensures Conserves(w, w.(requests := w.requests + [r]))
  {
    var w' := w.(requests := w.requests + [r]);
    forall k | 0 <= k < |w'.requests|
      ensures RequestOk(w.store, w'.requests[k])
    {
      assert k < |w.requests| ==> RequestOk(w.store, w.requests[k]);
    }
    forall d
      ensures ConservesAt(w, w', d)
    {
      assert Covered(w, d);
      PendingAppendAt(w, r, d);
    }
  }

  lemma AppendConserves(w: World, s': Store, r: Request)
    requires LedgerOk(w) && KeepsFigures(w.store, s')
    requires RequestOk(s', r) && r.status == Pending
    ensures Conserves(w, w.(store := s', requests := w.requests + [r]))
  {
    var w1 := w.(store := s');
    NewFiguresConserve(w, s');
    ConservesKeepsLedger(w, w1);
    PendingAppendConserves(w1, r);
    ConservesTransitive(w, w1, w1.(requests := w.requests + [r]));
  }

  lemma CreationConserves(w: World, dto: CreateDto, env: Env)
    requires LedgerOk(w)
    ensures Conserves(w, CreateRequest(w, dto, env).world)
  {
    var a := CreateRequest(w, dto, env);
    CreationKeepsFigures(w, dto, env);
    CreationShape(w, dto, env);
    if a.world.requests == w.requests {
      NewFiguresConserve(w, a.world.store);
      ConservesButAudit(w, w.(store := a.world.store), a.world);
    } else {
      var r := a.world.requests[|w.requests|];
      assert a.world.requests == w.requests + [r];
      assert FiguresFor(a.world.store, r.dims).Some?;
      AppendConserves(w, a.world.store, r);
      ConservesButAudit(w, w.(store := a.world.store, requests := w.requests + [r]), a.world);
    }
  }

  // ---- whole runs ----------------------------------------------------------------------------

  lemma CallConserves(w: World, call: Call)
    requires LedgerOk(w) && Allowed(call)
    ensures Conserves(w, Do(w, call))
  {
    match call
    case Creating(dto, env) => CreationConserves(w, dto, env);
    case Approving(id, env) =>
      if id < |w.requests| && w.requests[id].status == Pending { ApprovalDecides(w, id, env); }
      else { AuditConserves(w, Do(w, call)); }
    case Rejecting(id, reason, env) =>
      if id < |w.requests| && w.requests[id].status == Pending { RejectionDecides(w, id, reason, env); }
      else { AuditConserves(w, Do(w, call)); }
    case Cancelling(id, why, env) =>
      if id < |w.requests| && w.requests[id].status == Approved { CancellationDecides(w, id, why, env); }
      else { AuditConserves(w, Do(w, call)); }
    case Looking(lookup) =>
      LookupKeepsFigures(w.store, lookup);
      NewFiguresConserve(w, Do(w, call).store);
  }

  lemma {:induction false} RunConserves(w: World, calls: seq<Call>)
    requires LedgerOk(w) && forall c :: c in calls ==> Allowed(c)
    ensures Conserves(w, RunCalls(w, calls))
  {
    if |calls| == 0 {
      AuditConserves(w, w);
    } else {
      var before, call := RunCalls(w, calls[..|calls| - 1]), calls[|calls| - 1];
      assert call in calls;
      RunConserves(w, calls[..|calls| - 1]);
      ConservesKeepsLedger(w, before);
      CallConserves(before, call);
      ConservesTransitive(w, before, Do(before, call));
    }
  }

  lemma RunConservesAt(w: World, calls: seq<Call>, d: Dims)
    requires LedgerOk(w) && forall c :: c in calls ==> Allowed(c)
    ensures ConservesAt(w, RunCalls(w, calls), d) && AllChecksHold(RunCalls(w, calls).store.rows)
  {
    RunConserves(w, calls);
  }

  /** From `w` to `w'` the balance of `d` gave exactly the days of the requests that became approved
      from its available to its used figure, and neither figure is negative. */
  ghost predicate DaysMoved(w: World, w': World, d: Dims, f: Figures) {
    var moved := ApprovedDays(w'.requests, d) - ApprovedDays(w.requests, d);
    && FiguresFor(w'.store, d) == Some(Figures(f.available - moved, f.used + moved))
    && 0 <= f.available - moved && 0 <= f.used + moved
    && ApprovedDays(w'.requests, d) <= f.used + moved
  }

  lemma FiguresFromOpening(w: World, w': World, d: Dims, f: Figures)
    requires FiguresFor(w.store, d) == Some(f) && ConservesAt(w, w', d) && AllChecksHold(w'.store.rows)
    ensures DaysMoved(w, w', d, f)
  {
    assert ChecksHold(RowFor(w'.store.rows, d).value);
  }

  /** The ledger theorem. Over every serialized run, a balance has given exactly the days of the
      requests that became approved from its available to its used figure; neither figure is ever
      negative, and the used days always cover what is approved. */
  lemma DaysAreConserved(w: World, calls: seq<Call>, d: Dims, f: Figures)
    requires LedgerOk(w) && forall c :: c in calls ==> Allowed(c)
    requires FiguresFor(w.store, d) == Some(f)
    ensures DaysMoved(w, RunCalls(w, calls), d, f)
  {
    RunConservesAt(w, calls, d);
    FiguresFromOpening(w, RunCalls(w, calls), d, f);
  }

  /** A ledger with no requests yet is sound as soon as its table is. */
  lemma EmptyLedger(s: Store)
    requires TableOk(s)
    ensures LedgerOk(World(s, [], []))
  {
    forall d
      ensures Covered(World(s, [], []), d)
    {
      if RowFor(s.rows, d).Some? {
        assert ChecksHold(RowFor(s.rows, d).value);
      }
    }
  }

  // ---- the audit trail -----------------------------------------------------------------------

  datatype Change = Change(from: Option<Status>, to: Status)

  /** The entries of one request, oldest first. */
  function TrailOf(audit: seq<AuditEntry>, id: nat): seq<Change> {
    if |audit| == 0 then []
    else
      var earlier, e := TrailOf(audit[..|audit| - 1], id), audit[|audit| - 1];
      if e.RequestChange? && e.id == id then earlier + [Change(e.from, e.to)] else earlier
  }

  /** The only histories there are. */
  function Lifecycle(status: Status): seq<Change> {
    match status
    case Pending => [Change(None, Pending)]
    case Approved => [Change(None, Pending), Change(Some(Pending), Approved)]
    case Rejected => [Change(None, Pending), Change(Some(Pending), Rejected)]
    case Cancelled => [Change(None, Pending), Change(Some(Pending), Approved), Change(Some(Approved), Cancelled)]
  }

  ghost predicate TrailsOk(w: World) {
    && (forall id :: 0 <= id < |w.requests| ==> TrailOf(w.audit, id) == Lifecycle(w.requests[id].status))
    && (forall id: nat :: |w.requests| <= id ==> TrailOf(w.audit, id) == [])
  }

  predicate AuditWritable(call: Call) {
    call.Looking? || call.env.auditWritable
  }

  lemma TrailAppend(audit: seq<AuditEntry>, e: AuditEntry, id: nat)
    ensures TrailOf(audit + [e], id) ==
      TrailOf(audit, id) + if e.RequestChange? && e.id == id then [Change(e.from, e.to)] else []
  {
    assert (audit + [e])[..|audit|] == audit;
  }

  lemma LoggedKeepsTrails(w: World, w': World, id: nat, action: Action, from: Option<Status>, to: Status)
    requires TrailsOk(w) && id <= |w.requests|
    requires w'.audit == w.audit + [RequestChange(id, action, from, to)]
    requires if id == |w.requests| then |w'.requests| == |w.requests| + 1 && w'.requests[..id] == w.requests
      else |w'.requests| == |w.requests| && w'.requests == w.requests[id := w'.requests[id]]
    requires w'.requests[id].status == to
    requires Lifecycle(to) == (if id == |w.requests| then [] else Lifecycle(w.requests[id].status)) + [Change(from, to)]
    ensures TrailsOk(w')
  {
    forall k: nat
      ensures k < |w'.requests| ==> TrailOf(w'.audit, k) == Lifecycle(w'.requests[k].status)
      ensures |w'.requests| <= k ==> TrailOf(w'.audit, k) == []
    {
      TrailAppend(w.audit, RequestChange(id, action, from, to), k);
      if k < |w.requests| && k != id {
        assert w'.requests[k] == w.requests[k];
      }
    }
  }

  /** Only request `id` has changed, to `status` and a version that fits, and the entry was logged. */
  ghost predicate Changed(w: World, w': World, id: nat, status: Status, action: Action, env: Env) {
    && id < |w.requests| && |w'.requests| == |w.requests|
    && w'.requests == w.requests[id := w'.requests[id]]
    && w'.requests[id].status == status && RowOk(w'.requests[id])
    && w'.requests[id].dims == w.requests[id].dims && w'.requests[id].days == w.requests[id].days
    && Logged(w, w', RequestChange(id, action, Some(w.requests[id].status), status), env)
  }

  predicate RowsAndLogKept(w: World, w': World) {
    w'.requests == w.requests && w'.audit == w.audit
  }

  /** Whatever the balances are, an approval changes a pending request or neither requests nor log. */
  lemma ApprovalShape(w: World, id: nat, env: Env)
    requires RowsOk(w)
    ensures var w' := ApproveRequest(w, id, env, []).world;
      || RowsAndLogKept(w, w')
      || (Changed(w, w', id, Approved, Sync, env) && w.requests[id].status == Pending)
  {
    SerialApproveIsOnePass(w, id, env);
    assert id < |w.requests| ==> RowOk(w.requests[id]);
  }

  lemma RejectionShape(w: World, id: nat, reason: string, env: Env)
    requires RowsOk(w)
    ensures var w' := RejectRequest(w, id, reason, env).world;
      || RowsAndLogKept(w, w')
      || (Changed(w, w', id, Rejected, Update, env) && w.requests[id].status == Pending)
  {
    assert id < |w.requests| ==> RowOk(w.requests[id]);
  }

  lemma CancellationShape(w: World, id: nat, why: Option<string>, env: Env)
    requires RowsOk(w)
    ensures var w' := CancelRequest(w, id, why, env).world;
      || RowsAndLogKept(w, w')
      || (Changed(w, w', id, Cancelled, Update, env) && w.requests[id].status == Approved)
  {
    assert id < |w.requests| ==> RowOk(w.requests[id]);
  }

  /** The rows keep their versions in step, and the trails too if the entries can be written. */
  ghost predicate Told(w: World, w': World, writable: bool) {
    RowsOk(w') && (TrailsOk(w) && writable ==> TrailsOk(w'))
  }

  lemma ChangeIsTold(w: World, w': World, id: nat, status: Status, action: Action, env: Env)
    requires RowsOk(w) && Changed(w, w', id, status, action, env)
    requires Lifecycle(status) == Lifecycle(w.requests[id].status) + [Change(Some(w.requests[id].status), status)]
    ensures Told(w, w', env.auditWritable)
  {
    if TrailsOk(w) && env.auditWritable {
      LoggedKeepsTrails(w, w', id, action, Some(w.requests[id].status), status);
    }
  }

  lemma CreationIsTold(w: World, dto: CreateDto, env: Env)
    requires RowsOk(w)
    ensures Told(w, CreateRequest(w, dto, env).world, env.auditWritable)
  {
    var w' := CreateRequest(w, dto, env).world;
    CreationShape(w, dto, env);
    if w'.requests != w.requests {
      forall id | 0 <= id < |w'.requests|
        ensures RowOk(w'.requests[id])
      {
        assert id < |w.requests| ==> w'.requests[id] == w'.requests[..|w.requests|][id];
      }
      if TrailsOk(w) && env.auditWritable {
        LoggedKeepsTrails(w, w', |w.requests|, Create, None, Pending);
      }
    }
  }

  lemma CallIsTold(w: World, call: Call)
    requires RowsOk(w)
    ensures Told(w, Do(w, call), AuditWritable(call))
  {
    match call
    case Creating(dto, env) => CreationIsTold(w, dto, env);
    case Approving(id, env) =>
      ApprovalShape(w, id, env);
      if !RowsAndLogKept(w, Do(w, call)) { ChangeIsTold(w, Do(w, call), id, Approved, Sync, env); }
    case Rejecting(id, reason, env) =>
      RejectionShape(w, id, reason, env);
      if !RowsAndLogKept(w, Do(w, call)) { ChangeIsTold(w, Do(w, call), id, Rejected, Update, env); }
    case Cancelling(id, why, env) =>
      CancellationShape(w, id, why, env);
      if !RowsAndLogKept(w, Do(w, call)) { ChangeIsTold(w, Do(w, call), id, Cancelled, Update, env); }
    case Looking(lookup) =>
  }

  lemma {:induction false} RunIsTold(w: World, calls: seq<Call>)
    requires RowsOk(w)
    ensures RowsOk(RunCalls(w, calls))
    ensures TrailsOk(w) && (forall c :: c in calls ==> AuditWritable(c)) ==> TrailsOk(RunCalls(w, calls))
  {
    if |calls| > 0 {
      var earlier, call := calls[..|calls| - 1], calls[|calls| - 1];
      assert call in calls;
      RunIsTold(w, earlier);
      CallIsTold(RunCalls(w, earlier), call);
    }
  }

  /** Over every serialized run, the version of a request tells its status apart from the others. The
      balances may be in any state, and reconciled at any time. */
  lemma VersionsFollowStatus(w: World, calls: seq<Call>, id: nat)
    requires RowsOk(w) && id < |RunCalls(w, calls).requests|
    ensures VersionMatchesStatus(RunCalls(w, calls).requests[id])
  {
    RunIsTold(w, calls);
    assert RowOk(RunCalls(w, calls).requests[id]);
  }

  /** Replay: over every serialized run whose audit writes succeed, with reconciliations and any other
      balance operations in between, the entries of a request tell its whole history, each starting at
      the status where the one before ended; the last one gives its status and their number its
      version. */
  lemma AuditReplays(w: World, calls: seq<Call>, id: nat)
    requires RowsOk(w) && TrailsOk(w)
    requires forall c :: c in calls ==> AuditWritable(c)
    requires id < |RunCalls(w, calls).requests|
    ensures var w' := RunCalls(w, calls);
      && TrailOf(w'.audit, id) == Lifecycle(w'.requests[id].status)
      && |TrailOf(w'.audit, id)| == w'.requests[id].version
  {
    RunIsTold(w, calls);
    assert RowOk(RunCalls(w, calls).requests[id]);
  }

  /** In a lifecycle each change starts where the one before ended, and the last one is the status. */
  lemma LifecycleChains(status: Status)
    ensures var changes := Lifecycle(status);
      && changes[0].from == None && changes[|changes| - 1].to == status
      && forall k :: 0 < k < |changes| ==> changes[k].from == Some(changes[k - 1].to)
  {
  }

  // ---- balances that appear during a run -----------------------------------------------------

  /** No request can be on a balance that has no row yet. */
  lemma NoRequestWithoutRow(w: World, id: nat, d: Dims)
    requires RequestsOk(w) && id < |w.requests| && FiguresFor(w.store, d).None?
    ensures !SameFold(w.requests[id].dims, d)
  {
    assert RequestOk(w.store, w.requests[id]);
    if SameFold(w.requests[id].dims, d) {
      LookupFolds(w.store.rows, w.requests[id].dims, d);
    }
  }

  lemma ChangeApprovesNothing(w: World, w': World, id: nat, status: Status, action: Action, env: Env, d: Dims)
    requires RequestsOk(w) && Changed(w, w', id, status, action, env) && FiguresFor(w.store, d).None?
    ensures ApprovedDays(w'.requests, d) == ApprovedDays(w.requests, d)
  {
    NoRequestWithoutRow(w, id, d);
    ApprovedDaysAfter(w.requests, id, w'.requests[id], d);
    assert SameFold(w'.requests[id].dims, d) <==> SameFold(w.requests[id].dims, d);
  }

  lemma CreationApprovesNothing(w: World, dto: CreateDto, env: Env, d: Dims)
    ensures ApprovedDays(CreateRequest(w, dto, env).world.requests, d) == ApprovedDays(w.requests, d)
  {
    var w' := CreateRequest(w, dto, env).world;
    CreationShape(w, dto, env);
    if w'.requests != w.requests {
      var r := w'.requests[|w.requests|];
      SumAppend(ApprovedWeight(d), w.requests, r);
      assert w'.requests == w.requests + [r];
    }
  }

  lemma CallApprovesNothingWithoutRow(w: World, call: Call, d: Dims)
    requires LedgerOk(w) && FiguresFor(w.store, d).None?
    ensures ApprovedDays(Do(w, call).requests, d) == 0
  {
    NothingApprovedWithoutRow(w, d);
    forall id | 0 <= id < |w.requests|
      ensures RowOk(w.requests[id])
    {
      assert RequestOk(w.store, w.requests[id]);
    }
    match call
    case Creating(dto, env) => CreationApprovesNothing(w, dto, env, d);
    case Approving(id, env) =>
      ApprovalShape(w, id, env);
      if !RowsAndLogKept(w, Do(w, call)) { ChangeApprovesNothing(w, Do(w, call), id, Approved, Sync, env, d); }
    case Rejecting(id, reason, env) =>
      RejectionShape(w, id, reason, env);
      if !RowsAndLogKept(w, Do(w, call)) { ChangeApprovesNothing(w, Do(w, call), id, Rejected, Update, env, d); }
    case Cancelling(id, why, env) =>
      CancellationShape(w, id, why, env);
      if !RowsAndLogKept(w, Do(w, call)) { ChangeApprovesNothing(w, Do(w, call), id, Cancelled, Update, env, d); }
    case Looking(lookup) =>
  }

  /** The balance of `d`, once `f`, has given exactly the approved days from available to used. */
  ghost predicate HasGiven(w: World, d: Dims, f: Figures) {
    var approved := ApprovedDays(w.requests, d);
    && FiguresFor(w.store, d) == Some(Figures(f.available - approved, f.used + approved))
    && 0 <= approved <= f.available && 0 <= f.used
  }

  lemma GivingBegins(w: World, d: Dims)
    requires TableOk(w.store) && FiguresFor(w.store, d).Some? && ApprovedDays(w.requests, d) == 0
    ensures HasGiven(w, d, FiguresFor(w.store, d).value)
  {
    assert ChecksHold(RowFor(w.store.rows, d).value);
  }

  lemma HydratingCall(w: World, call: Call, d: Dims)
    requires LedgerOk(w) && Allowed(call)
    requires FiguresFor(w.store, d).None? && FiguresFor(Do(w, call).store, d).Some?
    ensures HasGiven(Do(w, call), d, FiguresFor(Do(w, call).store, d).value)
  {
    CallConserves(w, call);
    CallApprovesNothingWithoutRow(w, call, d);
    GivingBegins(Do(w, call), d);
  }

  lemma ApprovedDaysNotNegative(w: World, d: Dims)
    requires RequestsOk(w)
    ensures 0 <= ApprovedDays(w.requests, d)
  {
    forall k | 0 <= k < |w.requests|
      ensures 0 <= ApprovedWeight(d)(w.requests[k])
    {
      assert RequestOk(w.store, w.requests[k]);
    }
    SumNonNegative(ApprovedWeight(d), w.requests);
  }

  lemma GivingCarries(w: World, w': World, d: Dims, f: Figures)
    requires Conserves(w, w') && HasGiven(w, d, f)
    ensures HasGiven(w', d, f)
  {
    assert ConservesAt(w, w', d);
    FiguresFromOpening(w, w', d, FiguresFor(w.store, d).value);
    ApprovedDaysNotNegative(w', d);
  }

  lemma CallKeepsGiving(w: World, call: Call, d: Dims, f: Figures)
    requires LedgerOk(w) && Allowed(call) && HasGiven(w, d, f)
    ensures HasGiven(Do(w, call), d, f)
  {
    CallConserves(w, call);
    GivingCarries(w, Do(w, call), d, f);
  }

  /** Call `n` of the run hydrates the balance of `d` with the figures `f`. */
  ghost predicate HydratedAt(w: World, calls: seq<Call>, n: nat, d: Dims, f: Figures) {
    && n < |calls| && FiguresFor(RunCalls(w, calls[..n]).store, d).None?
    && FiguresFor(RunCalls(w, calls[..n + 1]).store, d) == Some(f)
  }

  lemma HydratedAtCarries(w: World, calls: seq<Call>, n: nat, d: Dims, f: Figures)
    requires |calls| > 0 && HydratedAt(w, calls[..|calls| - 1], n, d, f)
    ensures HydratedAt(w, calls, n, d, f)
  {
    var earlier := calls[..|calls| - 1];
    assert earlier[..n] == calls[..n] && earlier[..n + 1] == calls[..n + 1];
  }

  lemma HydratedLast(w: World, calls: seq<Call>, d: Dims, f: Figures)
    requires |calls| > 0 && FiguresFor(RunCalls(w, calls[..|calls| - 1]).store, d).None?
    requires FiguresFor(RunCalls(w, calls).store, d) == Some(f)
    ensures HydratedAt(w, calls, |calls| - 1, d, f)
  {
    assert calls[..|calls|] == calls;
  }

  /** The ledger theorem for a balance that has no row at first: some call hydrates it, and from then
      on it has given exactly the approved days from available to used. */
  lemma {:induction false} HydratedDaysAreConserved(w: World, calls: seq<Call>, d: Dims) returns (n: nat, f: Figures)
    requires LedgerOk(w) && forall c :: c in calls ==> Allowed(c)
    requires FiguresFor(w.store, d).None? && FiguresFor(RunCalls(w, calls).store, d).Some?
    ensures HydratedAt(w, calls, n, d, f) && HasGiven(RunCalls(w, calls), d, f)
  {
    var earlier, call := calls[..|calls| - 1], calls[|calls| - 1];
    assert call in calls;
    RunConserves(w, earlier);
    ConservesKeepsLedger(w, RunCalls(w, earlier));
    if FiguresFor(RunCalls(w, earlier).store, d).None? {
      n, f := |earlier|, FiguresFor(RunCalls(w, calls).store, d).value;
      HydratedLast(w, calls, d, f);
      HydratingCall(RunCalls(w, earlier), call, d);
    } else {
      n, f := HydratedDaysAreConserved(w, earlier, d);
      HydratedAtCarries(w, calls, n, d, f);
      CallKeepsGiving(RunCalls(w, earlier), call, d, f);
    }
  }
}
