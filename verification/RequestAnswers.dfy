/** What the request service answers and writes, in terms of the request, the balance and the clock. */
module RequestAnswers {
  import opened Wrappers
  import opened Failures
  import opened CacheKeys
  import opened FixedPoint
  import opened BalanceTable
  import opened BalanceCache
  import opened Balances
  import opened AuditTrail
  import opened RequestTable
  import opened Requests
  import opened RequestRuns
  import opened BalanceAnswers
  import B = BalanceRuns

  // ---- creation ------------------------------------------------------------------------------

  /** The row that a creation judged by `balance` appends. */
  function Created(dto: CreateDto, balance: Row, now: int): Request {
    var snapshot := Snapshot(balance.figures, balance.carryover, balance.version, now);
    Request(dto.dims, dto.startDate, dto.endDate, ToFixed2(dto.days), Pending, snapshot, now, None, None, false, 1)
  }

  /** The balance a creation is judged by: the one cached for it, or else the row its lookup finds once
      it has been hydrated. */
  function JudgedBy(w: World, after: World, dto: CreateDto, env: Env): Option<Row> {
    match Fresh(w.store.cache, CacheKey(dto.dims, env.year), env.now)
    case Some(row) => Some(row)
    case None => RowFor(after.store.rows, dto.dims)
  }

  /** What the balance calls of a creation do: the dimensions are checked against the table alone, and
      the balance is read twice with one answer. */
  lemma CreationReads(s: Store, d: Dims, year: int, hcm: Hcm, now: int)
    ensures var known := ValidateDimensions(s, d, year, hcm, now);
      var g := GetBalance(known.store, d, year, hcm, now);
      && known.result == (if RowFor(known.store.rows, d).Some? then Ok(true) else Err(InvalidDimension))
      && (known.result.Ok? ==>
            && g.store.rows == known.store.rows
            && g.result == Ok(Fresh(s.cache, CacheKey(d, year), now).GetOr(RowFor(known.store.rows, d).value))
            && GetBalance(g.store, d, year, hcm, now) == g)
  {
    var known := ValidateDimensions(s, d, year, hcm, now);
    DimensionsDecide(s, d, year, hcm, now);
    if known.result.Ok? {
      B.ReadShape(known.store, d, year, hcm, now);
      FoundStays(known.store.rows, d, year, hcm, now);
      var g := GetBalance(known.store, d, year, hcm, now);
      B.ReadShape(g.store, d, year, hcm, now);
    }
  }

  lemma FoundStays(rows: seq<Row>, d: Dims, year: int, hcm: Hcm, now: int)
    requires RowFor(rows, d).Some?
    ensures FindOrHydrate(rows, d, year, hcm, now) == Hydration(rows, RowFor(rows, d))
  {
  }

  /** A creation is refused for a dimension that neither the table nor the HCM knows, then for a balance
      that does not cover the days asked for, then for dates out of order or days that round to nothing;
      otherwise it appends its row. A warm slot is the balance it is judged by. */
  lemma CreationDecides(w: World, dto: CreateDto, env: Env)
    ensures var a := CreateRequest(w, dto, env);
      var judge := JudgedBy(w, a.world, dto, env);
      if RowFor(a.world.store.rows, dto.dims).None? then a == Answer(w, Err(InvalidDimension))
      else
        && judge.Some?
        && var covered := 100.0 * dto.days <= judge.value.figures.available as real;
           var fits := dto.startDate <= dto.endDate && ToFixed2(dto.days) > 0;
           var entry := RequestChange(|w.requests|, Create, None, Pending);
           if covered && fits then
             && a.world.requests == w.requests + [Created(dto, judge.value, env.now)]
             && a.world.audit == (if env.auditWritable then w.audit + [entry] else w.audit)
             && a.result == (if env.auditWritable then Ok(Created(dto, judge.value, env.now)) else Err(AuditUnavailable))
           else
             && a.world.requests == w.requests && a.world.audit == w.audit
             && a.result == Err(if covered then CheckViolation else InsufficientBalance)
  {
    var known := ValidateDimensions(w.store, dto.dims, env.year, env.hcm, env.now);
    CreationReads(w.store, dto.dims, env.year, env.hcm, env.now);
    UnknownLeavesStore(w.store, dto.dims, env.year, env.hcm, env.now);
    if known.result.Ok? {
      ValidationDecides(known.store, dto.dims, dto.days, env.year, env.hcm, env.now);
    }
  }

  lemma UnknownLeavesStore(s: Store, d: Dims, year: int, hcm: Hcm, now: int)
    ensures var known := ValidateDimensions(s, d, year, hcm, now);
      known.result.Err? ==> known.store == s
  {
    B.HydrationAnswersLookup(s.rows, d, year, hcm, now);
  }

  // ---- refusals ------------------------------------------------------------------------------

  /** A request that is not there, or not in the status the call starts from, is refused and nothing
      is touched. */
  lemma WrongStatusIsRefused(w: World, id: nat, env: Env, rivals: seq<Option<Status>>, reason: string, why: Option<string>)
    ensures id >= |w.requests| ==>
      && ApproveRequest(w, id, env, rivals) == Answer(w, Err(NotFound))
      && RejectRequest(w, id, reason, env) == Answer(w, Err(NotFound))
      && CancelRequest(w, id, why, env) == Answer(w, Err(NotFound))
    ensures id < |w.requests| && w.requests[id].status != Pending ==>
      && ApproveRequest(w, id, env, rivals) == Answer(w, Err(InvalidTransition))
      && RejectRequest(w, id, reason, env) == Answer(w, Err(InvalidTransition))
    ensures id < |w.requests| && w.requests[id].status != Approved ==>
      CancelRequest(w, id, why, env) == Answer(w, Err(InvalidTransition))
  {
  }

  /** So is an approval or a cancellation whose balance is gone. */
  lemma MissingBalanceIsRefused(w: World, id: nat, env: Env, rivals: seq<Option<Status>>, why: Option<string>)
    requires id < |w.requests| && RowFor(w.store.rows, w.requests[id].dims).None?
    ensures w.requests[id].status == Pending ==> ApproveRequest(w, id, env, rivals) == Answer(w, Err(NotFound))
    ensures w.requests[id].status == Approved ==> CancelRequest(w, id, why, env) == Answer(w, Err(NotFound))
  {
  }

  // ---- the retry loop ------------------------------------------------------------------------

  /** An approval makes up to three passes: it answers what the first pass answers that does not lose
      its version race, and gives up when all three lose it. */
  lemma ThreeAttempts(w: World, id: nat, env: Env, rivals: seq<Option<Status>>)
    ensures var first := ApproveOnce(w, id, env, RivalAt(rivals, 0));
      var second := ApproveOnce(first.world, id, env, RivalAt(rivals, 1));
      var third := ApproveOnce(second.world, id, env, RivalAt(rivals, 2));
      ApproveRequest(w, id, env, rivals) ==
        if first.result != Err(VersionMismatch) then first
        else if second.result != Err(VersionMismatch) then second
        else if third.result != Err(VersionMismatch) then third
        else Answer(third.world, Err(RetriesExhausted))
  {
    var first := ApproveOnce(w, id, env, RivalAt(rivals, 0));
    var second := ApproveOnce(first.world, id, env, RivalAt(rivals, 1));
    var third := ApproveOnce(second.world, id, env, RivalAt(rivals, 2));
    assert ApproveFrom(third.world, id, env, rivals, 3) == Answer(third.world, Err(RetriesExhausted));
    assert ApproveFrom(second.world, id, env, rivals, 2) ==
      if third.result == Err(VersionMismatch) then Answer(third.world, Err(RetriesExhausted)) else third;
  }

  /** A pass that loses its version race has deducted the days and left the row to its rival. */
  lemma LostPass(w: World, id: nat, env: Env, status: Status)
    requires LedgerOk(w) && id < |w.requests| && w.requests[id].status == Pending
    ensures FiguresFor(w.store, w.requests[id].dims).Some?
    ensures var r, once := w.requests[id], ApproveOnce(w, id, env, Some(status));
      var figures := FiguresFor(w.store, r.dims).value;
      if r.days <= figures.available then
        && once.result == Err(VersionMismatch) && once.world.audit == w.audit
        && once.world.requests == w.requests[id := r.(status := status, version := 2)]
        && MovesFigures(w.store, once.world.store, r.dims, Figures(figures.available - r.days, figures.used + r.days))
      else
        && once.result == Err(InsufficientBalance) && once.world.requests == w.requests && once.world.audit == w.audit
        && KeepsFigures(w.store, once.world.store)
  {
    var r := w.requests[id];
    assert RequestOk(w.store, r);
    ApprovalFigures(w.store, r.dims, r.days, env);
  }

  // ---- round trips ---------------------------------------------------------------------------

  lemma TwoCalls(w: World, first: Call, second: Call)
    ensures RunCalls(w, [first, second]) == Do(Do(w, first), second)
  {
    assert [first, second][..1] == [first] && [first][..0] == [];
    assert RunCalls(w, [first]) == Do(w, first);
  }

  /** A pending row after its approval and its cancellation. */
  function CancelledAgain(r: Request, approvedAt: int, why: Option<string>): Request {
    var reason := if why.None? || why.value == "" then "Request cancelled" else why.value;
    r.(status := Cancelled, approvedAt := Some(approvedAt), rejectionReason := Some(reason), hcmSynced := true, version := 3)
  }

  lemma ApproveThenCancelRows(w: World, id: nat, env: Env, env': Env, why: Option<string>)
    requires LedgerOk(w) && id < |w.requests| && w.requests[id].status == Pending
    requires FiguresFor(w.store, w.requests[id].dims).Some?
    requires w.requests[id].days <= FiguresFor(w.store, w.requests[id].dims).value.available
    ensures Do(Do(w, Approving(id, env)), Cancelling(id, why, env')).requests
         == w.requests[id := CancelledAgain(w.requests[id], env.now, why)]
  {
    var w1 := Do(w, Approving(id, env));
    ApprovalDecides(w, id, env);
    ConservesKeepsLedger(w, w1);
    CancellationDecides(w1, id, why, env');
  }

  lemma NothingMoved(w: World, w': World, d: Dims, f: Figures)
    requires DaysMoved(w, w', d, f) && ApprovedDays(w'.requests, d) == ApprovedDays(w.requests, d)
    ensures FiguresFor(w'.store, d) == Some(f)
  {
  }

  /** Approving a covered request and cancelling it again gives every day back: the request ends up
      cancelled at version 3, and all balances are what they were. */
  lemma ApproveThenCancelRestores(w: World, id: nat, env: Env, env': Env, why: Option<string>, d: Dims, f: Figures)
    requires LedgerOk(w) && id < |w.requests| && w.requests[id].status == Pending && FiguresFor(w.store, d) == Some(f)
    requires FiguresFor(w.store, w.requests[id].dims).Some?
    requires w.requests[id].days <= FiguresFor(w.store, w.requests[id].dims).value.available
    ensures var w' := RunCalls(w, [Approving(id, env), Cancelling(id, why, env')]);
      && w'.requests == w.requests[id := CancelledAgain(w.requests[id], env.now, why)]
      && FiguresFor(w'.store, d) == Some(f)
  {
    TwoCalls(w, Approving(id, env), Cancelling(id, why, env'));
    ApproveThenCancelRows(w, id, env, env', why);
    ApprovedDaysAfter(w.requests, id, CancelledAgain(w.requests[id], env.now, why), d);
    var calls := [Approving(id, env), Cancelling(id, why, env')];
    DaysAreConserved(w, calls, d, f);
    NothingMoved(w, RunCalls(w, calls), d, f);
  }

  /** Rejecting a request that has just been created leaves every balance as it was. */
  lemma CreateThenRejectMovesNothing(w: World, dto: CreateDto, env: Env, env': Env, reason: string, d: Dims)
    requires LedgerOk(w) && FiguresFor(w.store, d).Some?
    requires |CreateRequest(w, dto, env).world.requests| > |w.requests|
    ensures var w' := RunCalls(w, [Creating(dto, env), Rejecting(|w.requests|, reason, env')]);
      && |w'.requests| == |w.requests| + 1 && w'.requests[..|w.requests|] == w.requests
      && w'.requests[|w.requests|].status == Rejected && w'.requests[|w.requests|].version == 2
      && w'.requests[|w.requests|].rejectionReason == Some(reason)
      && FiguresFor(w'.store, d) == FiguresFor(w.store, d)
  {
    var calls := [Creating(dto, env), Rejecting(|w.requests|, reason, env')];
    TwoCalls(w, calls[0], calls[1]);
    CreationConserves(w, dto, env);
    CreationShape(w, dto, env);
    CreationKeepsFigures(w, dto, env);
    var w1 := Do(w, calls[0]);
    ConservesKeepsLedger(w, w1);
    RejectionDecides(w1, |w.requests|, reason, env');
    assert KeptAt(w.store, w1.store, d);
  }
}
