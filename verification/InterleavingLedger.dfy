/** Where the days are while calls overlap. */
module InterleavingLedger {
  import opened Wrappers
  import opened Failures
  import opened CacheKeys
  import opened FixedPoint
  import opened BalanceTable
  import opened Balances
  import opened AuditTrail
  import opened RequestTable
  import opened Requests
  import opened RequestRuns
  import opened Interleaving
  import opened InterleavingSafety
  import opened Sums
  import B = BalanceRuns

  predicate OnBalance(c: Flight, d: Dims) {
    c.snap.Some? && SameFold(c.snap.value.dims, d)
  }

  // ---- the four kinds of days that are neither available nor approved -----------------------

  function AwaitingDeduction(d: Dims): Flight -> int {
    (c: Flight) => if OnBalance(c, d) && c.kind.Approval? then Moved(c) else 0
  }

  function StrandedDeduction(d: Dims): Flight -> int {
    (c: Flight) => if OnBalance(c, d) && c.kind.Approval? then c.stranded else 0
  }

  function AwaitingRefund(d: Dims): Flight -> int {
    (c: Flight) => if OnBalance(c, d) && c.kind.Cancellation? then Moved(c) else 0
  }

  function StrandedRefund(d: Dims): Flight -> int {
    (c: Flight) => if OnBalance(c, d) && c.kind.Cancellation? then c.stranded else 0
  }

  /** What the flights owe the balance of `d`, all four together. */
  function Owed(d: Dims): Flight -> int {
    (c: Flight) =>
      if !OnBalance(c, d) || c.kind.Rejection? then 0
      else if c.kind.Approval? then Moved(c) + c.stranded
      else -(Moved(c) + c.stranded)
  }

  lemma {:induction false} OwedSplits(flights: seq<Flight>, d: Dims)
    ensures SumOf(Owed(d), flights) ==
      SumOf(AwaitingDeduction(d), flights) + SumOf(StrandedDeduction(d), flights)
      - SumOf(AwaitingRefund(d), flights) - SumOf(StrandedRefund(d), flights)
  {
    if |flights| > 0 {
      OwedSplits(flights[1..], d);
    }
  }

  /** Available days, approved days, and what the flights owe. */
  function Account(sys: System, d: Dims): Option<int> {
    match FiguresFor(sys.world.store, d)
    case Some(f) => Some(f.available + ApprovedDays(sys.world.requests, d) + SumOf(Owed(d), sys.flights))
    case None => None
  }

  ghost predicate AccountKept(sys: System, sys': System, d: Dims) {
    Account(sys, d).Some? ==> Account(sys', d) == Account(sys, d)
  }

  ghost predicate Whole(sys: System) {
    Sound(sys) && TableOk(sys.world.store)
  }

  // ---- one step ------------------------------------------------------------------------------

  /** A step that keeps figures and requests, and replaces a flight by one that owes the same. */
  lemma SameOwed(sys: System, sys': System, k: nat, c': Flight, d: Dims)
    requires k < |sys.flights| && sys'.flights == sys.flights[k := c']
    requires sys'.world.requests == sys.world.requests
    requires KeptAt(sys.world.store, sys'.world.store, d)
    requires Owed(d)(c') == Owed(d)(sys.flights[k])
    ensures AccountKept(sys, sys', d)
  {
    SumUpdate(Owed(d), sys.flights, k, c');
  }

  /** A step that moves available days of the balance of `r` and owes exactly as many. */
  lemma MoveKeepsAccount(sys: System, sys': System, k: nat, c': Flight, r: Request, f: Figures, days: int, d: Dims)
    requires k < |sys.flights| && sys'.flights == sys.flights[k := c']
    requires sys'.world.requests == sys.world.requests
    requires FiguresFor(sys.world.store, r.dims).Some?
    requires MovedAt(sys.world.store, sys'.world.store, r.dims, f, d)
    requires f.available == FiguresFor(sys.world.store, r.dims).value.available - days
    requires Owed(d)(c') == Owed(d)(sys.flights[k]) + (if SameFold(d, r.dims) then days else 0)
    ensures AccountKept(sys, sys', d)
  {
    SumUpdate(Owed(d), sys.flights, k, c');
    if SameFold(d, r.dims) {
      LookupFolds(sys.world.store.rows, d, r.dims);
    }
  }

  lemma DeductionKeepsAccount(sys: System, k: nat, env: Env, d: Dims)
    requires k < |sys.flights| && FlightOk(sys.world, sys.flights[k]) && TableOk(sys.world.store)
    requires sys.flights[k].pc == Deducting
    ensures AccountKept(sys, Progress(sys, k, env), d) && TableOk(Progress(sys, k, env).world.store)
  {
    var c, sys' := sys.flights[k], Progress(sys, k, env);
    var r := c.snap.value;
    if UpdateUsedBalance(sys.world.store, r.dims, r.days).result.Ok? {
      DeductionMoves(sys.world.store, r.dims, r.days);
      var f := Deduct(FiguresFor(sys.world.store, r.dims).value, r.days);
      assert MovedAt(sys.world.store, sys'.world.store, r.dims, f, d);
      MoveKeepsAccount(sys, sys', k, sys'.flights[k], r, f, r.days, d);
    } else {
      SameOwed(sys, sys', k, sys'.flights[k], d);
    }
  }

  lemma RefundKeepsAccount(sys: System, k: nat, env: Env, d: Dims)
    requires k < |sys.flights| && FlightOk(sys.world, sys.flights[k]) && TableOk(sys.world.store)
    requires sys.flights[k].pc == Pc.Refunding
    ensures AccountKept(sys, Progress(sys, k, env), d) && TableOk(Progress(sys, k, env).world.store)
  {
    var c, sys' := sys.flights[k], Progress(sys, k, env);
    var r := c.snap.value;
    if RefundBalance(sys.world.store, r.dims, r.days).result.Ok? {
      RefundMoves(sys.world.store, r.dims, r.days);
      var f := Refund(FiguresFor(sys.world.store, r.dims).value, r.days);
      assert MovedAt(sys.world.store, sys'.world.store, r.dims, f, d);
      MoveKeepsAccount(sys, sys', k, sys'.flights[k], r, f, -r.days, d);
    } else {
      SameOwed(sys, sys', k, sys'.flights[k], d);
    }
  }

  lemma WonSaveKeepsAccount(sys: System, sys': System, k: nat, r': Request, d: Dims)
    requires k < |sys.flights| && FlightOk(sys.world, sys.flights[k]) && sys.flights[k].pc == Saving
    requires sys.flights[k].snap.value == sys.world.requests[sys.flights[k].id]
    requires r'.dims == sys.flights[k].snap.value.dims && r'.days == sys.flights[k].snap.value.days
    requires r'.status == Target(sys.flights[k].kind)
    requires sys' == System(sys.world.(requests := sys.world.requests[sys.flights[k].id := r']),
                            sys.flights[k := sys.flights[k].(pc := Auditing, won := true)])
    ensures AccountKept(sys, sys', d)
  {
    SumUpdate(Owed(d), sys.flights, k, sys'.flights[k]);
    ApprovedDaysAfter(sys.world.requests, sys.flights[k].id, r', d);
  }

  /** A save that fails changes where the days are counted, not how many they are. */
  lemma SaveFailedOwesTheSame(c: Flight, f: Failure, d: Dims)
    requires c.pc == Saving
    ensures Owed(d)(SaveFailed(c, f)) == Owed(d)(c)
  {
  }

  lemma SaveKeepsAccount(sys: System, k: nat, env: Env, d: Dims)
    requires k < |sys.flights| && FlightOk(sys.world, sys.flights[k])
    requires sys.flights[k].pc == Saving
    ensures AccountKept(sys, Progress(sys, k, env), d)
    ensures Progress(sys, k, env).world.store == sys.world.store
  {
    var w, c, sys' := sys.world, sys.flights[k], Progress(sys, k, env);
    SaveStep(sys, k, env);
    if c.snap.value == w.requests[c.id] {
      WonSaveKeepsAccount(sys, sys', k, sys'.world.requests[c.id], d);
    } else {
      SaveFailedOwesTheSame(c, VersionMismatch, d);
      SameOwed(sys, sys', k, SaveFailed(c, VersionMismatch), d);
    }
  }

  lemma LookupKeepsAccount(sys: System, k: nat, env: Env, d: Dims)
    requires k < |sys.flights| && FlightOk(sys.world, sys.flights[k]) && TableOk(sys.world.store)
    requires sys.flights[k].pc == Refreshing || sys.flights[k].pc == Validating
    ensures AccountKept(sys, Progress(sys, k, env), d) && TableOk(Progress(sys, k, env).world.store)
  {
    var w, c, sys' := sys.world, sys.flights[k], Progress(sys, k, env);
    var r := c.snap.value;
    var op := if c.pc == Refreshing then B.Refreshing(r.dims, env.year)
      else B.Check(r.dims, DaysOf(r), env.year, env.hcm);
    assert sys'.world.store == B.Step(w.store, B.Event(op, env.now));
    LookupKeepsFigures(w.store, B.Event(op, env.now));
    SameOwed(sys, sys', k, sys'.flights[k], d);
  }

  lemma ReadKeepsAccount(sys: System, k: nat, env: Env, d: Dims)
    requires k < |sys.flights| && FlightOk(sys.world, sys.flights[k])
    requires sys.flights[k].pc == Reading || sys.flights[k].pc == Auditing || sys.flights[k].pc == Done
    ensures AccountKept(sys, Progress(sys, k, env), d)
    ensures Progress(sys, k, env).world.store == sys.world.store
  {
    var sys' := Progress(sys, k, env);
    SameOwed(sys, sys', k, sys'.flights[k], d);
  }

  lemma ProgressKeepsAccount(sys: System, k: nat, env: Env, d: Dims)
    requires Whole(sys) && k < |sys.flights|
    ensures AccountKept(sys, Progress(sys, k, env), d) && TableOk(Progress(sys, k, env).world.store)
  {
    assert FlightOk(sys.world, sys.flights[k]);
    match sys.flights[k].pc
    case Refreshing => LookupKeepsAccount(sys, k, env, d);
    case Validating => LookupKeepsAccount(sys, k, env, d);
    case Deducting => DeductionKeepsAccount(sys, k, env, d);
    case Refunding => RefundKeepsAccount(sys, k, env, d);
    case Saving => SaveKeepsAccount(sys, k, env, d);
    case Reading => ReadKeepsAccount(sys, k, env, d);
    case Auditing => ReadKeepsAccount(sys, k, env, d);
    case Done => ReadKeepsAccount(sys, k, env, d);
  }

  /** At most a pending request has been added. */
  predicate AddsPending(before: seq<Request>, after: seq<Request>) {
    before == after || (|after| == |before| + 1 && after[..|before|] == before && after[|before|].status == Pending)
  }

  lemma PendingKeepsAccount(sys: System, w': World, d: Dims)
    requires KeptAt(sys.world.store, w'.store, d) && AddsPending(sys.world.requests, w'.requests)
    ensures AccountKept(sys, sys.(world := w'), d)
  {
    if w'.requests != sys.world.requests {
      var r := w'.requests[|sys.world.requests|];
      SumAppend(ApprovedWeight(d), sys.world.requests, r);
      assert w'.requests == sys.world.requests + [r];
    }
  }

  lemma CreationAddsPending(w: World, dto: CreateDto, env: Env)
    ensures AddsPending(w.requests, CreateRequest(w, dto, env).world.requests)
  {
    CreationShape(w, dto, env);
  }

  lemma CreationKeepsAccount(sys: System, dto: CreateDto, env: Env, d: Dims)
    requires TableOk(sys.world.store)
    ensures var w' := CreateRequest(sys.world, dto, env).world;
      AccountKept(sys, sys.(world := w'), d) && TableOk(w'.store)
  {
    var w, w' := sys.world, CreateRequest(sys.world, dto, env).world;
    CreationKeepsFigures(w, dto, env);
    CreationAddsPending(w, dto, env);
    assert KeptAt(w.store, w'.store, d);
    PendingKeepsAccount(sys, w', d);
  }

  lemma OtherLookupKeepsAccount(sys: System, lookup: B.Event, d: Dims)
    requires TableOk(sys.world.store) && IsLookup(lookup.op)
    ensures var w' := sys.world.(store := B.Step(sys.world.store, lookup));
      AccountKept(sys, sys.(world := w'), d) && TableOk(w'.store)
  {
    LookupKeepsFigures(sys.world.store, lookup);
    assert KeptAt(sys.world.store, B.Step(sys.world.store, lookup), d);
  }

  lemma ArrivalKeepsAccount(sys: System, c: Flight, d: Dims)
    requires c.snap.None?
    ensures AccountKept(sys, sys.(flights := sys.flights + [c]), d)
  {
    SumAppend(Owed(d), sys.flights, c);
  }

  lemma NextKeepsAccount(sys: System, e: Event, d: Dims)
    requires Whole(sys) && MayHappen(e)
    ensures AccountKept(sys, Next(sys, e), d) && Whole(Next(sys, e))
  {
    NextKeepsSound(sys, e);
    match e
    case Arrive(kind, id) => ArrivalKeepsAccount(sys, Launch(kind, id), d);
    case Advance(k, env) =>
      if k < |sys.flights| { ProgressKeepsAccount(sys, k, env, d); }
    case Other(call) =>
      if call.Creating? { CreationKeepsAccount(sys, call.dto, call.env, d); }
      else { OtherLookupKeepsAccount(sys, call.lookup, d); }
  }

  lemma {:induction false} PlayKeepsAccount(sys: System, events: seq<Event>, d: Dims)
    requires Whole(sys) && forall e :: e in events ==> MayHappen(e)
    ensures AccountKept(sys, Play(sys, events), d) && Whole(Play(sys, events))
  {
    if |events| > 0 {
      assert events[|events| - 1] in events;
      PlayKeepsAccount(sys, events[..|events| - 1], d);
      NextKeepsAccount(Play(sys, events[..|events| - 1]), events[|events| - 1], d);
    }
  }

  // ---- every interleaving --------------------------------------------------------------------

  /** In every interleaving, from a moment with no call in flight: what was available or approved is
      now available, approved, deducted for an approval still to be saved, or lost with an approval
      whose save failed, less what cancellations have refunded without being saved. */
  lemma InterleavedAccounting(w: World, events: seq<Event>, d: Dims, f: Figures)
    requires RowsOk(w) && TableOk(w.store) && FiguresFor(w.store, d) == Some(f)
    requires forall e :: e in events ==> MayHappen(e)
    ensures var sys' := Play(System(w, []), events);
      var f' := FiguresFor(sys'.world.store, d);
      && f'.Some?
      && f.available + ApprovedDays(w.requests, d) ==
           f'.value.available + ApprovedDays(sys'.world.requests, d)
           + SumOf(AwaitingDeduction(d), sys'.flights) + SumOf(StrandedDeduction(d), sys'.flights)
           - SumOf(AwaitingRefund(d), sys'.flights) - SumOf(StrandedRefund(d), sys'.flights)
      && f'.value.available >= 0 && f'.value.used >= 0
  {
    var sys' := Play(System(w, []), events);
    PlayKeepsAccount(System(w, []), events, d);
    OwedSplits(sys'.flights, d);
    assert ChecksHold(RowFor(sys'.world.store.rows, d).value);
  }

  predicate Quiet(flights: seq<Flight>) {
    forall k :: 0 <= k < |flights| ==> flights[k].pc == Done
  }

  predicate NothingStranded(flights: seq<Flight>) {
    forall k :: 0 <= k < |flights| ==> flights[k].stranded == 0
  }

  /** At rest the ledger is off by exactly the days stranded in approvals less those stranded in
      cancellations; so it is exact if no save failed. */
  lemma AccountingAtRest(w: World, events: seq<Event>, d: Dims, f: Figures)
    requires RowsOk(w) && TableOk(w.store) && FiguresFor(w.store, d) == Some(f)
    requires forall e :: e in events ==> MayHappen(e)
    requires Quiet(Play(System(w, []), events).flights)
    ensures var sys' := Play(System(w, []), events);
      var f' := FiguresFor(sys'.world.store, d);
      var off := SumOf(StrandedDeduction(d), sys'.flights) - SumOf(StrandedRefund(d), sys'.flights);
      && f'.Some?
      && f.available + ApprovedDays(w.requests, d) == f'.value.available + ApprovedDays(sys'.world.requests, d) + off
      && (NothingStranded(sys'.flights) ==> off == 0)
  {
    var sys' := Play(System(w, []), events);
    InterleavedAccounting(w, events, d, f);
    SumZero(AwaitingDeduction(d), sys'.flights);
    SumZero(AwaitingRefund(d), sys'.flights);
    if NothingStranded(sys'.flights) {
      SumZero(StrandedDeduction(d), sys'.flights);
      SumZero(StrandedRefund(d), sys'.flights);
    }
  }
}
