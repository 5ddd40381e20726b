/** Exactly when overlapping calls can leave the ledger off. */
module InterleavingLoss {
  import opened Wrappers
  import opened Failures
  import opened CacheKeys
  import opened FixedPoint
  import opened BalanceTable
  import opened Balances
  import opened AuditTrail
  import opened RequestTable
  import opened Requests
  import opened RequestRuns
  import opened Interleaving
  import opened InterleavingSafety
  import opened InterleavingLedger
  import opened InterleavingAudit
  import opened InterleavingLimits
  import opened Sums
  import B = BalanceRuns

  /** What the balance of `d` holds, available and approved. */
  function Entitlement(w: World, d: Dims): Option<int> {
    match FiguresFor(w.store, d)
    case Some(f) => Some(f.available + ApprovedDays(w.requests, d))
    case None => None
  }

  /** All calls are finished, and the balance holds more or fewer days than before. */
  ghost predicate LeavesOff(w: World, events: seq<Event>, d: Dims) {
    var sys' := Play(System(w, []), events);
    Quiet(sys'.flights) && Entitlement(sys'.world, d) != Entitlement(w, d)
  }

  /** The calls are about these requests; creations and lookups may come in between. */
  ghost predicate CallsOn(events: seq<Event>, ids: set<nat>) {
    forall e :: e in events ==> MayHappen(e) && (e.Arrive? ==> e.id in ids)
  }

  /** An approved request can be cancelled twice over, and one that the balance covers can be deducted
      for nothing. */
  predicate AtRisk(r: Request, available: int) {
    r.status == Approved || (r.status == Pending && r.days <= available)
  }

  predicate RiskOn(w: World, id: nat, d: Dims, available: int) {
    id < |w.requests| && SameFold(w.requests[id].dims, d) && AtRisk(w.requests[id], available)
  }

  // ---- without risk nothing moves ------------------------------------------------------------

  predicate HarmlessRow(r: Request, d: Dims, available: int) {
    SameFold(r.dims, d) ==> !AtRisk(r, available)
  }

  /** The call is about one of the requests, and has moved no days of the balance. */
  predicate HarmlessFlight(c: Flight, ids: set<nat>, d: Dims, available: int) {
    && c.id in ids
    && (OnBalance(c, d) ==>
          && c.stranded == 0 && !c.kind.Cancellation?
          && (c.kind.Approval? ==> available < c.snap.value.days && c.pc != Saving && c.pc != Auditing))
  }

  ghost predicate Harmless(sys: System, ids: set<nat>, d: Dims, f: Figures) {
    && FiguresFor(sys.world.store, d) == Some(f)
    && (forall id :: id in ids ==> id < |sys.world.requests| && HarmlessRow(sys.world.requests[id], d, f.available))
    && (forall k :: 0 <= k < |sys.flights| ==> HarmlessFlight(sys.flights[k], ids, d, f.available))
  }

  lemma HarmlessStep(sys: System, sys': System, k: nat, c': Flight, ids: set<nat>, d: Dims, f: Figures)
    requires Harmless(sys, ids, d, f) && k < |sys.flights|
    requires sys'.flights == sys.flights[k := c'] && HarmlessFlight(c', ids, d, f.available)
    requires sys'.world.requests == sys.world.requests && FiguresFor(sys'.world.store, d) == Some(f)
    ensures Harmless(sys', ids, d, f)
  {
  }

  lemma HarmlessRead(sys: System, k: nat, env: Env, ids: set<nat>, d: Dims, f: Figures)
    requires Harmless(sys, ids, d, f) && k < |sys.flights| && sys.flights[k].pc == Reading
    requires FlightOk(sys.world, sys.flights[k])
    ensures Harmless(Progress(sys, k, env), ids, d, f)
  {
    var c := sys.flights[k];
    assert HarmlessFlight(c, ids, d, f.available) && HarmlessRow(sys.world.requests[c.id], d, f.available);
    HarmlessStep(sys, Progress(sys, k, env), k, Read(sys.world, c), ids, d, f);
  }

  lemma HarmlessLookup(sys: System, k: nat, env: Env, ids: set<nat>, d: Dims, f: Figures)
    requires Whole(sys) && Harmless(sys, ids, d, f) && k < |sys.flights|
    requires sys.flights[k].pc == Refreshing || sys.flights[k].pc == Validating
    ensures Harmless(Progress(sys, k, env), ids, d, f)
  {
    var c, sys' := sys.flights[k], Progress(sys, k, env);
    assert FlightOk(sys.world, c) && HarmlessFlight(c, ids, d, f.available);
    LookupStopKeeps(sys, k, env, d);
    HarmlessStep(sys, sys', k, sys'.flights[k], ids, d, f);
  }

  lemma LookupStopKeeps(sys: System, k: nat, env: Env, d: Dims)
    requires Whole(sys) && k < |sys.flights|
    requires sys.flights[k].pc == Refreshing || sys.flights[k].pc == Validating
    ensures var c, sys' := sys.flights[k], Progress(sys, k, env);
      && KeptAt(sys.world.store, sys'.world.store, d)
      && sys'.world.requests == sys.world.requests
      && sys'.flights == sys.flights[k := sys'.flights[k]]
      && sys'.flights[k] == c.(pc := sys'.flights[k].pc, failure := sys'.flights[k].failure)
      && sys'.flights[k].pc != Saving && sys'.flights[k].pc != Auditing
  {
    var w, c := sys.world, sys.flights[k];
    assert FlightOk(w, c);
    var r := c.snap.value;
    var op := if c.pc == Refreshing then B.Refreshing(r.dims, env.year)
      else B.Check(r.dims, DaysOf(r), env.year, env.hcm);
    assert Progress(sys, k, env).world.store == B.Step(w.store, B.Event(op, env.now));
    LookupKeepsFigures(w.store, B.Event(op, env.now));
  }

  /** A deduction that the balance does not cover is refused; one for another balance is not felt. */
  lemma HarmlessDeduction(sys: System, k: nat, env: Env, ids: set<nat>, d: Dims, f: Figures)
    requires Whole(sys) && Harmless(sys, ids, d, f) && k < |sys.flights| && sys.flights[k].pc == Deducting
    ensures Harmless(Progress(sys, k, env), ids, d, f)
  {
    var c, sys' := sys.flights[k], Progress(sys, k, env);
    assert FlightOk(sys.world, c) && HarmlessFlight(c, ids, d, f.available);
    var r, s := c.snap.value, sys.world.store;
    if UpdateUsedBalance(s, r.dims, r.days).result.Ok? {
      DeductionMoves(s, r.dims, r.days);
      if SameFold(r.dims, d) {
        LookupFolds(s.rows, r.dims, d);
        CoveredDeduction(s, r.dims, r.days);
      }
      assert MovedAt(s, sys'.world.store, r.dims, Deduct(FiguresFor(s, r.dims).value, r.days), d);
    }
    HarmlessStep(sys, sys', k, sys'.flights[k], ids, d, f);
  }

  lemma HarmlessRefund(sys: System, k: nat, env: Env, ids: set<nat>, d: Dims, f: Figures)
    requires Whole(sys) && Harmless(sys, ids, d, f) && k < |sys.flights| && sys.flights[k].pc == Pc.Refunding
    ensures Harmless(Progress(sys, k, env), ids, d, f)
  {
    var c, sys' := sys.flights[k], Progress(sys, k, env);
    assert FlightOk(sys.world, c) && HarmlessFlight(c, ids, d, f.available);
    var r, s := c.snap.value, sys.world.store;
    if RefundBalance(s, r.dims, r.days).result.Ok? {
      RefundMoves(s, r.dims, r.days);
      assert MovedAt(s, sys'.world.store, r.dims, Refund(FiguresFor(s, r.dims).value, r.days), d);
    }
    HarmlessStep(sys, sys', k, sys'.flights[k], ids, d, f);
  }

  lemma HarmlessSave(sys: System, k: nat, env: Env, ids: set<nat>, d: Dims, f: Figures)
    requires Whole(sys) && Harmless(sys, ids, d, f) && k < |sys.flights| && sys.flights[k].pc == Saving
    ensures Harmless(Progress(sys, k, env), ids, d, f)
  {
    var w, c, sys' := sys.world, sys.flights[k], Progress(sys, k, env);
    assert FlightOk(w, c) && HarmlessFlight(c, ids, d, f.available);
    SaveStep(sys, k, env);
    if c.snap.value == w.requests[c.id] {
      var r' := Marked(c.kind, c.snap.value, env.now).(version := c.snap.value.version + 1);
      assert HarmlessRow(r', d, f.available);
      forall id | id in ids
        ensures id < |sys'.world.requests| && HarmlessRow(sys'.world.requests[id], d, f.available)
      {
        assert HarmlessRow(w.requests[id], d, f.available);
      }
    } else {
      HarmlessStep(sys, sys', k, SaveFailed(c, VersionMismatch), ids, d, f);
    }
  }

  lemma HarmlessProgress(sys: System, k: nat, env: Env, ids: set<nat>, d: Dims, f: Figures)
    requires Whole(sys) && Harmless(sys, ids, d, f) && k < |sys.flights|
    ensures Harmless(Progress(sys, k, env), ids, d, f)
  {
    var c := sys.flights[k];
    assert FlightOk(sys.world, c) && HarmlessFlight(c, ids, d, f.available);
    match c.pc
    case Reading => HarmlessRead(sys, k, env, ids, d, f);
    case Refreshing => HarmlessLookup(sys, k, env, ids, d, f);
    case Validating => HarmlessLookup(sys, k, env, ids, d, f);
    case Deducting => HarmlessDeduction(sys, k, env, ids, d, f);
    case Refunding => HarmlessRefund(sys, k, env, ids, d, f);
    case Saving => HarmlessSave(sys, k, env, ids, d, f);
    case Auditing => HarmlessStep(sys, Progress(sys, k, env), k, Progress(sys, k, env).flights[k], ids, d, f);
    case Done =>
  }

  lemma HarmlessOther(sys: System, call: Call, ids: set<nat>, d: Dims, f: Figures)
    requires Whole(sys) && Harmless(sys, ids, d, f) && MayHappen(Other(call))
    ensures Harmless(Next(sys, Other(call)), ids, d, f)
  {
    var w, w' := sys.world, Do(sys.world, call);
    OtherKeepsRows(w, call);
    if call.Creating? {
      CreationKeepsFigures(w, call.dto, call.env);
    } else {
      LookupKeepsFigures(w.store, call.lookup);
    }
    assert KeptAt(w.store, w'.store, d);
    forall id | id in ids
      ensures id < |w'.requests| && HarmlessRow(w'.requests[id], d, f.available)
    {
      assert HarmlessRow(w.requests[id], d, f.available);
    }
  }

  lemma HarmlessNext(sys: System, e: Event, ids: set<nat>, d: Dims, f: Figures)
    requires Whole(sys) && Harmless(sys, ids, d, f) && MayHappen(e) && (e.Arrive? ==> e.id in ids)
    ensures Harmless(Next(sys, e), ids, d, f)
  {
    match e
    case Arrive(kind, id) => assert HarmlessFlight(Launch(kind, id), ids, d, f.available);
    case Advance(k, env) =>
      if k < |sys.flights| { HarmlessProgress(sys, k, env, ids, d, f); }
    case Other(call) => HarmlessOther(sys, call, ids, d, f);
  }

  lemma {:induction false} HarmlessRun(w: World, events: seq<Event>, ids: set<nat>, d: Dims, f: Figures)
    requires RowsOk(w) && TableOk(w.store) && CallsOn(events, ids)
    requires Harmless(System(w, []), ids, d, f)
    ensures Harmless(Play(System(w, []), events), ids, d, f)
  {
    if |events| > 0 {
      var earlier, e := events[..|events| - 1], events[|events| - 1];
      assert e in events;
      HarmlessRun(w, earlier, ids, d, f);
      PlayKeepsAccount(System(w, []), earlier, d);
      HarmlessNext(Play(System(w, []), earlier), e, ids, d, f);
    }
  }

  lemma HarmlessStart(w: World, ids: set<nat>, d: Dims, f: Figures)
    requires FiguresFor(w.store, d) == Some(f)
    requires forall id :: id in ids ==> id < |w.requests| && !RiskOn(w, id, d, f.available)
    ensures Harmless(System(w, []), ids, d, f)
  {
    forall id | id in ids
      ensures id < |w.requests| && HarmlessRow(w.requests[id], d, f.available)
    {
      assert !RiskOn(w, id, d, f.available);
    }
  }

  lemma HarmlessOwesNothing(sys: System, ids: set<nat>, d: Dims, f: Figures)
    requires Harmless(sys, ids, d, f) && Quiet(sys.flights)
    ensures SumOf(Owed(d), sys.flights) == 0
  {
    forall k | 0 <= k < |sys.flights|
      ensures Owed(d)(sys.flights[k]) == 0
    {
      assert HarmlessFlight(sys.flights[k], ids, d, f.available);
    }
    SumZero(Owed(d), sys.flights);
  }

  lemma SettledEntitlement(sys: System, d: Dims)
    requires SumOf(Owed(d), sys.flights) == 0
    ensures Entitlement(sys.world, d) == Account(sys, d)
  {
  }

  lemma EntitlementKept(sys: System, sys': System, d: Dims)
    requires AccountKept(sys, sys', d) && FiguresFor(sys.world.store, d).Some?
    requires SumOf(Owed(d), sys.flights) == 0 && SumOf(Owed(d), sys'.flights) == 0
    ensures Entitlement(sys'.world, d) == Entitlement(sys.world, d)
  {
    SettledEntitlement(sys, d);
    SettledEntitlement(sys', d);
  }

  lemma NoRiskNoLoss(w: World, events: seq<Event>, ids: set<nat>, d: Dims, f: Figures)
    requires RowsOk(w) && TableOk(w.store) && CallsOn(events, ids) && FiguresFor(w.store, d) == Some(f)
    requires forall id :: id in ids ==> id < |w.requests| && !RiskOn(w, id, d, f.available)
    ensures !LeavesOff(w, events, d)
  {
    var start := System(w, []);
    HarmlessStart(w, ids, d, f);
    HarmlessRun(w, events, ids, d, f);
    PlayKeepsAccount(start, events, d);
    if Quiet(Play(start, events).flights) {
      HarmlessOwesNothing(Play(start, events), ids, d, f);
      EntitlementKept(start, Play(start, events), d);
    }
  }

  // ---- a covered approval meets a rejection --------------------------------------------------

  /** Only approvals, rejections and cancellations of request `id`. */
  ghost predicate OnlyOn(events: seq<Event>, id: nat) {
    forall e :: e in events ==> !e.Other? && (e.Arrive? ==> e.id == id)
  }

  lemma Advances(start: System, events: seq<Event>, id: nat, k: nat, env: Env) returns (events': seq<Event>)
    requires OnlyOn(events, id) && k < |Play(start, events).flights|
    ensures OnlyOn(events', id) && Play(start, events') == Progress(Play(start, events), k, env)
  {
    OneMore(start, events, k, env);
    events' := events + [Advance(k, env)];
  }

  lemma Enters(start: System, events: seq<Event>, kind: Kind, id: nat) returns (events': seq<Event>)
    requires OnlyOn(events, id)
    ensures OnlyOn(events', id)
    ensures Play(start, events') == Play(start, events).(flights := Play(start, events).flights + [Launch(kind, id)])
  {
    Arrives(start, events, kind, id);
    events' := events + [Arrive(kind, id)];
  }

  function Deductor(r: Request, id: nat): Flight {
    Launch(Approval, id).(pc := Saving, snap := Some(r), moves := 1)
  }

  /** A lone approval of the request has deducted its days and is about to save. */
  ghost predicate AboutToSave(w: World, sys: System, id: nat) {
    && id < |w.requests| && w.requests[id].status == Pending && RowOk(w.requests[id])
    && sys == System(w.(store := sys.world.store), [Deductor(w.requests[id], id)])
  }

  lemma ReadsAlone(w: World, id: nat, env: Env) returns (events: seq<Event>)
    requires id < |w.requests| && w.requests[id].status == Pending
    ensures OnlyOn(events, id) && Play(System(w, []), events) == System(w, [Reader(w, id)])
  {
    events := Enters(System(w, []), [], Approval, id);
    events := Advances(System(w, []), events, id, 0, env);
  }

  lemma ThreeAdvances(start: System, events: seq<Event>, id: nat, sys: System, env: Env) returns (events': seq<Event>)
    requires OnlyOn(events, id) && Play(start, events) == sys && 0 < |sys.flights|
    ensures OnlyOn(events', id) && Play(start, events') == Thrice(sys, 0, env)
  {
    ProgressKeepsCount(sys, 0, env);
    ProgressKeepsCount(Progress(sys, 0, env), 0, env);
    events' := Advances(start, events, id, 0, env);
    events' := Advances(start, events', id, 0, env);
    events' := Advances(start, events', id, 0, env);
  }

  lemma DeductsAlone(w: World, id: nat, env: Env) returns (events: seq<Event>)
    requires id < |w.requests| && w.requests[id].status == Pending && RowOk(w.requests[id]) && TableOk(w.store)
    requires FiguresFor(w.store, w.requests[id].dims).Some?
    requires w.requests[id].days <= FiguresFor(w.store, w.requests[id].dims).value.available
    ensures OnlyOn(events, id)
    ensures var r, sys := w.requests[id], Play(System(w, []), events);
      && AboutToSave(w, sys, id)
      && MovesFigures(w.store, sys.world.store, r.dims, Deduct(FiguresFor(w.store, r.dims).value, r.days))
  {
    var sys := System(w, [Reader(w, id)]);
    var read := ReadsAlone(w, id, env);
    BalanceStops(sys, 0, env);
    events := ThreeAdvances(System(w, []), read, id, sys, env);
    assert Thrice(sys, 0, env).flights == [Deductor(w.requests[id], id)];
  }

  function Rejecter(r: Request, id: nat): Flight {
    Launch(Rejection(""), id).(pc := Saving, snap := Some(r))
  }

  /** The rejection comes in and saves first. */
  lemma RejectionOvertakes(w: World, sys: System, id: nat, env: Env)
    requires AboutToSave(w, sys, id)
    ensures var r := w.requests[id];
      var entered := sys.(flights := sys.flights + [Launch(Rejection(""), id)]);
      && Progress(entered, 1, env) == sys.(flights := [Deductor(r, id), Rejecter(r, id)])
      && Progress(Progress(entered, 1, env), 1, env)
           == System(sys.world.(requests := w.requests[id := MarkRejected(r, "").(version := 2)]),
                     [Deductor(r, id), Rejecter(r, id).(pc := Auditing, won := true)])
  {
    var r := w.requests[id];
    var entered := sys.(flights := sys.flights + [Launch(Rejection(""), id)]);
    assert entered.flights == [Deductor(r, id), Launch(Rejection(""), id)];
    assert Progress(entered, 1, env).flights == [Deductor(r, id), Rejecter(r, id)];
    assert Progress(Progress(entered, 1, env), 1, env).flights
        == [Deductor(r, id), Rejecter(r, id).(pc := Auditing, won := true)];
  }

  /** The approval loses its save and then its second read, and the rejection is logged. */
  lemma ApprovalGivesUp(w: World, id: nat, r: Request, env: Env)
    requires id < |w.requests| && w.requests[id].version == 2 && r.version == 1 && w.requests[id].status == Rejected
    ensures var flights := [Deductor(r, id), Rejecter(r, id).(pc := Auditing, won := true)];
      && |Progress(System(w, flights), 0, env).flights| == 2
      && |Progress(Progress(System(w, flights), 0, env), 0, env).flights| == 2
      && var sys' := Progress(Progress(Progress(System(w, flights), 0, env), 0, env), 1, env);
         Quiet(sys'.flights) && sys'.world.store == w.store && sys'.world.requests == w.requests
  {
    var flights := [Deductor(r, id), Rejecter(r, id).(pc := Auditing, won := true)];
    var sys1 := Progress(System(w, flights), 0, env);
    var sys2 := Progress(sys1, 0, env);
    assert sys1 == System(w, [SaveFailed(Deductor(r, id), VersionMismatch), flights[1]]);
    assert sys2.world == w && sys2.flights[0].pc == Done && sys2.flights[1] == flights[1];
  }

  lemma RejectionStrands(w: World, id: nat, env: Env) returns (events: seq<Event>)
    requires id < |w.requests| && w.requests[id].status == Pending && RowOk(w.requests[id]) && TableOk(w.store)
    requires FiguresFor(w.store, w.requests[id].dims).Some?
    requires w.requests[id].days <= FiguresFor(w.store, w.requests[id].dims).value.available
    ensures OnlyOn(events, id)
    ensures var r, sys' := w.requests[id], Play(System(w, []), events);
      && Quiet(sys'.flights)
      && sys'.world.requests == w.requests[id := MarkRejected(r, "").(version := 2)]
      && MovesFigures(w.store, sys'.world.store, r.dims, Deduct(FiguresFor(w.store, r.dims).value, r.days))
  {
    var start, r := System(w, []), w.requests[id];
    events := DeductsAlone(w, id, env);
    var sys := Play(start, events);
    RejectionOvertakes(w, sys, id, env);
    events := Enters(start, events, Rejection(""), id);
    events := Advances(start, events, id, 1, env);
    events := Advances(start, events, id, 1, env);
    ApprovalGivesUp(Play(start, events).world, id, r, env);
    events := Advances(start, events, id, 0, env);
    events := Advances(start, events, id, 0, env);
    events := Advances(start, events, id, 1, env);
  }

  // ---- two cancellations ---------------------------------------------------------------------

  function Refunder(r: Request, id: nat): Flight {
    Canceller(r, id).(pc := Saving, moves := 1)
  }

  lemma BothCancellersRead(w: World, id: nat, env: Env) returns (events: seq<Event>)
    requires id < |w.requests| && w.requests[id].status == Approved
    ensures OnlyOn(events, id)
    ensures Play(System(w, []), events) == System(w, [Canceller(w.requests[id], id), Canceller(w.requests[id], id)])
  {
    var start, r := System(w, []), w.requests[id];
    events := Enters(start, [], Cancellation(None), id);
    events := Enters(start, events, Cancellation(None), id);
    assert Play(start, events).flights == [Launch(Cancellation(None), id), Launch(Cancellation(None), id)];
    events := Advances(start, events, id, 0, env);
    assert Play(start, events).flights == [Canceller(r, id), Launch(Cancellation(None), id)];
    events := Advances(start, events, id, 1, env);
    assert Play(start, events).flights == [Canceller(r, id), Canceller(r, id)];
  }

  /** Both cancellations of an approved request read it, and both refund. */
  lemma BothRefund(w: World, id: nat, env: Env) returns (events: seq<Event>, store: Store)
    requires id < |w.requests| && w.requests[id].status == Approved && RowOk(w.requests[id]) && TableOk(w.store)
    requires FiguresFor(w.store, w.requests[id].dims).Some?
    ensures OnlyOn(events, id)
    ensures Play(System(w, []), events)
         == System(w.(store := store), [Refunder(w.requests[id], id), Refunder(w.requests[id], id)])
    ensures RefundedTwice(w.store, store, w.requests[id])
  {
    var start := System(w, []);
    events := BothCancellersRead(w, id, env);
    RefundStops(w, w.requests[id], id, env);
    events := Advances(start, events, id, 0, env);
    events := Advances(start, events, id, 1, env);
    store := Play(start, events).world.store;
  }

  ghost predicate RefundedTwice(s: Store, s': Store, r: Request) {
    var s1 := RefundBalance(s, r.dims, r.days).store;
    && RefundBalance(s, r.dims, r.days).result.Ok? && RefundBalance(s1, r.dims, r.days).result.Ok?
    && s' == RefundBalance(s1, r.dims, r.days).store
  }

  lemma RefundGoesThrough(s: Store, d: Dims, days: int)
    requires TableOk(s) && FiguresFor(s, d).Some? && days > 0
    ensures RefundBalance(s, d, days).result.Ok?
    ensures TableOk(RefundBalance(s, d, days).store) && FiguresFor(RefundBalance(s, d, days).store, d).Some?
  {
    assert ChecksHold(s.rows[FindByDimensions(s.rows, d).value]);
    RefundMoves(s, d, days);
    assert MovedAt(s, RefundBalance(s, d, days).store, d, Refund(FiguresFor(s, d).value, days), d);
  }

  lemma RefundStops(w: World, r: Request, id: nat, env: Env)
    requires id < |w.requests| && TableOk(w.store) && FiguresFor(w.store, r.dims).Some? && r.days > 0
    ensures var sys1 := Progress(System(w, [Canceller(r, id), Canceller(r, id)]), 0, env);
      && |sys1.flights| == 2
      && var store := Progress(sys1, 1, env).world.store;
         && Progress(sys1, 1, env) == System(w.(store := store), [Refunder(r, id), Refunder(r, id)])
         && RefundedTwice(w.store, store, r)
  {
    var sys1 := Progress(System(w, [Canceller(r, id), Canceller(r, id)]), 0, env);
    RefundGoesThrough(w.store, r.dims, r.days);
    var s1 := RefundBalance(w.store, r.dims, r.days).store;
    assert sys1 == System(w.(store := s1), [Refunder(r, id), Canceller(r, id)]);
    RefundGoesThrough(s1, r.dims, r.days);
    assert Progress(sys1, 1, env).flights == [Refunder(r, id), Refunder(r, id)];
  }

  /** One cancellation saves, the other fails, and the first is logged. */
  lemma SecondSaveFails(w: World, id: nat, env: Env)
    requires id < |w.requests| && RequestChecks(w.requests[id])
    ensures var r := w.requests[id];
      var sys1 := Progress(System(w, [Refunder(r, id), Refunder(r, id)]), 0, env);
      && |sys1.flights| == 2 && |Progress(sys1, 1, env).flights| == 2
      && var sys' := Progress(Progress(sys1, 1, env), 0, env);
         && Quiet(sys'.flights) && sys'.world.store == w.store
         && sys'.world.requests == w.requests[id := MarkCancelled(r, None).(version := r.version + 1)]
  {
    var r := w.requests[id];
    var sys1 := Progress(System(w, [Refunder(r, id), Refunder(r, id)]), 0, env);
    assert sys1 == System(w.(requests := w.requests[id := MarkCancelled(r, None).(version := r.version + 1)]),
                          [Refunder(r, id).(pc := Auditing, won := true), Refunder(r, id)]);
    var sys2 := Progress(sys1, 1, env);
    assert sys2.world == sys1.world && sys2.flights == [sys1.flights[0], SaveFailed(Refunder(r, id), VersionMismatch)];
  }

  lemma CancellationsFinish(start: System, events: seq<Event>, w: World, id: nat, env: Env) returns (events': seq<Event>)
    requires OnlyOn(events, id) && id < |w.requests| && RequestChecks(w.requests[id])
    requires Play(start, events) == System(w, [Refunder(w.requests[id], id), Refunder(w.requests[id], id)])
    ensures OnlyOn(events', id)
    ensures var r, sys' := w.requests[id], Play(start, events');
      && Quiet(sys'.flights) && sys'.world.store == w.store
      && sys'.world.requests == w.requests[id := MarkCancelled(r, None).(version := r.version + 1)]
  {
    SecondSaveFails(w, id, env);
    events' := Advances(start, events, id, 0, env);
    events' := Advances(start, events', id, 1, env);
    events' := Advances(start, events', id, 0, env);
  }

  lemma CancellationsRefundTwice(w: World, id: nat, env: Env) returns (events: seq<Event>)
    requires id < |w.requests| && w.requests[id].status == Approved && RowOk(w.requests[id]) && TableOk(w.store)
    requires FiguresFor(w.store, w.requests[id].dims).Some?
    ensures OnlyOn(events, id)
    ensures var r, sys' := w.requests[id], Play(System(w, []), events);
      && Quiet(sys'.flights) && RefundedTwice(w.store, sys'.world.store, r)
      && sys'.world.requests == w.requests[id := MarkCancelled(r, None).(version := r.version + 1)]
  {
    var refunded, store := BothRefund(w, id, env);
    events := CancellationsFinish(System(w, []), refunded, w.(store := store), id, env);
  }

  // ---- the condition -------------------------------------------------------------------------

  lemma RejectionLeavesOff(w: World, events: seq<Event>, id: nat, d: Dims)
    requires TableOk(w.store) && id < |w.requests| && w.requests[id].status == Pending && RowOk(w.requests[id])
    requires SameFold(w.requests[id].dims, d) && FiguresFor(w.store, w.requests[id].dims).Some?
    requires var r, sys' := w.requests[id], Play(System(w, []), events);
      && Quiet(sys'.flights)
      && sys'.world.requests == w.requests[id := MarkRejected(r, "").(version := 2)]
      && MovesFigures(w.store, sys'.world.store, r.dims, Deduct(FiguresFor(w.store, r.dims).value, r.days))
    ensures LeavesOff(w, events, d)
  {
    var r, s' := w.requests[id], Play(System(w, []), events).world.store;
    assert MovedAt(w.store, s', r.dims, Deduct(FiguresFor(w.store, r.dims).value, r.days), d);
    LookupFolds(w.store.rows, d, r.dims);
    ApprovedDaysAfter(w.requests, id, MarkRejected(r, "").(version := 2), d);
  }

  lemma RefundsMove(s: Store, s': Store, r: Request, d: Dims)
    requires TableOk(s) && FiguresFor(s, r.dims).Some? && SameFold(r.dims, d) && r.days > 0
    requires RefundedTwice(s, s', r)
    ensures FiguresFor(s, d).Some? && FiguresFor(s', d).Some?
    ensures FiguresFor(s', d).value.available == FiguresFor(s, d).value.available + 2 * r.days
  {
    var s1 := RefundBalance(s, r.dims, r.days).store;
    RefundMoves(s, r.dims, r.days);
    assert MovedAt(s, s1, r.dims, Refund(FiguresFor(s, r.dims).value, r.days), d);
    assert MovedAt(s, s1, r.dims, Refund(FiguresFor(s, r.dims).value, r.days), r.dims);
    LookupFolds(s.rows, d, r.dims);
    RefundMoves(s1, r.dims, r.days);
    assert MovedAt(s1, s', r.dims, Refund(FiguresFor(s1, r.dims).value, r.days), d);
  }

  lemma RefundsLeaveOff(w: World, events: seq<Event>, id: nat, d: Dims)
    requires TableOk(w.store) && id < |w.requests| && w.requests[id].status == Approved && RowOk(w.requests[id])
    requires SameFold(w.requests[id].dims, d) && FiguresFor(w.store, w.requests[id].dims).Some?
    requires var r, sys' := w.requests[id], Play(System(w, []), events);
      && Quiet(sys'.flights) && RefundedTwice(w.store, sys'.world.store, r)
      && sys'.world.requests == w.requests[id := MarkCancelled(r, None).(version := r.version + 1)]
    ensures LeavesOff(w, events, d)
  {
    var r := w.requests[id];
    RefundsMove(w.store, Play(System(w, []), events).world.store, r, d);
    ApprovedDaysAfter(w.requests, id, MarkCancelled(r, None).(version := r.version + 1), d);
  }

  lemma RiskIsLoss(w: World, id: nat, d: Dims, f: Figures, env: Env) returns (events: seq<Event>)
    requires RowsOk(w) && TableOk(w.store) && FiguresFor(w.store, d) == Some(f) && RiskOn(w, id, d, f.available)
    ensures OnlyOn(events, id) && LeavesOff(w, events, d)
  {
    assert RowOk(w.requests[id]);
    LookupFolds(w.store.rows, d, w.requests[id].dims);
    if w.requests[id].status == Approved {
      events := CancellationsRefundTwice(w, id, env);
      RefundsLeaveOff(w, events, id, d);
    } else {
      events := RejectionStrands(w, id, env);
      RejectionLeavesOff(w, events, id, d);
    }
  }

  /** Calls on a set of requests can be interleaved so that the balance of `d` is off when all of them
      are finished if and only if one of these requests on `d` is approved, or is pending and covered
      by the balance. */
  lemma LossIsPossibleIff(w: World, ids: set<nat>, d: Dims, f: Figures)
    requires RowsOk(w) && TableOk(w.store) && FiguresFor(w.store, d) == Some(f)
    requires forall id :: id in ids ==> id < |w.requests|
    ensures (exists events :: CallsOn(events, ids) && LeavesOff(w, events, d))
       <==> (exists id :: id in ids && RiskOn(w, id, d, f.available))
  {
    if id :| id in ids && RiskOn(w, id, d, f.available) {
      var events := RiskIsLoss(w, id, d, f, Env(0, 0, _ => None, true));
      assert CallsOn(events, ids);
    } else {
      forall events | CallsOn(events, ids)
        ensures !LeavesOff(w, events, d)
      {
        NoRiskNoLoss(w, events, ids, d, f);
      }
    }
  }

  /** So for the calls on one request, on its own balance: it can be lost if and only if it is approved,
      or pending and covered. */
  lemma LossOfOneRequestIff(w: World, id: nat, f: Figures)
    requires RowsOk(w) && TableOk(w.store) && id < |w.requests| && FiguresFor(w.store, w.requests[id].dims) == Some(f)
    ensures (exists events :: CallsOn(events, {id}) && LeavesOff(w, events, w.requests[id].dims))
       <==> AtRisk(w.requests[id], f.available)
  {
    LossIsPossibleIff(w, {id}, w.requests[id].dims, f);
    assert RiskOn(w, id, w.requests[id].dims, f.available) <==> AtRisk(w.requests[id], f.available);
  }
}
