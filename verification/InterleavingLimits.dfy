/** When overlapping calls lose days and when they do not, and how the interleaved calls relate to
    the serialized ones. */
module InterleavingLimits {
  import opened Wrappers
  import opened Failures
  import opened CacheKeys
  import opened FixedPoint
  import opened Balances
  import opened AuditTrail
  import opened RequestTable
  import opened Requests
  import opened RequestRuns
  import opened Interleaving
  import opened InterleavingSafety
  import opened InterleavingLedger

  // ---- calls on one request that do not overlap ----------------------------------------------

  predicate Live(c: Flight) {
    c.pc != Done
  }

  predicate NoneLive(flights: seq<Flight>, id: nat) {
    forall k :: 0 <= k < |flights| && Live(flights[k]) ==> flights[k].id != id
  }

  /** No call arrives for a request while another call on that request is in flight. */
  ghost predicate OneAtATime(sys: System, events: seq<Event>) {
    forall n :: 0 <= n < |events| && events[n].Arrive? ==> NoneLive(Play(sys, events[..n]).flights, events[n].id)
  }

  /** The row a live call read is still the current one. */
  predicate Current(w: World, c: Flight) {
    && c.attempt == 1 && c.stranded == 0
    && (Live(c) && c.pc != Reading && c.pc != Auditing ==>
          c.snap.Some? && c.id < |w.requests| && c.snap.value == w.requests[c.id])
  }

  ghost predicate Orderly(sys: System) {
    && (forall k :: 0 <= k < |sys.flights| ==> Current(sys.world, sys.flights[k]))
    && (forall i, j :: 0 <= i < j < |sys.flights| && Live(sys.flights[i]) && Live(sys.flights[j]) ==>
          sys.flights[i].id != sys.flights[j].id)
  }

  /** A step that changes at most the row of call `k` leaves the other calls current. */
  lemma OrderlyStep(sys: System, sys': System, k: nat, c': Flight)
    requires Orderly(sys) && k < |sys.flights| && Live(sys.flights[k])
    requires sys'.flights == sys.flights[k := c'] && c'.id == sys.flights[k].id
    requires |sys'.world.requests| == |sys.world.requests|
    requires forall id :: 0 <= id < |sys.world.requests| && id != c'.id ==>
      sys'.world.requests[id] == sys.world.requests[id]
    requires Current(sys'.world, c')
    ensures Orderly(sys')
  {
    forall j | 0 <= j < |sys'.flights|
      ensures Current(sys'.world, sys'.flights[j])
    {
      if j != k {
        assert Current(sys.world, sys.flights[j]);
      }
    }
  }

  lemma ProgressKeepsOrder(sys: System, k: nat, env: Env)
    requires Sound(sys) && Orderly(sys) && k < |sys.flights|
    ensures Orderly(Progress(sys, k, env))
  {
    var c, sys' := sys.flights[k], Progress(sys, k, env);
    assert FlightOk(sys.world, c) && Current(sys.world, c);
    if c.pc == Saving {
      SaveStep(sys, k, env);
      OrderlyStep(sys, sys', k, sys'.flights[k]);
    } else if c.pc == Reading {
      OrderlyStep(sys, sys', k, sys'.flights[k]);
    } else if Live(c) {
      OtherStopsKeepFlight(sys, k, env);
      OrderlyStep(sys, sys', k, sys'.flights[k]);
    }
  }

  lemma NextKeepsOrder(sys: System, e: Event)
    requires Sound(sys) && Orderly(sys) && CanHappen(e)
    requires e.Arrive? ==> NoneLive(sys.flights, e.id)
    ensures Orderly(Next(sys, e))
  {
    match e
    case Arrive(kind, id) =>
    case Advance(k, env) =>
      if k < |sys.flights| { ProgressKeepsOrder(sys, k, env); }
    case Other(call) =>
      var w' := Do(sys.world, call);
      OtherKeepsRows(sys.world, call);
      forall k | 0 <= k < |sys.flights|
        ensures Current(w', sys.flights[k])
      {
        assert Current(sys.world, sys.flights[k]);
      }
  }

  lemma OtherKeepsRows(w: World, call: Call)
    requires CanHappen(Other(call))
    ensures w.requests <= Do(w, call).requests
  {
    if call.Creating? {
      CreationShape(w, call.dto, call.env);
    }
  }

  lemma OneAtATimeBefore(sys: System, events: seq<Event>, n: nat)
    requires OneAtATime(sys, events) && n <= |events|
    ensures OneAtATime(sys, events[..n])
  {
    forall k | 0 <= k < n && events[..n][k].Arrive?
      ensures NoneLive(Play(sys, events[..n][..k]).flights, events[..n][k].id)
    {
      assert events[..n][..k] == events[..k];
    }
  }

  lemma {:induction false} PlayKeepsOrder(w: World, events: seq<Event>)
    requires RowsOk(w) && forall e :: e in events ==> CanHappen(e)
    requires OneAtATime(System(w, []), events)
    ensures Orderly(Play(System(w, []), events))
  {
    if |events| > 0 {
      var earlier, e := events[..|events| - 1], events[|events| - 1];
      assert e in events;
      OneAtATimeBefore(System(w, []), events, |earlier|);
      PlayKeepsOrder(w, earlier);
      NoFlightsSound(w);
      EveryInterleavingSound(System(w, []), earlier);
      NextKeepsOrder(Play(System(w, []), earlier), e);
    }
  }

  /** If calls on the same request never overlap, calls on different requests may overlap as they
      like: no save is ever lost, and at rest the ledger is exact. */
  lemma NoOverlapNoLoss(w: World, events: seq<Event>, d: Dims, f: Figures)
    requires RowsOk(w) && TableOk(w.store) && FiguresFor(w.store, d) == Some(f)
    requires forall e :: e in events ==> MayHappen(e)
    requires OneAtATime(System(w, []), events)
    ensures var sys' := Play(System(w, []), events);
      && NothingStranded(sys'.flights)
      && FiguresFor(sys'.world.store, d).Some?
      && (Quiet(sys'.flights) ==>
            f.available + ApprovedDays(w.requests, d) ==
              FiguresFor(sys'.world.store, d).value.available + ApprovedDays(sys'.world.requests, d))
  {
    var sys' := Play(System(w, []), events);
    PlayKeepsOrder(w, events);
    forall k | 0 <= k < |sys'.flights|
      ensures sys'.flights[k].stranded == 0
    {
      assert Current(sys'.world, sys'.flights[k]);
    }
    InterleavedAccounting(w, events, d, f);
    if Quiet(sys'.flights) {
      AccountingAtRest(w, events, d, f);
    }
  }

  // ---- two approvals of one request ----------------------------------------------------------

  /** Nothing happens but approvals, rejections and cancellations. */
  ghost predicate OnlyCalls(events: seq<Event>) {
    forall e :: e in events ==> !e.Other?
  }

  lemma PlayOneMore(sys: System, events: seq<Event>, e: Event)
    ensures Play(sys, events + [e]) == Next(Play(sys, events), e)
  {
    assert (events + [e])[..|events|] == events;
  }

  function Thrice(sys: System, k: nat, env: Env): System
    requires k < |sys.flights|
  {
    ProgressKeepsCount(sys, k, env);
    ProgressKeepsCount(Progress(sys, k, env), k, env);
    Progress(Progress(Progress(sys, k, env), k, env), k, env)
  }

  /** An approval that has read its row goes through its three balance calls when it is covered. */
  lemma BalanceStops(sys: System, k: nat, env: Env)
    requires k < |sys.flights| && sys.flights[k].pc == Refreshing && sys.flights[k].snap.Some?
    requires sys.flights[k].id < |sys.world.requests| && TableOk(sys.world.store)
    requires var r := sys.flights[k].snap.value;
      FiguresFor(sys.world.store, r.dims).Some? && 0 < r.days <= FiguresFor(sys.world.store, r.dims).value.available
    ensures var c, r := sys.flights[k], sys.flights[k].snap.value;
      var sys' := Thrice(sys, k, env);
      && sys'.flights == sys.flights[k := c.(pc := Saving, moves := c.moves + 1)]
      && sys'.world.requests == sys.world.requests && sys'.world.audit == sys.world.audit
      && MovesFigures(sys.world.store, sys'.world.store, r.dims,
                      Deduct(FiguresFor(sys.world.store, r.dims).value, r.days))
  {
    var c, r := sys.flights[k], sys.flights[k].snap.value;
    ApprovalFigures(sys.world.store, r.dims, r.days, env);
    var current := RefreshBalance(sys.world.store, r.dims, env.year, env.now);
    var sys1 := Progress(sys, k, env);
    assert sys1 == System(sys.world.(store := current.store), sys.flights[k := c.(pc := Validating)]);
    var enough := ValidateBalance(current.store, r.dims, DaysOf(r), env.year, env.hcm, env.now);
    var sys2 := Progress(sys1, k, env);
    assert sys2 == System(sys.world.(store := enough.store), sys.flights[k := c.(pc := Deducting)]);
  }

  /** Of two approvals that are both about to save the same row, the first to save wins and the
      second leaves its days deducted for no request. */
  lemma LostRaceStrandsDays(sys: System, i: nat, j: nat, env: Env)
    requires Sound(sys) && i < |sys.flights| && j < |sys.flights| && i != j
    requires var a, b := sys.flights[i], sys.flights[j];
      && a.kind.Approval? && b.kind.Approval? && a.pc == Saving && b.pc == Saving && a.id == b.id
      && a.snap == Some(sys.world.requests[a.id]) && b.snap == a.snap
    ensures var a, b := sys.flights[i], sys.flights[j];
      var sys' := Progress(Progress(sys, i, env), j, env);
      && sys'.world.store == sys.world.store && sys'.world.audit == sys.world.audit
      && sys'.world.requests == sys.world.requests[a.id := MarkApproved(a.snap.value, env.now).(version := 2)]
      && sys'.flights == sys.flights[i := a.(pc := Auditing, won := true)]
           [j := b.(pc := Reading, attempt := 2, stranded := b.snap.value.days)]
  {
    var a, b := sys.flights[i], sys.flights[j];
    assert FlightOk(sys.world, a) && FlightOk(sys.world, b);
    SaveStep(sys, i, env);
    var sys1 := Progress(sys, i, env);
    ProgressKeepsSound(sys, i, env);
    assert FlightOk(sys1.world, sys1.flights[j]);
    SaveStep(sys1, j, env);
  }

  /** Two approvals of request `id` arrive and both read it. */
  lemma BothRead(w: World, id: nat, env: Env) returns (events: seq<Event>)
    requires id < |w.requests| && w.requests[id].status == Pending
    ensures OnlyCalls(events)
    ensures Play(System(w, []), events) == System(w, [Reader(w, id), Reader(w, id)])
  {
    var start := System(w, []);
    events := [];
    PlayOneMore(start, events, Arrive(Approval, id));
    events := events + [Arrive(Approval, id)];
    PlayOneMore(start, events, Arrive(Approval, id));
    events := events + [Arrive(Approval, id)];
    assert Play(start, events).flights == [Launch(Approval, id), Launch(Approval, id)];
    PlayOneMore(start, events, Advance(0, env));
    events := events + [Advance(0, env)];
    assert Play(start, events).flights == [Reader(w, id), Launch(Approval, id)];
    PlayOneMore(start, events, Advance(1, env));
    events := events + [Advance(1, env)];
    assert Play(start, events).flights == [Reader(w, id), Reader(w, id)];
  }

  function Reader(w: World, id: nat): Flight
    requires id < |w.requests|
  {
    Launch(Approval, id).(pc := Refreshing, snap := Some(w.requests[id]))
  }

  lemma ThreeMore(start: System, events: seq<Event>, k: nat, env: Env) returns (events': seq<Event>)
    requires OnlyCalls(events)
    requires k < |Play(start, events).flights|
    ensures OnlyCalls(events')
    ensures Play(start, events') == Thrice(Play(start, events), k, env)
  {
    var e := Advance(k, env);
    PlayOneMore(start, events, e);
    PlayOneMore(start, events + [e], e);
    PlayOneMore(start, events + [e] + [e], e);
    events' := events + [e] + [e] + [e];
    ProgressKeepsCount(Play(start, events), k, env);
    ProgressKeepsCount(Play(start, events + [e]), k, env);
  }

  lemma ProgressKeepsCount(sys: System, k: nat, env: Env)
    requires k < |sys.flights|
    ensures |Progress(sys, k, env).flights| == |sys.flights|
  {
  }

  /** Between `sys` and `sys'` only call `k` moved, and it deducted the days of `r`. */
  ghost predicate Deducted(sys: System, sys': System, k: nat, r: Request) {
    && k < |sys.flights|
    && sys'.flights == sys.flights[k := sys.flights[k].(pc := Saving, moves := sys.flights[k].moves + 1)]
    && sys'.world == sys.world.(store := sys'.world.store) && TableOk(sys'.world.store)
    && FiguresFor(sys.world.store, r.dims).Some?
    && FiguresFor(sys'.world.store, r.dims) == Some(Deduct(FiguresFor(sys.world.store, r.dims).value, r.days))
  }

  lemma Deducts(sys: System, k: nat, env: Env, r: Request)
    requires k < |sys.flights| && sys.flights[k].pc == Refreshing && sys.flights[k].snap == Some(r)
    requires sys.flights[k].id < |sys.world.requests| && TableOk(sys.world.store)
    requires FiguresFor(sys.world.store, r.dims).Some?
    requires 0 < r.days <= FiguresFor(sys.world.store, r.dims).value.available
    ensures Deducted(sys, Thrice(sys, k, env), k, r)
  {
    BalanceStops(sys, k, env);
    var sys' := Thrice(sys, k, env);
    var f := Deduct(FiguresFor(sys.world.store, r.dims).value, r.days);
    assert MovedAt(sys.world.store, sys'.world.store, r.dims, f, r.dims);
  }

  lemma DeductsNext(start: System, events: seq<Event>, k: nat, env: Env, r: Request) returns (events': seq<Event>)
    requires OnlyCalls(events)
    requires var sys := Play(start, events);
      && k < |sys.flights| && sys.flights[k].pc == Refreshing && sys.flights[k].snap == Some(r)
      && sys.flights[k].id < |sys.world.requests| && TableOk(sys.world.store)
      && FiguresFor(sys.world.store, r.dims).Some?
      && 0 < r.days <= FiguresFor(sys.world.store, r.dims).value.available
    ensures OnlyCalls(events')
    ensures Deducted(Play(start, events), Play(start, events'), k, r)
  {
    events' := ThreeMore(start, events, k, env);
    Deducts(Play(start, events), k, env, r);
  }

  lemma DeductedTwice(w: World, id: nat, sys2: System, sys3: System)
    requires id < |w.requests|
    requires Deducted(System(w, [Reader(w, id), Reader(w, id)]), sys2, 0, w.requests[id])
    requires Deducted(sys2, sys3, 1, w.requests[id])
    ensures var c := Reader(w, id).(pc := Saving, moves := 1);
      sys3 == System(w.(store := sys3.world.store), [c, c])
    ensures FiguresFor(sys3.world.store, w.requests[id].dims)
         == Some(Deduct(FiguresFor(w.store, w.requests[id].dims).value, 2 * w.requests[id].days))
  {
    var c := Reader(w, id).(pc := Saving, moves := 1);
    assert sys2.flights == [c, Reader(w, id)];
    assert sys3.flights == [c, c];
  }

  /** Both approvals deduct before either saves. */
  lemma BothDeduct(w: World, id: nat, env: Env) returns (events: seq<Event>, store: Store)
    requires id < |w.requests| && w.requests[id].status == Pending && w.requests[id].days > 0 && TableOk(w.store)
    requires FiguresFor(w.store, w.requests[id].dims).Some?
    requires 2 * w.requests[id].days <= FiguresFor(w.store, w.requests[id].dims).value.available
    ensures OnlyCalls(events)
    ensures var c := Reader(w, id).(pc := Saving, moves := 1);
      Play(System(w, []), events) == System(w.(store := store), [c, c])
    ensures FiguresFor(store, w.requests[id].dims)
         == Some(Deduct(FiguresFor(w.store, w.requests[id].dims).value, 2 * w.requests[id].days))
  {
    var start := System(w, []);
    var e1 := BothRead(w, id, env);
    var e2 := DeductsNext(start, e1, 0, env, w.requests[id]);
    events := DeductsNext(start, e2, 1, env, w.requests[id]);
    store := Play(start, events).world.store;
    DeductedTwice(w, id, Play(start, e2), Play(start, events));
  }

  lemma TwoMore(start: System, events: seq<Event>, env: Env) returns (events': seq<Event>)
    requires OnlyCalls(events)
    requires |Play(start, events).flights| == 2
    ensures OnlyCalls(events')
    ensures Play(start, events') == Progress(Progress(Play(start, events), 0, env), 1, env)
  {
    var sys := Play(start, events);
    OneMore(start, events, 0, env);
    ProgressKeepsCount(sys, 0, env);
    OneMore(start, events + [Advance(0, env)], 1, env);
    events' := events + [Advance(0, env)] + [Advance(1, env)];
  }

  lemma OneMore(start: System, events: seq<Event>, k: nat, env: Env)
    requires k < |Play(start, events).flights|
    ensures Play(start, events + [Advance(k, env)]) == Progress(Play(start, events), k, env)
  {
    PlayOneMore(start, events, Advance(k, env));
  }

  /** Overlap is what loses days: whenever a balance covers a pending request twice, two approvals of
      that request can be interleaved so that, with every call finished and one approval granted, the
      days have been deducted twice. */
  lemma TwoApprovalsLoseDays(w: World, id: nat, env: Env) returns (events: seq<Event>)
    requires id < |w.requests| && w.requests[id].status == Pending && RowsOk(w) && TableOk(w.store)
    requires FiguresFor(w.store, w.requests[id].dims).Some?
    requires 2 * w.requests[id].days <= FiguresFor(w.store, w.requests[id].dims).value.available
    ensures OnlyCalls(events)
    ensures var sys', r := Play(System(w, []), events), w.requests[id];
      && Quiet(sys'.flights)
      && FiguresFor(sys'.world.store, r.dims) == Some(Deduct(FiguresFor(w.store, r.dims).value, 2 * r.days))
      && ApprovedDays(sys'.world.requests, r.dims) == ApprovedDays(w.requests, r.dims) + r.days
      && r.days > 0
  {
    var start, r := System(w, []), w.requests[id];
    assert RowOk(r);
    var deducted, store := BothDeduct(w, id, env);
    NoFlightsSound(w);
    EveryInterleavingSound(start, deducted);
    LostRaceStrandsDays(Play(start, deducted), 0, 1, env);
    var saved := TwoMore(start, deducted, env);
    BothFinish(Play(start, saved), env);
    events := TwoMore(start, saved, env);
    ApprovedDaysAfter(w.requests, id, MarkApproved(r, env.now).(version := 2), r.dims);
  }

  lemma BothFinish(sys: System, env: Env)
    requires |sys.flights| == 2 && sys.flights[0].pc == Auditing && sys.flights[0].snap.Some?
    requires sys.flights[0].id < |sys.world.requests|
    requires sys.flights[1].pc == Reading && sys.flights[1].kind.Approval? && sys.flights[1].id == sys.flights[0].id
    requires sys.world.requests[sys.flights[0].id].status == Approved
    ensures var sys' := Progress(Progress(sys, 0, env), 1, env);
      Quiet(sys'.flights) && sys'.world.store == sys.world.store && sys'.world.requests == sys.world.requests
    ensures |Progress(sys, 0, env).flights| == 2
  {
  }

  // ---- the class-level retry loop ------------------------------------------------------------

  /** The serialized method, told that another call takes the row out of PENDING between its read and
      its save, makes one pass that strands its days and a second that ends at its read: it reports
      an invalid transition and never that its retries are exhausted. */
  lemma OvertakenApproval(w: World, id: nat, env: Env, rivals: seq<Option<Status>>)
    requires id < |w.requests| && w.requests[id].status == Pending
    requires |rivals| > 0 && rivals[0].Some? && rivals[0].value != Pending
    ensures var once, a := ApproveOnce(w, id, env, rivals[0]), ApproveRequest(w, id, env, rivals);
      && (once.result == Err(VersionMismatch) ==> a == Answer(once.world, Err(InvalidTransition)))
      && (once.result != Err(VersionMismatch) ==> a == once && once.world.requests == w.requests)
      && a.result.Err? && a.result != Err(RetriesExhausted) && a.world.audit == w.audit
  {
    var once := ApproveOnce(w, id, env, rivals[0]);
    OvertakenPass(w, id, env, rivals[0].value);
    if once.result == Err(VersionMismatch) {
      assert ApproveOnce(once.world, id, env, RivalAt(rivals, 1)) == Answer(once.world, Err(InvalidTransition));
      assert ApproveFrom(once.world, id, env, rivals, 1) == Answer(once.world, Err(InvalidTransition));
    }
  }

  lemma BalanceFailuresAreOrdinary(s: Store, d: Dims, days: real, units: int, year: int, hcm: Hcm, now: int)
    ensures RefreshBalance(s, d, year, now).result != Err(RetriesExhausted)
    ensures ValidateBalance(s, d, days, year, hcm, now).result != Err(RetriesExhausted)
    ensures UpdateUsedBalance(s, d, units).result != Err(RetriesExhausted)
  {
  }

  lemma OvertakenPass(w: World, id: nat, env: Env, status: Status)
    requires id < |w.requests| && w.requests[id].status == Pending
    ensures var once := ApproveOnce(w, id, env, Some(status));
      && once.world.audit == w.audit && once.result.Err? && once.result != Err(RetriesExhausted)
      && (once.result == Err(VersionMismatch) ==>
            |once.world.requests| == |w.requests| && once.world.requests[id].status == status)
      && (once.result != Err(VersionMismatch) ==> once.world.requests == w.requests)
  {
    var r := w.requests[id];
    var s1 := RefreshBalance(w.store, r.dims, env.year, env.now).store;
    var s2 := ValidateBalance(s1, r.dims, DaysOf(r), env.year, env.hcm, env.now).store;
    BalanceFailuresAreNotMismatches(w.store, r.dims, DaysOf(r), r.days, env.year, env.hcm, env.now);
    BalanceFailuresAreNotMismatches(s1, r.dims, DaysOf(r), r.days, env.year, env.hcm, env.now);
    BalanceFailuresAreNotMismatches(s2, r.dims, DaysOf(r), r.days, env.year, env.hcm, env.now);
    BalanceFailuresAreOrdinary(w.store, r.dims, DaysOf(r), r.days, env.year, env.hcm, env.now);
    BalanceFailuresAreOrdinary(s1, r.dims, DaysOf(r), r.days, env.year, env.hcm, env.now);
    BalanceFailuresAreOrdinary(s2, r.dims, DaysOf(r), r.days, env.year, env.hcm, env.now);
    assert SaveRequest(Overtaken(w.requests, id, Some(status)), id, MarkApproved(r, env.now)) == Err(VersionMismatch);
  }

  // ---- a call that runs alone ----------------------------------------------------------------

  function Serialized(w: World, kind: Kind, id: nat, env: Env): Answer {
    match kind
    case Approval => ApproveRequest(w, id, env, [])
    case Rejection(reason) => RejectRequest(w, id, reason, env)
    case Cancellation(why) => CancelRequest(w, id, why, env)
  }

  function Steps(sys: System, n: nat, env: Env): System
    decreases n
  {
    if n == 0 || |sys.flights| == 0 then sys
    else
      ProgressKeepsCount(sys, 0, env);
      Steps(Progress(sys, 0, env), n - 1, env)
  }

  /** The first call is done, with the world and the outcome of the answer. */
  predicate Settled(sys: System, a: Answer) {
    && |sys.flights| == 1 && sys.flights[0].pc == Done
    && sys.world == a.world
    && sys.flights[0].failure == match a.result case Ok(_) => None case Err(f) => Some(f)
  }

  lemma {:induction false} DoneStays(sys: System, n: nat, env: Env)
    requires |sys.flights| == 1 && sys.flights[0].pc == Done
    ensures Steps(sys, n, env) == sys
  {
    if n > 0 {
      DoneStays(sys, n - 1, env);
    }
  }

  /** What is left of a serialized call at its save. */
  function SaveAndAudit(w: World, kind: Kind, id: nat, r: Request, env: Env): Answer
    requires id < |w.requests|
  {
    match SaveRequest(w.requests, id, Marked(kind, r, env.now))
    case Err(f) => Answer(w, Err(f))
    case Ok(saved) => Audited(w.(requests := saved), EntryOf(kind, id), saved[id], env.auditWritable)
  }

  lemma SoloSave(w: World, c: Flight, env: Env, n: nat)
    requires c.pc == Saving && c.snap.Some? && c.id < |w.requests| && c.snap.value == w.requests[c.id]
    requires n >= 2 && c.failure.None?
    ensures Settled(Steps(System(w, [c]), n, env), SaveAndAudit(w, c.kind, c.id, c.snap.value, env))
  {
    var sys1 := Progress(System(w, [c]), 0, env);
    var sys2 := Progress(sys1, 0, env);
    DoneStays(sys2, n - 2, env);
    assert Steps(System(w, [c]), n, env) == Steps(sys1, n - 1, env) == Steps(sys2, n - 2, env);
  }

  lemma SoloRead(w: World, kind: Kind, id: nat, env: Env, n: nat)
    requires n >= 1
    ensures Steps(System(w, [Launch(kind, id)]), n, env) == Steps(System(w, [Read(w, Launch(kind, id))]), n - 1, env)
  {
    assert Progress(System(w, [Launch(kind, id)]), 0, env).flights == [Read(w, Launch(kind, id))];
  }

  lemma SoloRejection(w: World, reason: string, id: nat, env: Env, n: nat)
    requires n >= 3
    ensures Settled(Steps(System(w, [Launch(Rejection(reason), id)]), n, env), RejectRequest(w, id, reason, env))
  {
    var c := Read(w, Launch(Rejection(reason), id));
    SoloRead(w, Rejection(reason), id, env, n);
    if c.pc == Done {
      DoneStays(System(w, [c]), n - 1, env);
    } else {
      SoloSave(w, c, env, n - 1);
    }
  }

  /** One balance stop of a lone call. */
  lemma SoloStop<T>(w: World, c: Flight, env: Env, n: nat, reply: Reply<T>, next: Flight)
    requires n >= 1
    requires Progress(System(w, [c]), 0, env) == After(System(w, [c]), 0, reply, next)
    ensures reply.result.Ok? ==>
      Steps(System(w, [c]), n, env) == Steps(System(w.(store := reply.store), [next]), n - 1, env)
    ensures reply.result.Err? ==>
      Steps(System(w, [c]), n, env) == System(w.(store := reply.store), [Fail(c, reply.result.error)])
  {
    if reply.result.Ok? {
      assert Progress(System(w, [c]), 0, env) == System(w.(store := reply.store), [next]);
    } else {
      assert Progress(System(w, [c]), 0, env) == System(w.(store := reply.store), [Fail(c, reply.result.error)]);
      DoneStays(System(w.(store := reply.store), [Fail(c, reply.result.error)]), n - 1, env);
    }
  }

  /** What is left of a serialized cancellation at its refund. */
  function RefundAndSave(w: World, kind: Kind, id: nat, r: Request, env: Env): Answer
    requires id < |w.requests|
  {
    var refunded := RefundBalance(w.store, r.dims, r.days);
    match refunded.result
    case Err(f) => Failed(w, refunded.store, f)
    case Ok(_) => SaveAndAudit(w.(store := refunded.store), kind, id, r, env)
  }

  lemma SoloRefund(w: World, c: Flight, env: Env, n: nat)
    requires n >= 3 && c.pc == Pc.Refunding && c.failure.None?
    requires c.id < |w.requests| && c.snap == Some(w.requests[c.id])
    ensures Settled(Steps(System(w, [c]), n, env), RefundAndSave(w, c.kind, c.id, c.snap.value, env))
  {
    var refunded := RefundBalance(w.store, c.snap.value.dims, c.snap.value.days);
    var c' := c.(pc := Saving, moves := c.moves + 1);
    SoloStop(w, c, env, n, refunded, c');
    if refunded.result.Ok? {
      SoloSave(w.(store := refunded.store), c', env, n - 1);
    }
  }

  lemma SoloCancellation(w: World, why: Option<string>, id: nat, env: Env, n: nat)
    requires n >= 4
    ensures Settled(Steps(System(w, [Launch(Cancellation(why), id)]), n, env), CancelRequest(w, id, why, env))
  {
    var c := Read(w, Launch(Cancellation(why), id));
    SoloRead(w, Cancellation(why), id, env, n);
    if c.pc == Done {
      DoneStays(System(w, [c]), n - 1, env);
    } else {
      SoloRefund(w, c, env, n - 1);
      assert CancelRequest(w, id, why, env) == RefundAndSave(w, c.kind, id, c.snap.value, env);
    }
  }

  lemma SoloApproval(w: World, id: nat, env: Env, n: nat)
    requires n >= 6
    ensures Settled(Steps(System(w, [Launch(Approval, id)]), n, env), ApproveOnce(w, id, env, None))
  {
    var c := Read(w, Launch(Approval, id));
    SoloRead(w, Approval, id, env, n);
    if c.pc == Done {
      DoneStays(System(w, [c]), n - 1, env);
    } else {
      SoloBalanceStops(w, c, env, n - 1);
    }
  }

  /** What is left of a serialized approval at its deduction. */
  function DeductAndSave(w: World, id: nat, r: Request, env: Env): Answer
    requires id < |w.requests|
  {
    var deducted := UpdateUsedBalance(w.store, r.dims, r.days);
    match deducted.result
    case Err(f) => Failed(w, deducted.store, f)
    case Ok(_) => SaveAndAudit(w.(store := deducted.store), Approval, id, r, env)
  }

  lemma SoloDeduction(w: World, c: Flight, env: Env, n: nat)
    requires n >= 3 && c.kind.Approval? && c.pc == Deducting && c.failure.None?
    requires c.id < |w.requests| && c.snap == Some(w.requests[c.id])
    ensures Settled(Steps(System(w, [c]), n, env), DeductAndSave(w, c.id, c.snap.value, env))
  {
    var deducted := UpdateUsedBalance(w.store, c.snap.value.dims, c.snap.value.days);
    var c' := c.(pc := Saving, moves := c.moves + 1);
    SoloStop(w, c, env, n, deducted, c');
    if deducted.result.Ok? {
      SoloSave(w.(store := deducted.store), c', env, n - 1);
    }
  }

  /** What is left of a serialized approval at its validation. */
  function ValidateAndDeduct(w: World, id: nat, r: Request, env: Env): Answer
    requires id < |w.requests|
  {
    var enough := ValidateBalance(w.store, r.dims, DaysOf(r), env.year, env.hcm, env.now);
    match enough.result
    case Err(f) => Failed(w, enough.store, f)
    case Ok(_) => DeductAndSave(w.(store := enough.store), id, r, env)
  }

  lemma SoloValidation(w: World, c: Flight, env: Env, n: nat)
    requires n >= 4 && c.kind.Approval? && c.pc == Validating && c.failure.None?
    requires c.id < |w.requests| && c.snap == Some(w.requests[c.id])
    ensures Settled(Steps(System(w, [c]), n, env), ValidateAndDeduct(w, c.id, c.snap.value, env))
  {
    var r := c.snap.value;
    var enough := ValidateBalance(w.store, r.dims, DaysOf(r), env.year, env.hcm, env.now);
    var c' := c.(pc := Deducting);
    SoloStop(w, c, env, n, enough, c');
    if enough.result.Ok? {
      SoloDeduction(w.(store := enough.store), c', env, n - 1);
    }
  }

  lemma SoloBalanceStops(w: World, c: Flight, env: Env, n: nat)
    requires n >= 5 && c.kind.Approval? && c.pc == Refreshing && c.failure.None?
    requires c.id < |w.requests| && c.snap == Some(w.requests[c.id]) && w.requests[c.id].status == Pending
    ensures Settled(Steps(System(w, [c]), n, env), ApproveOnce(w, c.id, env, None))
  {
    var r := c.snap.value;
    var current := RefreshBalance(w.store, r.dims, env.year, env.now);
    var c' := c.(pc := Validating);
    SoloStop(w, c, env, n, current, c');
    ApprovalUnfolds(w, c.id, env);
    if current.result.Ok? {
      SoloValidation(w.(store := current.store), c', env, n - 1);
    }
  }

  lemma ApprovalUnfolds(w: World, id: nat, env: Env)
    requires id < |w.requests| && w.requests[id].status == Pending
    ensures var r := w.requests[id];
      var current := RefreshBalance(w.store, r.dims, env.year, env.now);
      ApproveOnce(w, id, env, None) ==
        if current.result.Err? then Failed(w, current.store, current.result.error)
        else ValidateAndDeduct(w.(store := current.store), id, r, env)
  {
  }

  /** A call that meets no other call does, stop by stop, exactly what the serialized method does. */
  lemma SoloCallIsSerialized(w: World, kind: Kind, id: nat, env: Env)
    ensures Settled(Steps(System(w, [Launch(kind, id)]), 6, env), Serialized(w, kind, id, env))
  {
    match kind
    case Approval =>
      SoloApproval(w, id, env, 6);
      SerialApproveIsOnePass(w, id, env);
    case Rejection(reason) => SoloRejection(w, reason, id, env, 6);
    case Cancellation(why) => SoloCancellation(w, why, id, env, 6);
  }
}
