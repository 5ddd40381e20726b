/** When overlapping calls keep the audit trail in order. */
module InterleavingOrder {
  import opened Wrappers
  import opened AuditTrail
  import opened Requests
  import opened RequestRuns
  import opened Interleaving
  import opened InterleavingSafety
  import opened InterleavingLedger
  import opened InterleavingAudit
  import opened InterleavingLimits
  import opened Sums

  // ---- the one step that spoils the order ----------------------------------------------------

  predicate UnloggedApproval(c: Flight, id: nat) {
    c.id == id && c.kind.Approval? && c.pc == Auditing
  }

  /** A cancellation of the request writes its entry while the approval that won has still to write its
      own. */
  predicate LogsEarly(sys: System, e: Event, id: nat) {
    && e.Advance? && e.k < |sys.flights| && e.env.auditWritable
    && sys.flights[e.k].id == id && sys.flights[e.k].kind.Cancellation? && sys.flights[e.k].pc == Auditing
    && exists j :: 0 <= j < |sys.flights| && UnloggedApproval(sys.flights[j], id)
  }

  /** Event `n` was such a step. */
  ghost predicate EarlyAt(w: World, events: seq<Event>, n: nat, id: nat) {
    n < |events| && LogsEarly(Play(System(w, []), events[..n]), events[n], id)
  }

  ghost predicate LoggedEarly(w: World, events: seq<Event>, id: nat) {
    exists n :: EarlyAt(w, events, n, id)
  }

  predicate NoneLost(flights: seq<Flight>, id: nat) {
    forall k :: 0 <= k < |flights| && flights[k].id == id && Unwritten(flights[k]) ==> flights[k].pc != Done
  }

  const APPROVAL: Change := Change(Some(Pending), Approved)
  const CANCELLATION: Change := Change(Some(Approved), Cancelled)

  /** The trail is the beginning of the history of the row. */
  ghost predicate Ordered(sys: System, id: nat) {
    && TrailOf(sys.world.audit, id) <= HistoryOf(sys.world, id)
    && (id < |sys.world.requests| ==> |TrailOf(sys.world.audit, id)| >= 1)
  }

  /** The cancellation stands where the approval belongs. */
  ghost predicate Flipped(sys: System, id: nat) {
    |TrailOf(sys.world.audit, id)| >= 2 && TrailOf(sys.world.audit, id)[1] == CANCELLATION
  }

  ghost predicate AllAudited(sys: System, id: nat) {
    forall change :: AuditedAt(sys, id, change)
  }

  // ---- one entry -----------------------------------------------------------------------------

  /** The entry that a call still owes is not in the trail yet. */
  lemma OwedIsAbsent(sys: System, k: nat, id: nat, change: Change)
    requires k < |sys.flights| && AuditedAt(sys, id, change)
    requires OwedEntry(id, change)(sys.flights[k]) == 1
    requires Times(HistoryOf(sys.world, id), change) <= 1
    ensures change !in TrailOf(sys.world.audit, id)
  {
    SumAtLeast(OwedEntry(id, change), sys.flights, k);
    assert change in TrailOf(sys.world.audit, id) ==> change in multiset(TrailOf(sys.world.audit, id));
  }

  lemma SettledIsPresent(sys: System, id: nat, change: Change)
    requires AuditedAt(sys, id, change) && Times(HistoryOf(sys.world, id), change) == 1
    requires forall k :: 0 <= k < |sys.flights| ==> OwedEntry(id, change)(sys.flights[k]) == 0
    ensures change in TrailOf(sys.world.audit, id)
  {
    SumZero(OwedEntry(id, change), sys.flights);
    assert change in multiset(TrailOf(sys.world.audit, id));
  }

  lemma LifecycleCounts(status: Status, change: Change)
    ensures Times(Lifecycle(status), change) <= 1
    ensures change in Lifecycle(status) ==> Times(Lifecycle(status), change) == 1
  {
  }

  /** The trail before call `k` writes its entry, and where that entry belongs. */
  lemma EntryFollows(sys: System, k: nat, id: nat)
    requires k < |sys.flights| && FlightOk(sys.world, sys.flights[k])
    requires sys.flights[k].pc == Auditing && sys.flights[k].id == id
    requires AllAudited(sys, id) && Ordered(sys, id) && NoneLost(sys.flights, id) && FlightsOk(sys)
    ensures var trail := TrailOf(sys.world.audit, id);
      var early := sys.flights[k].kind.Cancellation?
        && exists j :: 0 <= j < |sys.flights| && UnloggedApproval(sys.flights[j], id);
      if early then trail == [Change(None, Pending)]
      else trail + [ChangeOf(sys.flights[k].kind)] <= HistoryOf(sys.world, id)
  {
    var c := sys.flights[k];
    var trail, history, change := TrailOf(sys.world.audit, id), HistoryOf(sys.world, id), ChangeOf(c.kind);
    LifecycleCounts(sys.world.requests[id].status, change);
    assert AuditedAt(sys, id, change);
    OwedIsAbsent(sys, k, id, change);
    if c.kind.Cancellation? {
      CancellationFollows(sys, id);
    } else {
      DecisionFollows(trail, sys.world.requests[id].status, c.kind);
    }
  }

  /** An approval or a rejection comes right after the creation. */
  lemma DecisionFollows(trail: seq<Change>, status: Status, kind: Kind)
    requires !kind.Cancellation? && Past(status, Target(kind))
    requires trail <= Lifecycle(status) && |trail| >= 1 && ChangeOf(kind) !in trail
    ensures trail + [ChangeOf(kind)] <= Lifecycle(status)
  {
    assert Lifecycle(status)[1] == ChangeOf(kind);
    assert forall k :: 0 <= k < |trail| ==> trail[k] == Lifecycle(status)[k];
  }

  /** The approval's entry is owed, or it is there. */
  lemma ApprovalOwedOrPresent(sys: System, id: nat)
    requires id < |sys.world.requests| && sys.world.requests[id].status == Cancelled
    requires AllAudited(sys, id) && NoneLost(sys.flights, id) && FlightsOk(sys)
    ensures APPROVAL in TrailOf(sys.world.audit, id) <==>
      !exists j :: 0 <= j < |sys.flights| && UnloggedApproval(sys.flights[j], id)
  {
    assert AuditedAt(sys, id, APPROVAL);
    assert Lifecycle(Cancelled)[1] == APPROVAL;
    LifecycleCounts(Cancelled, APPROVAL);
    if j :| 0 <= j < |sys.flights| && UnloggedApproval(sys.flights[j], id) {
      assert FlightOk(sys.world, sys.flights[j]);
      OwedIsAbsent(sys, j, id, APPROVAL);
    } else {
      forall k | 0 <= k < |sys.flights|
        ensures OwedEntry(id, APPROVAL)(sys.flights[k]) == 0
      {
        assert FlightOk(sys.world, sys.flights[k]) && !UnloggedApproval(sys.flights[k], id);
      }
      SettledIsPresent(sys, id, APPROVAL);
    }
  }

  lemma CancellationFollows(sys: System, id: nat)
    requires id < |sys.world.requests| && sys.world.requests[id].status == Cancelled
    requires AllAudited(sys, id) && Ordered(sys, id) && NoneLost(sys.flights, id) && FlightsOk(sys)
    requires CANCELLATION !in TrailOf(sys.world.audit, id)
    ensures var early := exists j :: 0 <= j < |sys.flights| && UnloggedApproval(sys.flights[j], id);
      TrailOf(sys.world.audit, id) == if early then [Change(None, Pending)] else [Change(None, Pending), APPROVAL]
  {
    ApprovalOwedOrPresent(sys, id);
    PrefixOfCancelled(TrailOf(sys.world.audit, id));
  }

  lemma PrefixOfCancelled(trail: seq<Change>)
    requires trail <= Lifecycle(Cancelled) && |trail| >= 1 && CANCELLATION !in trail
    ensures trail == if APPROVAL in trail then [Change(None, Pending), APPROVAL] else [Change(None, Pending)]
  {
    var history := Lifecycle(Cancelled);
    assert history[0] == Change(None, Pending) && history[1] == APPROVAL && history[2] == CANCELLATION;
    assert forall k :: 0 <= k < |trail| ==> trail[k] == history[k];
  }

  // ---- one step ------------------------------------------------------------------------------

  /** The trail of `id` is the same, and its history the same or longer. */
  ghost predicate TrailAndHistoryKept(sys: System, sys': System, id: nat) {
    && TrailOf(sys'.world.audit, id) == TrailOf(sys.world.audit, id)
    && HistoryOf(sys.world, id) <= HistoryOf(sys'.world, id)
    && |sys'.world.requests| == |sys.world.requests|
  }

  lemma SaveKeepsTrail(sys: System, k: nat, env: Env, id: nat)
    requires k < |sys.flights| && FlightOk(sys.world, sys.flights[k]) && sys.flights[k].pc == Saving
    ensures TrailAndHistoryKept(sys, Progress(sys, k, env), id)
  {
    SaveStep(sys, k, env);
    LifecycleGrows(sys.flights[k].kind);
  }

  lemma OtherStopsKeepTrail(sys: System, k: nat, env: Env, id: nat)
    requires k < |sys.flights| && FlightOk(sys.world, sys.flights[k])
    requires sys.flights[k].pc == Auditing ==> !env.auditWritable
    ensures TrailAndHistoryKept(sys, Progress(sys, k, env), id)
  {
    if sys.flights[k].pc == Saving {
      SaveKeepsTrail(sys, k, env, id);
    } else if sys.flights[k].pc != Auditing {
      BeforeSaveOwesNothing(sys, k, env, id, APPROVAL);
    }
  }

  lemma EntryAppended(sys: System, k: nat, env: Env, id: nat)
    requires k < |sys.flights| && FlightOk(sys.world, sys.flights[k])
    requires sys.flights[k].pc == Auditing && env.auditWritable
    ensures var c, sys' := sys.flights[k], Progress(sys, k, env);
      && sys'.world.requests == sys.world.requests
      && TrailOf(sys'.world.audit, id) == TrailOf(sys.world.audit, id) + if c.id == id then [ChangeOf(c.kind)] else []
  {
    EntryWritten(sys, k, env);
    TrailAppend(sys.world.audit, EntryOf(sys.flights[k].kind, sys.flights[k].id), id);
  }

  /** The state of the order is settled by whether an early entry has been written. */
  ghost predicate OrderIs(sys: System, id: nat, early: bool) {
    if early then Flipped(sys, id) else Ordered(sys, id)
  }

  lemma ProgressKeepsOrderOf(sys: System, k: nat, env: Env, id: nat, early: bool)
    requires Sound(sys) && k < |sys.flights| && AllAudited(sys, id) && NoneLost(sys.flights, id)
    requires OrderIs(sys, id, early)
    ensures OrderIs(Progress(sys, k, env), id, early || LogsEarly(sys, Advance(k, env), id))
  {
    var c := sys.flights[k];
    assert FlightOk(sys.world, c);
    if c.pc == Auditing && env.auditWritable {
      EntryAppended(sys, k, env, id);
      if c.id == id && !early {
        EntryFollows(sys, k, id);
      }
    } else {
      OtherStopsKeepTrail(sys, k, env, id);
    }
  }

  lemma CreationKeepsOrderOf(sys: System, w': World, id: nat, early: bool)
    requires var n := |sys.world.requests|;
      && |w'.requests| == n + 1 && w'.requests[..n] == sys.world.requests && w'.requests[n].status == Pending
      && w'.audit == sys.world.audit + [RequestChange(n, Create, None, Pending)]
    requires OrderIs(sys, id, early)
    ensures OrderIs(sys.(world := w'), id, early)
  {
    var n := |sys.world.requests|;
    TrailAppend(sys.world.audit, RequestChange(n, Create, None, Pending), id);
    if id < n {
      assert w'.requests[id] == w'.requests[..n][id];
    }
  }

  lemma NextKeepsOrderOf(sys: System, e: Event, id: nat, early: bool)
    requires Sound(sys) && CanHappen(e) && WritesCreation(e) && AllAudited(sys, id) && NoneLost(sys.flights, id)
    requires OrderIs(sys, id, early)
    ensures OrderIs(Next(sys, e), id, early || LogsEarly(sys, e, id))
  {
    match e
    case Arrive(kind, n) =>
    case Advance(k, env) =>
      if k < |sys.flights| { ProgressKeepsOrderOf(sys, k, env, id, early); }
    case Other(call) =>
      if call.Creating? {
        CreationShape(sys.world, call.dto, call.env);
        if Do(sys.world, call).requests != sys.world.requests {
          CreationKeepsOrderOf(sys, Do(sys.world, call), id, early);
        }
      }
  }

  // ---- every interleaving --------------------------------------------------------------------

  lemma DoneStaysDone(sys: System, e: Event, k: nat)
    requires k < |sys.flights| && sys.flights[k].pc == Done
    ensures k < |Next(sys, e).flights| && Next(sys, e).flights[k] == sys.flights[k]
  {
  }

  /** A lost entry stays lost. */
  lemma NoneLostBefore(sys: System, e: Event, id: nat)
    requires NoneLost(Next(sys, e).flights, id)
    ensures NoneLost(sys.flights, id)
  {
    forall k | 0 <= k < |sys.flights| && sys.flights[k].id == id && Unwritten(sys.flights[k])
      ensures sys.flights[k].pc != Done
    {
      if sys.flights[k].pc == Done {
        DoneStaysDone(sys, e, k);
      }
    }
  }

  lemma EarlyAtGrows(w: World, events: seq<Event>, n: nat, id: nat)
    requires |events| > 0
    ensures n < |events| - 1 ==> (EarlyAt(w, events, n, id) <==> EarlyAt(w, events[..|events| - 1], n, id))
  {
    if n < |events| - 1 {
      assert events[..|events| - 1][..n] == events[..n];
    }
  }

  lemma LoggedEarlyGrows(w: World, events: seq<Event>, id: nat)
    requires |events| > 0
    ensures LoggedEarly(w, events, id) <==>
      LoggedEarly(w, events[..|events| - 1], id) || EarlyAt(w, events, |events| - 1, id)
  {
    var earlier := events[..|events| - 1];
    if n :| EarlyAt(w, earlier, n, id) {
      EarlyAtGrows(w, events, n, id);
    }
    if n :| EarlyAt(w, events, n, id) {
      EarlyAtGrows(w, events, n, id);
    }
  }

  lemma {:induction false} OrderDecided(w: World, events: seq<Event>, id: nat)
    requires RowsOk(w) && TrailsOk(w) && Possible(events)
    requires NoneLost(Play(System(w, []), events).flights, id)
    ensures OrderIs(Play(System(w, []), events), id, LoggedEarly(w, events, id))
  {
    if |events| > 0 {
      var earlier, e := events[..|events| - 1], events[|events| - 1];
      var sys := Play(System(w, []), earlier);
      assert e in events;
      NoFlightsSound(w);
      EveryInterleavingSound(System(w, []), earlier);
      NoneLostBefore(sys, e, id);
      OrderDecided(w, earlier, id);
      forall change
        ensures AuditedAt(sys, id, change)
      {
        EntriesAccounted(w, earlier, id, change);
      }
      LoggedEarlyGrows(w, events, id);
      NextKeepsOrderOf(sys, e, id, LoggedEarly(w, earlier, id));
    }
  }

  /** In every interleaving, with every entry written, the trail of a request is in order if and only
      if no cancellation of it was logged before the approval that it cancels. */
  lemma TrailInOrderIff(w: World, events: seq<Event>, id: nat)
    requires RowsOk(w) && TrailsOk(w) && Possible(events)
    requires AllWritten(Play(System(w, []), events).flights)
    requires id < |Play(System(w, []), events).world.requests|
    ensures var w' := Play(System(w, []), events).world;
      TrailOf(w'.audit, id) == Lifecycle(w'.requests[id].status) <==> !LoggedEarly(w, events, id)
  {
    var w' := Play(System(w, []), events).world;
    OrderDecided(w, events, id);
    WrittenCounts(w, events, id);
    SameSize(TrailOf(w'.audit, id), HistoryOf(w', id));
  }

  // ---- calls on one request that do not overlap ----------------------------------------------

  predicate WritesEntries(e: Event) {
    e.Advance? ==> e.env.auditWritable
  }

  predicate NoEntryLost(flights: seq<Flight>) {
    forall k :: 0 <= k < |flights| && Unwritten(flights[k]) ==> flights[k].pc == Auditing
  }

  lemma {:induction false} WrittenAtRest(w: World, events: seq<Event>)
    requires RowsOk(w) && forall e :: e in events ==> CanHappen(e) && WritesEntries(e)
    ensures NoEntryLost(Play(System(w, []), events).flights)
  {
    if |events| > 0 {
      var earlier, e := events[..|events| - 1], events[|events| - 1];
      assert e in events;
      WrittenAtRest(w, earlier);
      NoFlightsSound(w);
      EveryInterleavingSound(System(w, []), earlier);
      WrittenNext(Play(System(w, []), earlier), e);
    }
  }

  lemma WrittenNext(sys: System, e: Event)
    requires Sound(sys) && CanHappen(e) && WritesEntries(e)
    requires NoEntryLost(sys.flights)
    ensures NoEntryLost(Next(sys, e).flights)
  {
    if e.Advance? && e.k < |sys.flights| {
      var c := sys.flights[e.k];
      assert FlightOk(sys.world, c);
      if c.pc == Auditing {
        EntryWritten(sys, e.k, e.env);
      } else if c.pc == Saving {
        SaveStep(sys, e.k, e.env);
      } else if c.pc != Reading {
        OtherStopsKeepFlight(sys, e.k, e.env);
      }
    }
  }

  lemma OrderlyNeverLogsEarly(sys: System, e: Event, id: nat)
    requires Orderly(sys)
    ensures !LogsEarly(sys, e, id)
  {
    if LogsEarly(sys, e, id) {
      var j :| 0 <= j < |sys.flights| && UnloggedApproval(sys.flights[j], id);
      var i, k := if j < e.k then j else e.k, if j < e.k then e.k else j;
      assert Live(sys.flights[i]) && Live(sys.flights[k]);
    }
  }

  /** If calls on the same request never overlap and every audit write succeeds, then at rest every
      trail is in order, however calls on different requests overlap. */
  lemma NoOverlapKeepsOrder(w: World, events: seq<Event>, id: nat)
    requires RowsOk(w) && TrailsOk(w) && Possible(events) && OneAtATime(System(w, []), events)
    requires forall e :: e in events ==> WritesEntries(e)
    requires Quiet(Play(System(w, []), events).flights)
    requires id < |Play(System(w, []), events).world.requests|
    ensures var w' := Play(System(w, []), events).world;
      TrailOf(w'.audit, id) == Lifecycle(w'.requests[id].status)
  {
    WrittenAtRest(w, events);
    forall n: nat | n < |events|
      ensures !EarlyAt(w, events, n, id)
    {
      OneAtATimeBefore(System(w, []), events, n);
      PlayKeepsOrder(w, events[..n]);
      OrderlyNeverLogsEarly(Play(System(w, []), events[..n]), events[n], id);
    }
    TrailInOrderIff(w, events, id);
  }
}
