/** What the audit trail tells about overlapping calls. A call saves its row at one stop and writes
    its audit entry at the next, so entries can be missing for a while, and can come out of order. */
module InterleavingAudit {
  import opened Wrappers
  import opened Failures
  import opened BalanceTable
  import opened Balances
  import opened AuditTrail
  import opened RequestTable
  import opened Requests
  import opened RequestRuns
  import opened Interleaving
  import opened InterleavingSafety
  import opened InterleavingLedger
  import opened InterleavingLimits
  import opened Sums

  // ---- which entries there are ---------------------------------------------------------------

  function ChangeOf(kind: Kind): Change {
    Change(Some(Source(kind)), Target(kind))
  }

  /** The call has changed the row, and its entry is not in the log. */
  predicate Unwritten(c: Flight) {
    c.won && !(c.pc == Done && c.failure.None?)
  }

  /** The entries about `change` of request `id` that calls still have to write, or never will. */
  function OwedEntry(id: nat, change: Change): Flight -> int {
    (c: Flight) => if c.id == id && Unwritten(c) && ChangeOf(c.kind) == change then 1 else 0
  }

  function Times(trail: seq<Change>, change: Change): int {
    multiset(trail)[change]
  }

  function HistoryOf(w: World, id: nat): seq<Change> {
    if id < |w.requests| then Lifecycle(w.requests[id].status) else []
  }

  /** Entries in the log and entries owed make up the history of the row. */
  ghost predicate AuditedAt(sys: System, id: nat, change: Change) {
    Times(TrailOf(sys.world.audit, id), change) + SumOf(OwedEntry(id, change), sys.flights)
      == Times(HistoryOf(sys.world, id), change)
  }

  predicate WritesCreation(e: Event) {
    e.Other? && e.call.Creating? ==> e.call.env.auditWritable
  }

  ghost predicate Possible(events: seq<Event>) {
    forall e :: e in events ==> CanHappen(e) && WritesCreation(e)
  }

  lemma OneMoreEntry(trail: seq<Change>, c: Change, change: Change)
    ensures Times(trail + [c], change) == Times(trail, change) + if c == change then 1 else 0
  {
  }

  /** A step that leaves the log and the statuses alone, and replaces a call by one that owes as many
      entries. */
  lemma QuietStepKeepsAudit(sys: System, sys': System, k: nat, c': Flight, id: nat, change: Change)
    requires k < |sys.flights| && sys'.flights == sys.flights[k := c']
    requires sys'.world.requests == sys.world.requests && sys'.world.audit == sys.world.audit
    requires OwedEntry(id, change)(c') == OwedEntry(id, change)(sys.flights[k])
    requires AuditedAt(sys, id, change)
    ensures AuditedAt(sys', id, change)
  {
    SumUpdate(OwedEntry(id, change), sys.flights, k, c');
  }

  lemma LifecycleGrows(kind: Kind)
    ensures Lifecycle(Target(kind)) == Lifecycle(Source(kind)) + [ChangeOf(kind)]
  {
  }

  lemma WinningOwesOne(c: Flight, id: nat, change: Change)
    requires !c.won
    ensures OwedEntry(id, change)(c.(pc := Auditing, won := true)) ==
      OwedEntry(id, change)(c) + if c.id == id && ChangeOf(c.kind) == change then 1 else 0
  {
  }

  lemma WonSaveKeepsAudit(sys: System, sys': System, k: nat, r': Request, id: nat, change: Change)
    requires k < |sys.flights| && FlightOk(sys.world, sys.flights[k]) && sys.flights[k].pc == Saving
    requires sys.flights[k].snap.value == sys.world.requests[sys.flights[k].id]
    requires r'.status == Target(sys.flights[k].kind)
    requires sys' == System(sys.world.(requests := sys.world.requests[sys.flights[k].id := r']),
                            sys.flights[k := sys.flights[k].(pc := Auditing, won := true)])
    requires AuditedAt(sys, id, change)
    ensures AuditedAt(sys', id, change)
  {
    var c := sys.flights[k];
    SumUpdate(OwedEntry(id, change), sys.flights, k, c.(pc := Auditing, won := true));
    WinningOwesOne(c, id, change);
    if id == c.id {
      LifecycleGrows(c.kind);
      OneMoreEntry(Lifecycle(Source(c.kind)), ChangeOf(c.kind), change);
      assert HistoryOf(sys.world, id) == Lifecycle(Source(c.kind));
    } else {
      assert HistoryOf(sys'.world, id) == HistoryOf(sys.world, id);
    }
  }

  lemma SaveKeepsAudit(sys: System, k: nat, env: Env, id: nat, change: Change)
    requires k < |sys.flights| && FlightOk(sys.world, sys.flights[k]) && sys.flights[k].pc == Saving
    requires AuditedAt(sys, id, change)
    ensures AuditedAt(Progress(sys, k, env), id, change)
  {
    var w, c, sys' := sys.world, sys.flights[k], Progress(sys, k, env);
    SaveStep(sys, k, env);
    if c.snap.value == w.requests[c.id] {
      WonSaveKeepsAudit(sys, sys', k, sys'.world.requests[c.id], id, change);
    } else {
      QuietStepKeepsAudit(sys, sys', k, SaveFailed(c, VersionMismatch), id, change);
    }
  }

  lemma WrittenEntryKeepsAudit(sys: System, sys': System, k: nat, id: nat, change: Change)
    requires k < |sys.flights| && sys.flights[k].won && sys.flights[k].pc == Auditing && sys.flights[k].failure.None?
    requires sys' == System(sys.world.(audit := sys.world.audit + [EntryOf(sys.flights[k].kind, sys.flights[k].id)]),
                            sys.flights[k := sys.flights[k].(pc := Done)])
    requires AuditedAt(sys, id, change)
    ensures AuditedAt(sys', id, change)
  {
    var c := sys.flights[k];
    SumUpdate(OwedEntry(id, change), sys.flights, k, c.(pc := Done));
    TrailAppend(sys.world.audit, EntryOf(c.kind, c.id), id);
    OneMoreEntry(TrailOf(sys.world.audit, id), ChangeOf(c.kind), change);
  }

  lemma EntryKeepsAudit(sys: System, k: nat, env: Env, id: nat, change: Change)
    requires k < |sys.flights| && FlightOk(sys.world, sys.flights[k]) && sys.flights[k].pc == Auditing
    requires AuditedAt(sys, id, change)
    ensures AuditedAt(Progress(sys, k, env), id, change)
  {
    if env.auditWritable {
      EntryWritten(sys, k, env);
      WrittenEntryKeepsAudit(sys, Progress(sys, k, env), k, id, change);
    } else {
      QuietStepKeepsAudit(sys, Progress(sys, k, env), k, Progress(sys, k, env).flights[k], id, change);
    }
  }

  lemma BeforeSaveOwesNothing(sys: System, k: nat, env: Env, id: nat, change: Change)
    requires k < |sys.flights| && FlightOk(sys.world, sys.flights[k])
    requires sys.flights[k].pc != Saving && sys.flights[k].pc != Auditing
    ensures var sys' := Progress(sys, k, env);
      && sys'.world.requests == sys.world.requests && sys'.world.audit == sys.world.audit
      && sys'.flights == sys.flights[k := sys'.flights[k]]
      && OwedEntry(id, change)(sys'.flights[k]) == OwedEntry(id, change)(sys.flights[k])
  {
  }

  lemma ProgressKeepsAudit(sys: System, k: nat, env: Env, id: nat, change: Change)
    requires k < |sys.flights| && FlightOk(sys.world, sys.flights[k]) && AuditedAt(sys, id, change)
    ensures AuditedAt(Progress(sys, k, env), id, change)
  {
    if sys.flights[k].pc == Saving {
      SaveKeepsAudit(sys, k, env, id, change);
    } else if sys.flights[k].pc == Auditing {
      EntryKeepsAudit(sys, k, env, id, change);
    } else {
      BeforeSaveOwesNothing(sys, k, env, id, change);
      QuietStepKeepsAudit(sys, Progress(sys, k, env), k, Progress(sys, k, env).flights[k], id, change);
    }
  }

  lemma CreationKeepsAudit(sys: System, w': World, id: nat, change: Change)
    requires var n := |sys.world.requests|;
      && |w'.requests| == n + 1 && w'.requests[..n] == sys.world.requests && w'.requests[n].status == Pending
      && w'.audit == sys.world.audit + [RequestChange(n, Create, None, Pending)]
    requires AuditedAt(sys, id, change)
    ensures AuditedAt(sys.(world := w'), id, change)
  {
    var n := |sys.world.requests|;
    TrailAppend(sys.world.audit, RequestChange(n, Create, None, Pending), id);
    if id < n {
      assert w'.requests[id] == w'.requests[..n][id];
    } else if id == n {
      OneMoreEntry(TrailOf(sys.world.audit, id), Change(None, Pending), change);
      OneMoreEntry([], Change(None, Pending), change);
      assert [] + [Change(None, Pending)] == HistoryOf(w', id);
    }
  }

  lemma OtherKeepsAudit(sys: System, call: Call, id: nat, change: Change)
    requires CanHappen(Other(call)) && WritesCreation(Other(call)) && AuditedAt(sys, id, change)
    ensures AuditedAt(sys.(world := Do(sys.world, call)), id, change)
  {
    var w := sys.world;
    if call.Creating? {
      CreationShape(w, call.dto, call.env);
      if Do(w, call).requests != w.requests {
        CreationKeepsAudit(sys, Do(w, call), id, change);
      }
    }
  }

  lemma NextKeepsAudit(sys: System, e: Event, id: nat, change: Change)
    requires Sound(sys) && CanHappen(e) && WritesCreation(e) && AuditedAt(sys, id, change)
    ensures AuditedAt(Next(sys, e), id, change)
  {
    match e
    case Arrive(kind, n) => SumAppend(OwedEntry(id, change), sys.flights, Launch(kind, n));
    case Advance(k, env) =>
      if k < |sys.flights| {
        assert FlightOk(sys.world, sys.flights[k]);
        ProgressKeepsAudit(sys, k, env, id, change);
      }
    case Other(call) => OtherKeepsAudit(sys, call, id, change);
  }

  /** In every interleaving, each change a request has been through is in the log once, or is owed by
      the one call that made it. */
  lemma {:induction false} EntriesAccounted(w: World, events: seq<Event>, id: nat, change: Change)
    requires RowsOk(w) && TrailsOk(w)
    requires Possible(events)
    ensures AuditedAt(Play(System(w, []), events), id, change)
  {
    if |events| > 0 {
      assert events[|events| - 1] in events;
      EntriesAccounted(w, events[..|events| - 1], id, change);
      NoFlightsSound(w);
      EveryInterleavingSound(System(w, []), events[..|events| - 1]);
      NextKeepsAudit(Play(System(w, []), events[..|events| - 1]), events[|events| - 1], id, change);
    }
  }

  predicate AllWritten(flights: seq<Flight>) {
    forall k :: 0 <= k < |flights| ==> !Unwritten(flights[k])
  }

  lemma WrittenCounts(w: World, events: seq<Event>, id: nat)
    requires RowsOk(w) && TrailsOk(w) && Possible(events)
    requires AllWritten(Play(System(w, []), events).flights)
    ensures var w' := Play(System(w, []), events).world;
      multiset(TrailOf(w'.audit, id)) == multiset(HistoryOf(w', id))
  {
    var sys' := Play(System(w, []), events);
    var trail, history := TrailOf(sys'.world.audit, id), HistoryOf(sys'.world, id);
    forall change
      ensures multiset(trail)[change] == multiset(history)[change]
    {
      EntriesAccounted(w, events, id, change);
      SumZero(OwedEntry(id, change), sys'.flights);
    }
  }

  /** Once every winning call has written its entry, the trail of each request holds exactly the
      changes that its status implies, each once; and as many as its version says. */
  lemma TrailIsComplete(w: World, events: seq<Event>, id: nat)
    requires RowsOk(w) && TrailsOk(w) && Possible(events)
    requires AllWritten(Play(System(w, []), events).flights)
    requires id < |Play(System(w, []), events).world.requests|
    ensures var w' := Play(System(w, []), events).world;
      && multiset(TrailOf(w'.audit, id)) == multiset(Lifecycle(w'.requests[id].status))
      && |TrailOf(w'.audit, id)| == w'.requests[id].version
  {
    var w' := Play(System(w, []), events).world;
    WrittenCounts(w, events, id);
    SameSize(TrailOf(w'.audit, id), Lifecycle(w'.requests[id].status));
    NoFlightsSound(w);
    EveryInterleavingSound(System(w, []), events);
    assert RowOk(w'.requests[id]);
  }

  lemma SameSize(trail: seq<Change>, history: seq<Change>)
    requires multiset(trail) == multiset(history)
    ensures |trail| == |history|
  {
    assert |trail| == |multiset(trail)| == |multiset(history)| == |history|;
  }

  // ---- and in which order --------------------------------------------------------------------

  /** A call arrives. */
  lemma Arrives(start: System, events: seq<Event>, kind: Kind, id: nat)
    ensures Play(start, events + [Arrive(kind, id)]) ==
      Play(start, events).(flights := Play(start, events).flights + [Launch(kind, id)])
  {
    PlayOneMore(start, events, Arrive(kind, id));
  }

  /** An approval of request `id` has been saved and not yet logged, and the balance can be refunded. */
  ghost predicate JustApproved(sys: System, id: nat, a: Flight) {
    && sys.flights == [a] && a.pc == Auditing && a.kind.Approval? && a.id == id && a.snap.Some? && a.failure.None?
    && id < |sys.world.requests| && sys.world.requests[id].status == Approved && RequestChecks(sys.world.requests[id])
    && RefundBalance(sys.world.store, sys.world.requests[id].dims, sys.world.requests[id].days).result.Ok?
  }

  function Canceller(r: Request, id: nat): Flight {
    Launch(Cancellation(None), id).(pc := Pc.Refunding, snap := Some(r))
  }

  lemma CancellerReads(sys: System, id: nat, a: Flight, env: Env)
    requires JustApproved(sys, id, a)
    ensures Progress(sys.(flights := [a, Launch(Cancellation(None), id)]), 1, env)
         == sys.(flights := [a, Canceller(sys.world.requests[id], id)])
  {
    var launched := sys.(flights := [a, Launch(Cancellation(None), id)]);
    assert launched.flights[1 := Canceller(sys.world.requests[id], id)] == [a, Canceller(sys.world.requests[id], id)];
  }

  lemma CancellerRefunds(sys: System, id: nat, a: Flight, env: Env)
    requires JustApproved(sys, id, a)
    ensures var r := sys.world.requests[id];
      Progress(sys.(flights := [a, Canceller(r, id)]), 1, env)
        == System(sys.world.(store := RefundBalance(sys.world.store, r.dims, r.days).store),
                  [a, Canceller(r, id).(pc := Saving, moves := 1)])
  {
    var r := sys.world.requests[id];
    var c := Canceller(r, id).(pc := Saving, moves := 1);
    assert [a, Canceller(r, id)][1 := c] == [a, c];
  }

  lemma CancellerSaves(w: World, id: nat, a: Flight, env: Env)
    requires id < |w.requests| && RequestChecks(w.requests[id])
    ensures var r := w.requests[id];
      var c := Canceller(r, id).(pc := Saving, moves := 1);
      Progress(System(w, [a, c]), 1, env)
        == System(w.(requests := w.requests[id := MarkCancelled(r, None).(version := r.version + 1)]),
                  [a, c.(pc := Auditing, won := true)])
  {
    var r := w.requests[id];
    var c := Canceller(r, id).(pc := Saving, moves := 1);
    assert [a, c][1 := c.(pc := Auditing, won := true)] == [a, c.(pc := Auditing, won := true)];
  }

  lemma EntryWritten(sys: System, k: nat, env: Env)
    requires k < |sys.flights| && sys.flights[k].pc == Auditing && sys.flights[k].snap.Some?
    requires sys.flights[k].id < |sys.world.requests| && env.auditWritable
    ensures var c := sys.flights[k];
      Progress(sys, k, env)
        == System(sys.world.(audit := sys.world.audit + [EntryOf(c.kind, c.id)]), sys.flights[k := c.(pc := Done)])
  {
  }

  /** Two calls that have saved write their entries, the second one first. */
  lemma SecondWritesFirst(sys: System, id: nat, env: Env)
    requires |sys.flights| == 2 && env.auditWritable && id < |sys.world.requests|
    requires forall k :: 0 <= k < 2 ==>
      sys.flights[k].pc == Auditing && sys.flights[k].snap.Some? && sys.flights[k].failure.None? && sys.flights[k].id == id
    ensures |Progress(sys, 1, env).flights| == 2
    ensures var sys', k0, k1 := Progress(Progress(sys, 1, env), 0, env), sys.flights[0].kind, sys.flights[1].kind;
      && Quiet(sys'.flights) && AllWritten(sys'.flights)
      && sys'.world == sys.world.(audit := sys.world.audit + [EntryOf(k1, id)] + [EntryOf(k0, id)])
  {
    EntryWritten(sys, 1, env);
    EntryWritten(Progress(sys, 1, env), 0, env);
  }

  /** The two calls have changed the row, and neither has written its entry. */
  ghost predicate BothUnlogged(sys: System, w: World, id: nat) {
    && |sys.flights| == 2
    && (forall k :: 0 <= k < 2 ==>
          sys.flights[k].pc == Auditing && sys.flights[k].snap.Some? && sys.flights[k].failure.None? && sys.flights[k].id == id)
    && sys.flights[0].kind == Approval && sys.flights[1].kind == Cancellation(None)
    && |sys.world.requests| == |w.requests| && id < |w.requests| && sys.world.requests[id].status == Cancelled
    && sys.world.audit == w.audit
  }

  /** From a just-saved approval, a cancellation can come in and save. */
  lemma Overtake(start: System, events: seq<Event>, id: nat, a: Flight, env: Env) returns (events': seq<Event>)
    requires OnlyCalls(events) && JustApproved(Play(start, events), id, a)
    ensures OnlyCalls(events') && BothUnlogged(Play(start, events'), Play(start, events).world, id)
  {
    var sys := Play(start, events);
    Arrives(start, events, Cancellation(None), id);
    var e1 := events + [Arrive(Cancellation(None), id)];
    assert sys.flights + [Launch(Cancellation(None), id)] == [a, Launch(Cancellation(None), id)];
    CancellerReads(sys, id, a, env);
    OneMore(start, e1, 1, env);
    var e2 := e1 + [Advance(1, env)];
    events' := OvertakeFrom(start, e2, sys, id, a, env);
  }

  lemma OvertakeFrom(start: System, events: seq<Event>, sys: System, id: nat, a: Flight, env: Env)
      returns (events': seq<Event>)
    requires OnlyCalls(events) && JustApproved(sys, id, a)
    requires Play(start, events) == sys.(flights := [a, Canceller(sys.world.requests[id], id)])
    ensures OnlyCalls(events') && BothUnlogged(Play(start, events'), sys.world, id)
  {
    CancellerRefunds(sys, id, a, env);
    OneMore(start, events, 1, env);
    events' := events + [Advance(1, env)];
    CancellerSaves(Play(start, events').world, id, a, env);
    OneMore(start, events', 1, env);
    events' := events' + [Advance(1, env)];
  }

  /** Then the cancellation can be logged first. */
  lemma LogBackwards(start: System, events: seq<Event>, w: World, id: nat, env: Env) returns (events': seq<Event>)
    requires OnlyCalls(events) && BothUnlogged(Play(start, events), w, id) && env.auditWritable
    ensures OnlyCalls(events')
    ensures var sys' := Play(start, events');
      && Quiet(sys'.flights) && AllWritten(sys'.flights)
      && |sys'.world.requests| == |w.requests| && sys'.world.requests[id].status == Cancelled
      && sys'.world.audit == w.audit + [EntryOf(Cancellation(None), id)] + [EntryOf(Approval, id)]
  {
    SecondWritesFirst(Play(start, events), id, env);
    OneMore(start, events, 1, env);
    OneMore(start, events + [Advance(1, env)], 0, env);
    events' := events + [Advance(1, env)] + [Advance(0, env)];
  }

  /** The approval of a covered request up to its save. */
  lemma ApproveUnlogged(w: World, id: nat, env: Env) returns (events: seq<Event>, a: Flight)
    requires id < |w.requests| && w.requests[id].status == Pending && RowsOk(w) && TableOk(w.store)
    requires FiguresFor(w.store, w.requests[id].dims).Some?
    requires w.requests[id].days <= FiguresFor(w.store, w.requests[id].dims).value.available
    ensures OnlyCalls(events)
    ensures JustApproved(Play(System(w, []), events), id, a)
    ensures Play(System(w, []), events).world.audit == w.audit
    ensures |Play(System(w, []), events).world.requests| == |w.requests|
  {
    var start, r := System(w, []), w.requests[id];
    assert RowOk(r);
    Arrives(start, [], Approval, id);
    var e1 := [Arrive(Approval, id)];
    assert [] + e1 == e1;
    OneMore(start, e1, 0, env);
    var e2 := e1 + [Advance(0, env)];
    assert Play(start, e2) == System(w, [Reader(w, id)]);
    var e3 := ApproverDeducts(start, e2, w, id, env);
    ApproverSaves(Play(start, e3), w, id, env);
    OneMore(start, e3, 0, env);
    events := e3 + [Advance(0, env)];
    a := Play(start, events).flights[0];
  }

  lemma ApproverDeducts(start: System, events: seq<Event>, w: World, id: nat, env: Env) returns (events': seq<Event>)
    requires OnlyCalls(events) && id < |w.requests| && Play(start, events) == System(w, [Reader(w, id)])
    requires TableOk(w.store) && FiguresFor(w.store, w.requests[id].dims).Some?
    requires 0 < w.requests[id].days <= FiguresFor(w.store, w.requests[id].dims).value.available
    ensures OnlyCalls(events') && Deducted(System(w, [Reader(w, id)]), Play(start, events'), 0, w.requests[id])
  {
    events' := DeductsNext(start, events, 0, env, w.requests[id]);
  }

  lemma ApproverSaves(sys: System, w: World, id: nat, env: Env)
    requires id < |w.requests| && w.requests[id].status == Pending && RowOk(w.requests[id]) && AllChecksHold(w.store.rows)
    requires Deducted(System(w, [Reader(w, id)]), sys, 0, w.requests[id])
    ensures |sys.flights| == 1
    ensures var sys' := Progress(sys, 0, env);
      && |sys'.flights| == 1 && JustApproved(sys', id, sys'.flights[0])
      && sys'.world.audit == w.audit && |sys'.world.requests| == |w.requests|
  {
    var r := w.requests[id];
    var c := Reader(w, id).(pc := Saving, moves := 1);
    assert sys.flights == [c];
    var used := FiguresFor(w.store, r.dims).value.used;
    assert ChecksHold(RowFor(w.store.rows, r.dims).value);
    UnclampedRefund(sys.world.store, r.dims, r.days);
  }

  /** The order is not kept: whenever a balance covers a pending request, its approval and a
      cancellation can overlap so that everything succeeds, every entry is written, and the trail
      still tells the cancellation before the approval. */
  lemma AuditOrderCanFlip(w: World, id: nat, env: Env) returns (events: seq<Event>)
    requires id < |w.requests| && w.requests[id].status == Pending && RowsOk(w) && TableOk(w.store) && TrailsOk(w)
    requires FiguresFor(w.store, w.requests[id].dims).Some?
    requires w.requests[id].days <= FiguresFor(w.store, w.requests[id].dims).value.available
    requires env.auditWritable
    ensures OnlyCalls(events)
    ensures var sys' := Play(System(w, []), events);
      && Quiet(sys'.flights) && AllWritten(sys'.flights)
      && |sys'.world.requests| == |w.requests| && sys'.world.requests[id].status == Cancelled
      && TrailOf(sys'.world.audit, id) ==
           [Change(None, Pending), Change(Some(Approved), Cancelled), Change(Some(Pending), Approved)]
  {
    var approved, a := ApproveUnlogged(w, id, env);
    var overtaken := Overtake(System(w, []), approved, id, a, env);
    events := LogBackwards(System(w, []), overtaken, Play(System(w, []), approved).world, id, env);
    TrailAppend(w.audit, EntryOf(Cancellation(None), id), id);
    TrailAppend(w.audit + [EntryOf(Cancellation(None), id)], EntryOf(Approval, id), id);
  }
}
