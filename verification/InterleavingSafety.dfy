/** What holds of the request rows and of every call, in every interleaving. */
module InterleavingSafety {
  import opened Wrappers
  import opened Failures
  import opened AuditTrail
  import opened RequestTable
  import opened Requests
  import opened RequestRuns
  import opened Interleaving

  /** Once a row has been written with status `target`, these are the statuses it can show. */
  predicate Past(status: Status, target: Status) {
    status == target || (target == Approved && status == Cancelled)
  }

  /** The row that was read: as it was then, and as it still is while its version is current. */
  predicate SnapOk(w: World, c: Flight) {
    c.snap.Some? ==>
      && c.id < |w.requests|
      && RowOk(c.snap.value)
      && c.snap.value.status == Source(c.kind)
      && c.snap.value.dims == w.requests[c.id].dims
      && c.snap.value.days == w.requests[c.id].days
      && c.snap.value.version <= w.requests[c.id].version
      && (c.snap.value.version == w.requests[c.id].version ==> c.snap.value == w.requests[c.id])
  }

  predicate PcOk(c: Flight) {
    && (c.pc != Reading && c.pc != Done ==> c.snap.Some?)
    && (c.pc == Refreshing || c.pc == Validating || c.pc == Deducting ==> c.kind.Approval?)
    && (c.pc == Pc.Refunding ==> c.kind.Cancellation?)
    && (c.pc != Done ==> c.failure.None?)
    && (c.pc == Auditing ==> c.won)
    && (c.won ==> c.pc == Auditing || c.pc == Done)
  }

  /** A retry starts only when the row has left PENDING, and it ends at its read. */
  predicate AttemptsOk(w: World, c: Flight) {
    && 1 <= c.attempt <= 2
    && c.failure != Some(RetriesExhausted)
    && (c.attempt == 2 ==>
          && c.kind.Approval? && !c.won
          && c.id < |w.requests| && w.requests[c.id].status != Pending
          && (c.pc == Reading || (c.pc == Done && c.failure == Some(InvalidTransition))))
  }

  /** The balance has been moved at most once, and not before the save is due. */
  predicate MovesOk(c: Flight) {
    && c.moves <= 1
    && (c.attempt == 1 && c.pc != Saving && c.pc != Auditing && c.pc != Done ==> c.moves == 0 && c.stranded == 0)
    && (c.pc == Saving ==> c.stranded == 0)
    && (c.won ==> c.stranded == 0)
  }

  predicate WonOk(w: World, c: Flight) {
    c.won ==> c.id < |w.requests| && Past(w.requests[c.id].status, Target(c.kind))
  }

  predicate FlightOk(w: World, c: Flight) {
    SnapOk(w, c) && PcOk(c) && AttemptsOk(w, c) && MovesOk(c) && WonOk(w, c)
  }

  /** Of the calls on one request that start from the same status, at most one wins. */
  ghost predicate OneWinner(flights: seq<Flight>) {
    forall i, j :: 0 <= i < j < |flights| && flights[i].won && flights[j].won && flights[i].id == flights[j].id ==>
      Source(flights[i].kind) != Source(flights[j].kind)
  }

  ghost predicate FlightsOk(sys: System) {
    forall k :: 0 <= k < |sys.flights| ==> FlightOk(sys.world, sys.flights[k])
  }

  ghost predicate Sound(sys: System) {
    RowsOk(sys.world) && FlightsOk(sys) && OneWinner(sys.flights)
  }

  /** The edges of the lifecycle. */
  predicate Edge(from: Status, to: Status) {
    || (from == Pending && (to == Approved || to == Rejected))
    || (from == Approved && to == Cancelled)
  }

  /** One step leaves a row as it is, or takes it along one edge and one version up. */
  predicate RowSteps(r: Request, r': Request) {
    r' == r || (Edge(r.status, r'.status) && r'.version == r.version + 1 && r'.dims == r.dims && r'.days == r.days)
  }

  ghost predicate RowsStep(w: World, w': World) {
    && |w.requests| <= |w'.requests|
    && forall id :: 0 <= id < |w.requests| ==> RowSteps(w.requests[id], w'.requests[id])
  }

  lemma FlightSurvives(w: World, w': World, c: Flight)
    requires FlightOk(w, c) && RowsOk(w) && RowsStep(w, w')
    ensures FlightOk(w', c)
  {
    if c.id < |w.requests| {
      assert RowSteps(w.requests[c.id], w'.requests[c.id]);
    }
  }

  lemma ReadKeepsFlight(w: World, c: Flight)
    requires RowsOk(w) && FlightOk(w, c) && c.pc == Reading
    ensures FlightOk(w, Read(w, c))
  {
    if c.id < |w.requests| {
      assert RowOk(w.requests[c.id]);
    }
  }

  /** A save goes through exactly when the row is still the one that was read. */
  lemma SaveDecides(w: World, c: Flight, now: int)
    requires FlightOk(w, c) && c.pc == Saving
    ensures SaveRequest(w.requests, c.id, Marked(c.kind, c.snap.value, now)) ==
      if c.snap.value == w.requests[c.id] then
        Ok(w.requests[c.id := Marked(c.kind, c.snap.value, now).(version := c.snap.value.version + 1)])
      else Err(VersionMismatch)
  {
  }

  lemma SaveStep(sys: System, k: nat, env: Env)
    requires k < |sys.flights| && FlightOk(sys.world, sys.flights[k]) && sys.flights[k].pc == Saving
    ensures var w, c := sys.world, sys.flights[k];
      Progress(sys, k, env) ==
        if c.snap.value == w.requests[c.id] then
          System(w.(requests := w.requests[c.id := Marked(c.kind, c.snap.value, env.now).(version := c.snap.value.version + 1)]),
                 sys.flights[k := c.(pc := Auditing, won := true)])
        else sys.(flights := sys.flights[k := SaveFailed(c, VersionMismatch)])
  {
    SaveDecides(sys.world, sys.flights[k], env.now);
  }

  lemma WonSaveKeepsSound(sys: System, k: nat, env: Env)
    requires Sound(sys) && k < |sys.flights| && sys.flights[k].pc == Saving
    requires sys.flights[k].snap.value == sys.world.requests[sys.flights[k].id]
    ensures Sound(Progress(sys, k, env)) && RowsStep(sys.world, Progress(sys, k, env).world)
  {
    var w, c, sys' := sys.world, sys.flights[k], Progress(sys, k, env);
    SaveStep(sys, k, env);
    assert RowsStep(w, sys'.world);
    forall j | 0 <= j < |sys'.flights|
      ensures FlightOk(sys'.world, sys'.flights[j])
    {
      FlightSurvives(w, sys'.world, sys.flights[j]);
    }
    forall j | 0 <= j < |sys.flights| && sys.flights[j].won && sys.flights[j].id == c.id
      ensures Source(sys.flights[j].kind) != Source(c.kind)
    {
      assert WonOk(w, sys.flights[j]);
    }
  }

  /** A step of call `k` that leaves the request rows alone and does not win. */
  lemma QuietStepKeepsSound(sys: System, sys': System, k: nat, c': Flight)
    requires Sound(sys) && k < |sys.flights| && sys'.flights == sys.flights[k := c']
    requires sys'.world.requests == sys.world.requests
    requires FlightOk(sys.world, c') && c'.won == sys.flights[k].won && c'.kind == sys.flights[k].kind
      && c'.id == sys.flights[k].id
    ensures Sound(sys') && RowsStep(sys.world, sys'.world)
  {
    forall j | 0 <= j < |sys'.flights|
      ensures FlightOk(sys'.world, sys'.flights[j])
    {
      assert j != k ==> FlightOk(sys.world, sys.flights[j]);
    }
  }

  /** The version race is lost only to a call that took the row out of PENDING, so the retry that
      follows can only end at its read. */
  lemma LostSaveKeepsFlight(w: World, c: Flight)
    requires RowsOk(w) && FlightOk(w, c) && c.pc == Saving && c.snap.value != w.requests[c.id]
    ensures FlightOk(w, SaveFailed(c, VersionMismatch))
    ensures c.kind.Approval? ==> SaveFailed(c, VersionMismatch).pc == Reading && SaveFailed(c, VersionMismatch).attempt == 2
  {
    assert RowOk(w.requests[c.id]);
  }

  lemma ProgressKeepsSound(sys: System, k: nat, env: Env)
    requires Sound(sys) && k < |sys.flights|
    ensures Sound(Progress(sys, k, env)) && RowsStep(sys.world, Progress(sys, k, env).world)
  {
    var w, c, sys' := sys.world, sys.flights[k], Progress(sys, k, env);
    assert FlightOk(w, c);
    if c.pc == Reading {
      ReadKeepsFlight(w, c);
      QuietStepKeepsSound(sys, sys', k, sys'.flights[k]);
    } else if c.pc == Saving {
      SaveStep(sys, k, env);
      if c.snap.value == w.requests[c.id] {
        WonSaveKeepsSound(sys, k, env);
      } else {
        LostSaveKeepsFlight(w, c);
        QuietStepKeepsSound(sys, sys', k, sys'.flights[k]);
      }
    } else {
      OtherStopsKeepFlight(sys, k, env);
      QuietStepKeepsSound(sys, sys', k, sys'.flights[k]);
    }
  }

  lemma OtherStopsKeepFlight(sys: System, k: nat, env: Env)
    requires k < |sys.flights| && FlightOk(sys.world, sys.flights[k])
    requires sys.flights[k].pc != Reading && sys.flights[k].pc != Saving
    ensures var c, sys' := sys.flights[k], Progress(sys, k, env);
      && sys'.world.requests == sys.world.requests
      && sys'.flights == sys.flights[k := sys'.flights[k]]
      && FlightOk(sys.world, sys'.flights[k])
      && sys'.flights[k].won == c.won && sys'.flights[k].kind == c.kind && sys'.flights[k].id == c.id
  {
  }

  lemma OtherKeepsSound(sys: System, call: Call)
    requires Sound(sys) && CanHappen(Other(call))
    ensures Sound(Next(sys, Other(call))) && RowsStep(sys.world, Next(sys, Other(call)).world)
  {
    var w, w' := sys.world, Do(sys.world, call);
    if call.Creating? {
      CreationShape(w, call.dto, call.env);
      assert forall id :: 0 <= id < |w.requests| ==> w'.requests[id] == w'.requests[..|w.requests|][id];
    }
    assert RowsStep(w, w');
    forall k | 0 <= k < |sys.flights|
      ensures FlightOk(w', sys.flights[k])
    {
      FlightSurvives(w, w', sys.flights[k]);
    }
  }

  lemma NextKeepsSound(sys: System, e: Event)
    requires Sound(sys) && CanHappen(e)
    ensures Sound(Next(sys, e)) && RowsStep(sys.world, Next(sys, e).world)
  {
    match e
    case Arrive(kind, id) =>
      assert FlightOk(sys.world, Launch(kind, id));
    case Advance(k, env) =>
      if k < |sys.flights| { ProgressKeepsSound(sys, k, env); }
    case Other(call) => OtherKeepsSound(sys, call);
  }

  /** A system with no call in flight yet. */
  lemma NoFlightsSound(w: World)
    requires RowsOk(w)
    ensures Sound(System(w, []))
  {
  }

  /** In every interleaving of any number of calls the rows and the calls stay sound, and every step
      takes each row along at most one edge of the lifecycle. */
  lemma {:induction false} EveryInterleavingSound(sys: System, events: seq<Event>)
    requires Sound(sys) && forall e :: e in events ==> CanHappen(e)
    ensures Sound(Play(sys, events))
    ensures |events| > 0 ==>
      RowsStep(Play(sys, events[..|events| - 1]).world, Play(sys, events).world)
  {
    if |events| > 0 {
      assert events[|events| - 1] in events;
      EveryInterleavingSound(sys, events[..|events| - 1]);
      NextKeepsSound(Play(sys, events[..|events| - 1]), events[|events| - 1]);
    }
  }

  /** Version 1 means PENDING, 2 APPROVED or REJECTED, 3 CANCELLED, in every interleaving. */
  lemma VersionTellsStatus(sys: System, events: seq<Event>, id: nat)
    requires Sound(sys) && forall e :: e in events ==> CanHappen(e)
    requires id < |Play(sys, events).world.requests|
    ensures var r := Play(sys, events).world.requests[id];
      && (r.version == 1 <==> r.status == Pending)
      && (r.version == 2 <==> r.status == Approved || r.status == Rejected)
      && (r.version == 3 <==> r.status == Cancelled)
  {
    EveryInterleavingSound(sys, events);
    assert RowOk(Play(sys, events).world.requests[id]);
  }

  /** In every interleaving at most one call wins each transition of a request: two winning calls on
      one request are an approval and the cancellation that followed it. */
  lemma TransitionsHaveOneWinner(sys: System, events: seq<Event>, i: nat, j: nat)
    requires Sound(sys) && forall e :: e in events ==> CanHappen(e)
    requires i < j < |Play(sys, events).flights|
    requires Play(sys, events).flights[i].won && Play(sys, events).flights[j].won
    requires Play(sys, events).flights[i].id == Play(sys, events).flights[j].id
    ensures var c, c' := Play(sys, events).flights[i].kind, Play(sys, events).flights[j].kind;
      (c.Approval? && c'.Cancellation?) || (c.Cancellation? && c'.Approval?)
  {
    EveryInterleavingSound(sys, events);
    var sys' := Play(sys, events);
    assert FlightOk(sys'.world, sys'.flights[i]) && FlightOk(sys'.world, sys'.flights[j]);
  }

  /** In every interleaving the retry loop runs at most twice, never reports that its retries are
      exhausted, moves the balance at most once, and a second pass never wins. */
  lemma RetriesAreFutile(sys: System, events: seq<Event>, k: nat)
    requires Sound(sys) && forall e :: e in events ==> CanHappen(e)
    requires k < |Play(sys, events).flights|
    ensures var c := Play(sys, events).flights[k];
      && c.attempt <= 2 && c.moves <= 1 && c.failure != Some(RetriesExhausted)
      && (c.attempt == 2 ==> !c.won && (c.pc == Reading || c.failure == Some(InvalidTransition)))
  {
    EveryInterleavingSound(sys, events);
    assert FlightOk(Play(sys, events).world, Play(sys, events).flights[k]);
  }

  /** What the winning call makes of the row it read. */
  function Written(kind: Kind, r: Request, now: int): Request {
    match kind
    case Approval => r.(status := Approved, approvedAt := Some(now), hcmSynced := true, version := 2)
    case Rejection(reason) => r.(status := Rejected, rejectionReason := Some(reason), hcmSynced := true, version := 2)
    case Cancellation(why) =>
      var reason := if why.None? || why.value == "" then "Request cancelled" else why.value;
      r.(status := Cancelled, rejectionReason := Some(reason), hcmSynced := true, version := 3)
  }

  /** In every interleaving, the step that wins a transition writes the decision, its time or reason,
      the synchronised mark and the version into the current row, and touches nothing else. */
  lemma WinnerWrites(sys: System, events: seq<Event>, k: nat, env: Env)
    requires Sound(sys) && forall e :: e in events ==> CanHappen(e)
    requires k < |Play(sys, events).flights| && !Play(sys, events).flights[k].won
    requires Next(Play(sys, events), Advance(k, env)).flights[k].won
    ensures var before, after := Play(sys, events), Next(Play(sys, events), Advance(k, env));
      var c := before.flights[k];
      && c.id < |before.world.requests| && before.world.requests[c.id].status == Source(c.kind)
      && after.world == before.world.(
           requests := before.world.requests[c.id := Written(c.kind, before.world.requests[c.id], env.now)])
  {
    EveryInterleavingSound(sys, events);
    WinningStep(Play(sys, events), k, env);
  }

  lemma WinningStep(sys: System, k: nat, env: Env)
    requires Sound(sys) && k < |sys.flights| && !sys.flights[k].won && Progress(sys, k, env).flights[k].won
    ensures var c := sys.flights[k];
      && c.id < |sys.world.requests| && sys.world.requests[c.id].status == Source(c.kind)
      && Progress(sys, k, env).world == sys.world.(
           requests := sys.world.requests[c.id := Written(c.kind, sys.world.requests[c.id], env.now)])
  {
    var c := sys.flights[k];
    assert FlightOk(sys.world, c);
    if c.pc == Saving {
      SaveStep(sys, k, env);
      assert RowOk(sys.world.requests[c.id]);
    } else if c.pc != Reading {
      OtherStopsKeepFlight(sys, k, env);
    }
  }
}
