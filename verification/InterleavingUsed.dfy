/** Used days while calls overlap: what a refund that is cut off at zero takes. */
module InterleavingUsed {
  import opened Wrappers
  import opened CacheKeys
  import opened FixedPoint
  import opened BalanceTable
  import opened Balances
  import opened AuditTrail
  import opened RequestTable
  import opened Requests
  import opened RequestRuns
  import opened Interleaving
  import opened InterleavingSafety
  import opened InterleavingLedger
  import opened InterleavingAudit
  import opened InterleavingLimits
  import opened InterleavingLoss
  import opened Sums
  import B = BalanceRuns

  /** Available and used days together. */
  function Total(s: Store, d: Dims): Option<int> {
    match FiguresFor(s, d)
    case Some(f) => Some(f.available + f.used)
    case None => None
  }

  /** The step is a refund to `d` of more days than are in use, which is cut off. */
  predicate Clamps(sys: System, e: Event, d: Dims) {
    && e.Advance? && e.k < |sys.flights|
    && sys.flights[e.k].pc == Pc.Refunding && OnBalance(sys.flights[e.k], d)
    && FiguresFor(sys.world.store, d).Some?
    && FiguresFor(sys.world.store, d).value.used < sys.flights[e.k].snap.value.days
  }

  /** From `s` to `s'` the total of `d` has grown if days were cut off, and is the same otherwise. */
  ghost predicate TotalStep(s: Store, s': Store, d: Dims, cut: bool) {
    Total(s, d).Some? ==>
      Total(s', d).Some? && if cut then Total(s', d).value > Total(s, d).value else Total(s', d) == Total(s, d)
  }

  lemma KeptTotal(s: Store, s': Store, d: Dims)
    requires KeptAt(s, s', d)
    ensures TotalStep(s, s', d, false)
  {
  }

  lemma DeductionKeepsTotal(s: Store, d': Dims, days: int, d: Dims)
    requires TableOk(s)
    ensures TotalStep(s, UpdateUsedBalance(s, d', days).store, d, false)
  {
    LookupFoldsIf(s.rows, d, d');
    if UpdateUsedBalance(s, d', days).result.Ok? {
      DeductionMoves(s, d', days);
      assert MovedAt(s, UpdateUsedBalance(s, d', days).store, d', Deduct(FiguresFor(s, d').value, days), d);
    }
  }

  lemma DeductionTotal(sys: System, k: nat, env: Env, d: Dims)
    requires Whole(sys) && k < |sys.flights| && sys.flights[k].pc == Deducting
    ensures TotalStep(sys.world.store, Progress(sys, k, env).world.store, d, false)
  {
    assert FlightOk(sys.world, sys.flights[k]);
    DeductionKeepsTotal(sys.world.store, sys.flights[k].snap.value.dims, sys.flights[k].snap.value.days, d);
  }

  /** What a refund to the balance of `d'` does to the total of `d`. */
  lemma RefundChangesTotal(s: Store, d': Dims, days: int, d: Dims)
    requires TableOk(s) && days > 0
    ensures TotalStep(s, RefundBalance(s, d', days).store, d,
      SameFold(d', d) && FiguresFor(s, d).Some? && FiguresFor(s, d).value.used < days)
  {
    LookupFoldsIf(s.rows, d, d');
    if FiguresFor(s, d').Some? {
      assert ChecksHold(s.rows[FindByDimensions(s.rows, d').value]);
      RefundMoves(s, d', days);
      assert MovedAt(s, RefundBalance(s, d', days).store, d', Refund(FiguresFor(s, d').value, days), d);
    }
  }

  lemma LookupFoldsIf(rows: seq<Row>, d: Dims, d': Dims)
    ensures SameFold(d, d') ==> FindByDimensions(rows, d) == FindByDimensions(rows, d')
  {
    if SameFold(d, d') {
      LookupFolds(rows, d, d');
    }
  }

  lemma RefundTotal(sys: System, k: nat, env: Env, d: Dims)
    requires Whole(sys) && k < |sys.flights| && sys.flights[k].pc == Pc.Refunding
    ensures TotalStep(sys.world.store, Progress(sys, k, env).world.store, d, Clamps(sys, Advance(k, env), d))
  {
    assert FlightOk(sys.world, sys.flights[k]);
    RefundChangesTotal(sys.world.store, sys.flights[k].snap.value.dims, sys.flights[k].snap.value.days, d);
  }

  lemma LookupTotal(sys: System, k: nat, env: Env, d: Dims)
    requires Whole(sys) && k < |sys.flights|
    requires sys.flights[k].pc == Refreshing || sys.flights[k].pc == Validating
    ensures TotalStep(sys.world.store, Progress(sys, k, env).world.store, d, false)
  {
    var w, c := sys.world, sys.flights[k];
    assert FlightOk(w, c);
    var r := c.snap.value;
    var op := if c.pc == Refreshing then B.Refreshing(r.dims, env.year)
      else B.Check(r.dims, DaysOf(r), env.year, env.hcm);
    assert Progress(sys, k, env).world.store == B.Step(w.store, B.Event(op, env.now));
    LookupKeepsFigures(w.store, B.Event(op, env.now));
    assert KeptAt(w.store, B.Step(w.store, B.Event(op, env.now)), d);
  }

  lemma ProgressTotal(sys: System, k: nat, env: Env, d: Dims)
    requires Whole(sys) && k < |sys.flights|
    ensures TotalStep(sys.world.store, Progress(sys, k, env).world.store, d, Clamps(sys, Advance(k, env), d))
  {
    assert FlightOk(sys.world, sys.flights[k]);
    match sys.flights[k].pc
    case Refreshing => LookupTotal(sys, k, env, d);
    case Validating => LookupTotal(sys, k, env, d);
    case Deducting => DeductionTotal(sys, k, env, d);
    case Refunding => RefundTotal(sys, k, env, d);
    case Saving => SaveStep(sys, k, env);
    case Reading =>
    case Auditing =>
    case Done =>
  }

  lemma NextTotal(sys: System, e: Event, d: Dims)
    requires Whole(sys) && MayHappen(e)
    ensures TotalStep(sys.world.store, Next(sys, e).world.store, d, Clamps(sys, e, d))
  {
    match e
    case Arrive(kind, id) =>
    case Advance(k, env) =>
      if k < |sys.flights| { ProgressTotal(sys, k, env, d); }
    case Other(call) =>
      if call.Creating? {
        CreationKeepsFigures(sys.world, call.dto, call.env);
      } else {
        LookupKeepsFigures(sys.world.store, call.lookup);
      }
      assert KeptAt(sys.world.store, Do(sys.world, call).store, d);
      KeptTotal(sys.world.store, Do(sys.world, call).store, d);
  }

  // ---- cut-off refunds over a run ------------------------------------------------------------

  ghost predicate ClampAt(w: World, events: seq<Event>, n: nat, d: Dims) {
    n < |events| && Clamps(Play(System(w, []), events[..n]), events[n], d)
  }

  ghost predicate SomeClamp(w: World, events: seq<Event>, d: Dims) {
    exists n :: ClampAt(w, events, n, d)
  }

  lemma ClampAtGrows(w: World, events: seq<Event>, n: nat, d: Dims)
    requires |events| > 0
    ensures n < |events| - 1 ==> (ClampAt(w, events, n, d) <==> ClampAt(w, events[..|events| - 1], n, d))
  {
    if n < |events| - 1 {
      assert events[..|events| - 1][..n] == events[..n];
    }
  }

  lemma SomeClampGrows(w: World, events: seq<Event>, d: Dims)
    requires |events| > 0
    ensures SomeClamp(w, events, d) <==>
      SomeClamp(w, events[..|events| - 1], d) || ClampAt(w, events, |events| - 1, d)
  {
    var earlier := events[..|events| - 1];
    if n :| ClampAt(w, earlier, n, d) {
      ClampAtGrows(w, events, n, d);
    }
    if n :| ClampAt(w, events, n, d) {
      ClampAtGrows(w, events, n, d);
    }
  }

  /** In every interleaving the available and used days of a balance together never shrink, and they
      stay the same if and only if no refund was cut off. */
  lemma {:induction false} TotalKeptIff(w: World, events: seq<Event>, d: Dims)
    requires RowsOk(w) && TableOk(w.store) && forall e :: e in events ==> MayHappen(e)
    ensures TotalStep(w.store, Play(System(w, []), events).world.store, d, SomeClamp(w, events, d))
  {
    if |events| > 0 {
      var earlier, e := events[..|events| - 1], events[|events| - 1];
      assert e in events;
      TotalKeptIff(w, earlier, d);
      PlayKeepsAccount(System(w, []), earlier, d);
      NextTotal(Play(System(w, []), earlier), e, d);
      SomeClampGrows(w, events, d);
    }
  }

  // ---- who refunds ---------------------------------------------------------------------------

  /** Where a cancellation stands tells whether it has refunded, and what it has stranded; an approval
      strands no negative days. */
  predicate RefundsOk(c: Flight) {
    && (c.kind.Approval? ==> c.stranded >= 0)
    && (c.kind.Cancellation? ==>
          && (c.pc == Reading || c.pc == Pc.Refunding ==> c.moves == 0 && c.stranded == 0)
          && (c.pc == Saving || c.won ==> c.moves == 1 && c.stranded == 0)
          && (c.pc == Done && !c.won && c.moves == 0 ==> c.stranded == 0)
          && (c.pc == Done && !c.won && c.moves > 0 ==> c.snap.Some? && c.stranded == c.snap.value.days))
  }

  predicate Cancels(c: Flight, id: nat) {
    c.won && c.kind.Cancellation? && c.id == id
  }

  /** A request that was approved when a cancellation read it and is cancelled now was cancelled by one
      of the calls. */
  predicate WinnerKnown(sys: System, c: Flight) {
    c.kind.Cancellation? && c.snap.Some? && c.id < |sys.world.requests| && sys.world.requests[c.id].status == Cancelled ==>
      exists i :: 0 <= i < |sys.flights| && Cancels(sys.flights[i], c.id)
  }

  ghost predicate RefundsKnown(sys: System) {
    forall k :: 0 <= k < |sys.flights| ==> RefundsOk(sys.flights[k]) && WinnerKnown(sys, sys.flights[k])
  }

  lemma ProgressKeepsRefundsOk(sys: System, k: nat, env: Env)
    requires Sound(sys) && k < |sys.flights| && RefundsOk(sys.flights[k])
    ensures var c, c' := sys.flights[k], Progress(sys, k, env).flights[k];
      && Progress(sys, k, env).flights == sys.flights[k := c']
      && RefundsOk(c') && c'.kind == c.kind && c'.id == c.id && (c.won ==> c'.won) && c'.moves >= c.moves
      && (c'.snap.Some? && c'.kind.Cancellation? ==>
            c.snap.Some? || (c.id < |sys.world.requests| && sys.world.requests[c.id].status == Approved))
  {
    assert FlightOk(sys.world, sys.flights[k]);
    if sys.flights[k].pc == Saving {
      SaveStep(sys, k, env);
    }
  }

  lemma WinnerStays(sys: System, sys': System, k: nat, c': Flight, c: Flight)
    requires k < |sys.flights| && sys'.flights == sys.flights[k := c']
    requires c'.kind == sys.flights[k].kind && c'.id == sys.flights[k].id && (sys.flights[k].won ==> c'.won)
    requires WinnerKnown(sys, c) && |sys.world.requests| <= |sys'.world.requests|
    requires c.id < |sys.world.requests| && sys'.world.requests[c.id].status == Cancelled ==>
      sys.world.requests[c.id].status == Cancelled
    requires c.snap.Some? ==> c.id < |sys.world.requests|
    ensures WinnerKnown(sys', c)
  {
    if c.kind.Cancellation? && c.snap.Some? && sys'.world.requests[c.id].status == Cancelled {
      var i :| 0 <= i < |sys.flights| && Cancels(sys.flights[i], c.id);
      assert Cancels(sys'.flights[i], c.id);
    }
  }

  lemma ProgressKeepsWinner(sys: System, k: nat, env: Env, c: Flight)
    requires Sound(sys) && k < |sys.flights| && RefundsOk(sys.flights[k])
    requires WinnerKnown(sys, c) && (c.snap.Some? ==> c.id < |sys.world.requests|)
    ensures WinnerKnown(Progress(sys, k, env), c)
  {
    var sys' := Progress(sys, k, env);
    assert FlightOk(sys.world, sys.flights[k]);
    ProgressKeepsRefundsOk(sys, k, env);
    if sys.flights[k].pc == Saving {
      SaveStep(sys, k, env);
      if sys.flights[k].kind.Cancellation? && sys'.flights[k].won && sys.flights[k].id == c.id {
        assert Cancels(sys'.flights[k], c.id);
      } else {
        WinnerStays(sys, sys', k, sys'.flights[k], c);
      }
    } else {
      WinnerStays(sys, sys', k, sys'.flights[k], c);
    }
  }

  lemma ProgressKeepsRefundsKnown(sys: System, k: nat, env: Env)
    requires Sound(sys) && RefundsKnown(sys) && k < |sys.flights|
    ensures RefundsKnown(Progress(sys, k, env))
  {
    var sys' := Progress(sys, k, env);
    ProgressKeepsRefundsOk(sys, k, env);
    forall j | 0 <= j < |sys'.flights|
      ensures RefundsOk(sys'.flights[j]) && WinnerKnown(sys', sys'.flights[j])
    {
      assert FlightOk(sys.world, sys.flights[j]) && RefundsOk(sys.flights[j]) && WinnerKnown(sys, sys.flights[j]);
      ProgressKeepsWinner(sys, k, env, sys.flights[j]);
      if j == k {
        OwnWinner(sys, k, env);
      }
    }
  }

  /** The same for the call that moves: it reads only what is approved. */
  lemma OwnWinner(sys: System, k: nat, env: Env)
    requires Sound(sys) && k < |sys.flights| && RefundsOk(sys.flights[k])
    requires WinnerKnown(Progress(sys, k, env), sys.flights[k])
    ensures k < |Progress(sys, k, env).flights| && WinnerKnown(Progress(sys, k, env), Progress(sys, k, env).flights[k])
  {
    assert FlightOk(sys.world, sys.flights[k]);
    ProgressKeepsRefundsOk(sys, k, env);
    if sys.flights[k].pc == Saving {
      SaveStep(sys, k, env);
    }
  }

  lemma OtherKeepsRefundsKnown(sys: System, call: Call)
    requires Sound(sys) && RefundsKnown(sys) && CanHappen(Other(call))
    ensures RefundsKnown(Next(sys, Other(call)))
  {
    var sys' := Next(sys, Other(call));
    OtherKeepsRows(sys.world, call);
    forall j | 0 <= j < |sys'.flights|
      ensures RefundsOk(sys'.flights[j]) && WinnerKnown(sys', sys'.flights[j])
    {
      assert FlightOk(sys.world, sys.flights[j]) && RefundsOk(sys.flights[j]) && WinnerKnown(sys, sys.flights[j]);
      if sys.flights[j].snap.Some? {
        assert sys'.world.requests[sys.flights[j].id] == sys.world.requests[sys.flights[j].id];
      }
    }
  }

  lemma ArrivalKeepsRefundsKnown(sys: System, kind: Kind, id: nat)
    requires RefundsKnown(sys)
    ensures RefundsKnown(sys.(flights := sys.flights + [Launch(kind, id)]))
  {
    var sys' := sys.(flights := sys.flights + [Launch(kind, id)]);
    forall j | 0 <= j < |sys'.flights|
      ensures RefundsOk(sys'.flights[j]) && WinnerKnown(sys', sys'.flights[j])
    {
      if j < |sys.flights| && sys'.flights[j].kind.Cancellation? && sys'.flights[j].snap.Some? {
        assert WinnerKnown(sys, sys.flights[j]) && RefundsOk(sys.flights[j]);
        if sys.flights[j].id < |sys.world.requests| && sys.world.requests[sys.flights[j].id].status == Cancelled {
          var i :| 0 <= i < |sys.flights| && Cancels(sys.flights[i], sys.flights[j].id);
          assert Cancels(sys'.flights[i], sys.flights[j].id);
        }
      }
    }
  }

  lemma {:induction false} PlayKeepsRefundsKnown(w: World, events: seq<Event>)
    requires RowsOk(w) && forall e :: e in events ==> CanHappen(e)
    ensures RefundsKnown(Play(System(w, []), events))
  {
    if |events| > 0 {
      var earlier, e := events[..|events| - 1], events[|events| - 1];
      var sys := Play(System(w, []), earlier);
      assert e in events;
      PlayKeepsRefundsKnown(w, earlier);
      NoFlightsSound(w);
      EveryInterleavingSound(System(w, []), earlier);
      match e
      case Arrive(kind, id) => ArrivalKeepsRefundsKnown(sys, kind, id);
      case Advance(k, env) =>
        if k < |sys.flights| { ProgressKeepsRefundsKnown(sys, k, env); }
      case Other(call) => OtherKeepsRefundsKnown(sys, call);
    }
  }

  // ---- one refund for each request -----------------------------------------------------------

  predicate Refunded(c: Flight) {
    c.kind.Cancellation? && c.moves > 0
  }

  /** No two calls have refunded the same request. */
  predicate NoDoubleRefund(flights: seq<Flight>) {
    forall i, j :: 0 <= i < j < |flights| && Refunded(flights[i]) && Refunded(flights[j]) ==> flights[i].id != flights[j].id
  }

  function RefundWeight(d: Dims): Flight -> int {
    (c: Flight) => if OnBalance(c, d) && c.kind.Cancellation? then Moved(c) + c.stranded else 0
  }

  predicate Backed(c: Flight, requests: seq<Request>, d: Dims) {
    && c.id < |requests| && requests[c.id].status == Approved && SameFold(requests[c.id].dims, d)
    && RefundWeight(d)(c) == requests[c.id].days
  }

  ghost predicate AllBacked(flights: seq<Flight>, requests: seq<Request>, d: Dims) {
    && (forall k :: 0 <= k < |flights| && RefundWeight(d)(flights[k]) != 0 ==> Backed(flights[k], requests, d))
    && (forall i, j :: 0 <= i < j < |flights| && RefundWeight(d)(flights[i]) != 0 && RefundWeight(d)(flights[j]) != 0 ==>
          flights[i].id != flights[j].id)
  }

  /** Refunds of different approved requests add up to no more than what is approved. */
  lemma {:induction false} RefundsAreCovered(flights: seq<Flight>, requests: seq<Request>, d: Dims)
    requires AllBacked(flights, requests, d)
    requires forall k :: 0 <= k < |requests| ==> 0 <= ApprovedWeight(d)(requests[k])
    ensures SumOf(RefundWeight(d), flights) <= SumOf(ApprovedWeight(d), requests)
    decreases |flights|
  {
    if |flights| == 0 {
      SumNonNegative(ApprovedWeight(d), requests);
    } else if RefundWeight(d)(flights[0]) == 0 {
      RestBacked(flights, requests, requests, d);
      RefundsAreCovered(flights[1..], requests, d);
    } else {
      var c := flights[0];
      assert Backed(c, requests, d);
      var rest := requests[c.id := requests[c.id].(status := Cancelled)];
      SumUpdate(ApprovedWeight(d), requests, c.id, rest[c.id]);
      RestBacked(flights, requests, rest, d);
      RefundsAreCovered(flights[1..], rest, d);
    }
  }

  lemma RestBacked(flights: seq<Flight>, requests: seq<Request>, rest: seq<Request>, d: Dims)
    requires |flights| > 0 && AllBacked(flights, requests, d) && |rest| == |requests|
    requires rest == requests || (RefundWeight(d)(flights[0]) != 0 && flights[0].id < |requests|
      && rest == requests[flights[0].id := rest[flights[0].id]])
    ensures AllBacked(flights[1..], rest, d)
  {
    forall k | 0 <= k < |flights[1..]| && RefundWeight(d)(flights[1..][k]) != 0
      ensures Backed(flights[1..][k], rest, d)
    {
      assert Backed(flights[k + 1], requests, d);
    }
  }

  lemma WinnerIsAnother(sys: System, k: nat)
    requires Sound(sys) && RefundsKnown(sys) && NoDoubleRefund(sys.flights)
    requires k < |sys.flights| && Refunded(sys.flights[k]) && !sys.flights[k].won && sys.flights[k].snap.Some?
    ensures sys.flights[k].id < |sys.world.requests| && sys.world.requests[sys.flights[k].id].status == Approved
  {
    var c := sys.flights[k];
    assert FlightOk(sys.world, c) && RefundsOk(c) && WinnerKnown(sys, c);
    if sys.world.requests[c.id].status == Cancelled {
      var i :| 0 <= i < |sys.flights| && Cancels(sys.flights[i], c.id);
      assert RefundsOk(sys.flights[i]);
      var a, b := if i < k then i else k, if i < k then k else i;
      assert Refunded(sys.flights[a]) && Refunded(sys.flights[b]);
    }
    StillApproved(sys, c);
  }

  /** A row that was read as approved is approved or cancelled. */
  lemma StillApproved(sys: System, c: Flight)
    requires Sound(sys) && FlightOk(sys.world, c) && c.kind.Cancellation? && c.snap.Some?
    ensures c.id < |sys.world.requests|
    ensures sys.world.requests[c.id].status == Approved || sys.world.requests[c.id].status == Cancelled
  {
  }

  lemma WeightMeansRefunded(w: World, c: Flight, d: Dims)
    requires FlightOk(w, c) && RefundsOk(c) && RefundWeight(d)(c) != 0
    ensures Refunded(c) && !c.won && OnBalance(c, d) && RefundWeight(d)(c) == c.snap.value.days
  {
  }

  lemma WeightsBacked(sys: System, d: Dims)
    requires Sound(sys) && RefundsKnown(sys) && NoDoubleRefund(sys.flights)
    ensures AllBacked(sys.flights, sys.world.requests, d)
  {
    forall k | 0 <= k < |sys.flights| && RefundWeight(d)(sys.flights[k]) != 0
      ensures Refunded(sys.flights[k]) && Backed(sys.flights[k], sys.world.requests, d)
    {
      assert FlightOk(sys.world, sys.flights[k]) && RefundsOk(sys.flights[k]);
      WeightMeansRefunded(sys.world, sys.flights[k], d);
      WinnerIsAnother(sys, k);
    }
  }

  // ---- no refund is cut off ------------------------------------------------------------------

  lemma {:induction false} OwedAtLeast(w: World, flights: seq<Flight>, d: Dims)
    requires forall k :: 0 <= k < |flights| ==> FlightOk(w, flights[k]) && RefundsOk(flights[k])
    ensures SumOf(Owed(d), flights) + SumOf(RefundWeight(d), flights) >= 0
  {
    if |flights| > 0 {
      OwedAtLeast(w, flights[1..], d);
      FlightOwesAtLeast(w, flights[0], d);
    }
  }

  lemma FlightOwesAtLeast(w: World, c: Flight, d: Dims)
    requires FlightOk(w, c) && RefundsOk(c)
    ensures Owed(d)(c) + RefundWeight(d)(c) >= 0
  {
  }

  /** The used days are what they were at the start, plus what is approved since and what is owed. */
  lemma UsedFormula(w: World, sys: System, d: Dims)
    requires FiguresFor(w.store, d).Some? && AccountKept(System(w, []), sys, d) && TotalStep(w.store, sys.world.store, d, false)
    ensures FiguresFor(sys.world.store, d).Some?
    ensures FiguresFor(sys.world.store, d).value.used - ApprovedDays(sys.world.requests, d) - SumOf(Owed(d), sys.flights)
         == FiguresFor(w.store, d).value.used - ApprovedDays(w.requests, d)
  {
  }

  /** What a refund does to its call. */
  lemma RefundStep(sys: System, k: nat, env: Env, d: Dims)
    requires Whole(sys) && k < |sys.flights| && sys.flights[k].pc == Pc.Refunding && OnBalance(sys.flights[k], d)
    requires FiguresFor(sys.world.store, d).Some?
    ensures Progress(sys, k, env).flights ==
      sys.flights[k := sys.flights[k].(pc := Saving, moves := sys.flights[k].moves + 1)]
    ensures Progress(sys, k, env).world.requests == sys.world.requests
  {
    assert FlightOk(sys.world, sys.flights[k]);
    var s, r := sys.world.store, sys.flights[k].snap.value;
    LookupFolds(s.rows, d, r.dims);
    assert ChecksHold(s.rows[FindByDimensions(s.rows, r.dims).value]);
  }

  /** A refund that makes no request refunded twice has its days among the approved ones that no other
      refund takes. */
  lemma RefundIsBacked(sys: System, k: nat, env: Env, d: Dims)
    requires Whole(sys) && RefundsKnown(sys) && k < |sys.flights|
    requires sys.flights[k].pc == Pc.Refunding && OnBalance(sys.flights[k], d) && FiguresFor(sys.world.store, d).Some?
    requires NoDoubleRefund(Progress(sys, k, env).flights)
    ensures SumOf(RefundWeight(d), sys.flights) + sys.flights[k].snap.value.days <= ApprovedDays(sys.world.requests, d)
  {
    var sys' := Progress(sys, k, env);
    assert FlightOk(sys.world, sys.flights[k]) && RefundsOk(sys.flights[k]);
    RefundStep(sys, k, env, d);
    ProgressKeepsSound(sys, k, env);
    ProgressKeepsRefundsKnown(sys, k, env);
    WeightsBacked(sys', d);
    forall i | 0 <= i < |sys.world.requests|
      ensures 0 <= ApprovedWeight(d)(sys.world.requests[i])
    {
      assert RowOk(sys.world.requests[i]);
    }
    RefundsAreCovered(sys'.flights, sys.world.requests, d);
    SumUpdate(RefundWeight(d), sys.flights, k, sys'.flights[k]);
  }

  lemma SingleRefundIsNotCut(w: World, sys: System, e: Event, d: Dims)
    requires Whole(sys) && RefundsKnown(sys) && NoDoubleRefund(Next(sys, e).flights)
    requires FiguresFor(w.store, d).Some? && Covered(w, d)
    requires AccountKept(System(w, []), sys, d) && TotalStep(w.store, sys.world.store, d, false)
    ensures !Clamps(sys, e, d)
  {
    if Clamps(sys, e, d) {
      UsedFormula(w, sys, d);
      RefundIsBacked(sys, e.k, e.env, d);
      forall k | 0 <= k < |sys.flights|
        ensures FlightOk(sys.world, sys.flights[k]) && RefundsOk(sys.flights[k])
      {
        assert RefundsOk(sys.flights[k]);
      }
      OwedAtLeast(sys.world, sys.flights, d);
    }
  }

  lemma NoDoubleRefundBefore(sys: System, e: Event)
    requires Sound(sys) && RefundsKnown(sys) && NoDoubleRefund(Next(sys, e).flights)
    ensures NoDoubleRefund(sys.flights)
  {
    forall i, j | 0 <= i < j < |sys.flights| && Refunded(sys.flights[i]) && Refunded(sys.flights[j])
      ensures sys.flights[i].id != sys.flights[j].id
    {
      StaysRefunded(sys, e, i);
      StaysRefunded(sys, e, j);
    }
  }

  lemma StaysRefunded(sys: System, e: Event, i: nat)
    requires Sound(sys) && RefundsKnown(sys) && i < |sys.flights| && Refunded(sys.flights[i])
    ensures i < |Next(sys, e).flights| && Refunded(Next(sys, e).flights[i]) && Next(sys, e).flights[i].id == sys.flights[i].id
  {
    if e.Advance? && e.k < |sys.flights| {
      assert RefundsOk(sys.flights[e.k]);
      ProgressKeepsRefundsOk(sys, e.k, e.env);
    }
  }

  lemma LedgerRowsOk(w: World)
    requires LedgerOk(w)
    ensures RowsOk(w)
  {
    forall id | 0 <= id < |w.requests|
      ensures RowOk(w.requests[id])
    {
      assert RequestOk(w.store, w.requests[id]);
    }
  }

  /** In every interleaving a refund is cut off only if some request has been refunded by two calls. */
  lemma {:induction false} ClampNeedsDoubleRefund(w: World, events: seq<Event>, d: Dims)
    requires LedgerOk(w) && FiguresFor(w.store, d).Some? && forall e :: e in events ==> MayHappen(e)
    requires NoDoubleRefund(Play(System(w, []), events).flights)
    ensures !SomeClamp(w, events, d)
  {
    if |events| > 0 {
      var earlier, e := events[..|events| - 1], events[|events| - 1];
      var sys := Play(System(w, []), earlier);
      assert e in events;
      LedgerRowsOk(w);
      PlayKeepsAccount(System(w, []), earlier, d);
      PlayKeepsRefundsKnown(w, earlier);
      NoDoubleRefundBefore(sys, e);
      ClampNeedsDoubleRefund(w, earlier, d);
      TotalKeptIff(w, earlier, d);
      assert Covered(w, d);
      SingleRefundIsNotCut(w, sys, e, d);
      SomeClampGrows(w, events, d);
    }
  }

  /** Two calls are enough, and it can happen while every save so far has gone through: of two
      cancellations that have read an approved request, one refunds and saves before the other
      refunds. */
  lemma DoubleRefundIsCut(w: World, id: nat, env: Env) returns (events: seq<Event>)
    requires id < |w.requests| && w.requests[id].status == Approved && RowOk(w.requests[id]) && TableOk(w.store)
    requires FiguresFor(w.store, w.requests[id].dims).Some?
    requires FiguresFor(w.store, w.requests[id].dims).value.used < 2 * w.requests[id].days
    ensures OnlyOn(events, id) && NothingStranded(Play(System(w, []), events).flights)
    ensures Clamps(Play(System(w, []), events), Advance(1, env), w.requests[id].dims)
  {
    var start, r := System(w, []), w.requests[id];
    events := BothCancellersRead(w, id, env);
    OneRefundsAndSaves(w, id, env);
    events := Advances(start, events, id, 0, env);
    events := Advances(start, events, id, 0, env);
  }

  lemma OneRefundsAndSaves(w: World, id: nat, env: Env)
    requires id < |w.requests| && RowOk(w.requests[id]) && TableOk(w.store)
    requires FiguresFor(w.store, w.requests[id].dims).Some?
    requires FiguresFor(w.store, w.requests[id].dims).value.used < 2 * w.requests[id].days
    ensures var r := w.requests[id];
      var sys1 := Progress(System(w, [Canceller(r, id), Canceller(r, id)]), 0, env);
      && |sys1.flights| == 2
      && var sys2 := Progress(sys1, 0, env);
         NothingStranded(sys2.flights) && Clamps(sys2, Advance(1, env), r.dims)
  {
    var r := w.requests[id];
    var s1 := RefundBalance(w.store, r.dims, r.days).store;
    RefundGoesThrough(w.store, r.dims, r.days);
    RefundMoves(w.store, r.dims, r.days);
    assert MovedAt(w.store, s1, r.dims, Refund(FiguresFor(w.store, r.dims).value, r.days), r.dims);
    var sys1 := Progress(System(w, [Canceller(r, id), Canceller(r, id)]), 0, env);
    assert sys1 == System(w.(store := s1), [Refunder(r, id), Canceller(r, id)]);
    assert Progress(sys1, 0, env).flights == [Refunder(r, id).(pc := Auditing, won := true), Canceller(r, id)];
    assert Progress(sys1, 0, env).world.store == s1;
  }

  // ---- calls on one request that do not overlap ----------------------------------------------

  lemma OrderlyRefundsOnce(sys: System)
    requires Sound(sys) && Orderly(sys) && RefundsKnown(sys)
    ensures NoDoubleRefund(sys.flights)
  {
    forall i, j | 0 <= i < j < |sys.flights| && Refunded(sys.flights[i]) && Refunded(sys.flights[j])
      ensures sys.flights[i].id != sys.flights[j].id
    {
      OrderlyRefund(sys, i);
      OrderlyRefund(sys, j);
    }
  }

  /** A call that has refunded is about to save the current row, or has won. */
  lemma OrderlyRefund(sys: System, k: nat)
    requires Sound(sys) && Orderly(sys) && RefundsKnown(sys) && k < |sys.flights| && Refunded(sys.flights[k])
    ensures var c := sys.flights[k];
      && c.id < |sys.world.requests|
      && (c.won ==> sys.world.requests[c.id].status == Cancelled)
      && (!c.won ==> Live(c) && sys.world.requests[c.id].status == Approved)
  {
    var c := sys.flights[k];
    assert FlightOk(sys.world, c) && RefundsOk(c) && Current(sys.world, c);
  }

  /** If calls on the same request never overlap, then however calls on different requests overlap no
      refund is cut off, and at rest the ledger theorem of the serialized runs holds: exactly the newly
      approved days have gone from available to used, and used covers what is approved. */
  lemma NoOverlapExactLedger(w: World, events: seq<Event>, d: Dims, f: Figures)
    requires LedgerOk(w) && FiguresFor(w.store, d) == Some(f)
    requires forall e :: e in events ==> MayHappen(e)
    requires OneAtATime(System(w, []), events)
    ensures !SomeClamp(w, events, d)
    ensures Quiet(Play(System(w, []), events).flights) ==> DaysMoved(w, Play(System(w, []), events).world, d, f)
  {
    var sys' := Play(System(w, []), events);
    LedgerRowsOk(w);
    PlayKeepsOrder(w, events);
    PlayKeepsRefundsKnown(w, events);
    PlayKeepsAccount(System(w, []), events, d);
    OrderlyRefundsOnce(sys');
    ClampNeedsDoubleRefund(w, events, d);
    TotalKeptIff(w, events, d);
    assert Covered(w, d);
    if Quiet(sys'.flights) {
      QuietOwesNothing(sys', d);
      ExactAtRest(w, sys', d, f);
    }
  }

  lemma QuietOwesNothing(sys: System, d: Dims)
    requires Quiet(sys.flights) && Orderly(sys)
    ensures SumOf(Owed(d), sys.flights) == 0
  {
    forall k | 0 <= k < |sys.flights|
      ensures Owed(d)(sys.flights[k]) == 0
    {
      assert Current(sys.world, sys.flights[k]);
    }
    SumZero(Owed(d), sys.flights);
  }

  lemma ExactAtRest(w: World, sys: System, d: Dims, f: Figures)
    requires FiguresFor(w.store, d) == Some(f) && Covered(w, d) && TableOk(sys.world.store)
    requires AccountKept(System(w, []), sys, d) && TotalStep(w.store, sys.world.store, d, false)
    requires SumOf(Owed(d), sys.flights) == 0
    ensures DaysMoved(w, sys.world, d, f)
  {
    UsedFormula(w, sys, d);
    assert ChecksHold(RowFor(sys.world.store.rows, d).value);
  }
}
