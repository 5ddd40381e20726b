/** Approve, reject and cancel calls in flight at the same time. Each call stops at every `await`;
    between two stops it runs alone. A call to the balance service is one stop. */
module Interleaving {
  import opened Wrappers
  import opened Failures
  import opened Balances
  import opened AuditTrail
  import opened RequestTable
  import opened Requests
  import opened RequestRuns

  datatype Kind = Approval | Rejection(reason: string) | Cancellation(why: Option<string>)

  /** What the call waits for next. */
  datatype Pc = Reading | Refreshing | Validating | Deducting | Refunding | Saving | Auditing | Done

  /** One call: the row it read, the pass of its retry loop, and the days its failed saves left
      moved (`stranded`). `won` says that its save went through. */
  datatype Flight = Flight(
    kind: Kind,
    id: nat,
    pc: Pc,
    attempt: nat,
    snap: Option<Request>,
    moves: nat,
    stranded: int,
    won: bool,
    failure: Option<Failure>)

  datatype System = System(world: World, flights: seq<Flight>)

  datatype Event =
    | Arrive(kind: Kind, id: nat)
    | Advance(k: nat, env: Env)
    | Other(call: Call)

  /** The status a call of this kind starts from, and the one it writes. */
  function Source(kind: Kind): Status {
    if kind.Cancellation? then Approved else Pending
  }

  function Target(kind: Kind): Status {
    match kind
    case Approval => Approved
    case Rejection(_) => Rejected
    case Cancellation(_) => Cancelled
  }

  function Marked(kind: Kind, r: Request, now: int): Request {
    match kind
    case Approval => MarkApproved(r, now)
    case Rejection(reason) => MarkRejected(r, reason)
    case Cancellation(why) => MarkCancelled(r, why)
  }

  function EntryOf(kind: Kind, id: nat): AuditEntry {
    RequestChange(id, if kind.Approval? then Sync else Update, Some(Source(kind)), Target(kind))
  }

  function Launch(kind: Kind, id: nat): Flight {
    Flight(kind, id, Reading, 1, None, 0, 0, false, None)
  }

  function Fail(c: Flight, f: Failure): Flight {
    c.(pc := Done, failure := Some(f))
  }

  /** The continuation of one balance call. */
  function After<T>(sys: System, k: nat, reply: Reply<T>, next: Flight): System
    requires k < |sys.flights|
  {
    var c := if reply.result.Ok? then next else Fail(sys.flights[k], reply.result.error);
    System(sys.world.(store := reply.store), sys.flights[k := c])
  }

  function Read(w: World, c: Flight): Flight {
    if c.id >= |w.requests| then Fail(c, NotFound)
    else if w.requests[c.id].status != Source(c.kind) then Fail(c, InvalidTransition)
    else
      c.(snap := Some(w.requests[c.id]),
         pc := match c.kind
           case Approval => Refreshing
           case Rejection(_) => Saving
           case Cancellation(_) => Pc.Refunding)
  }

  /** Days this call has moved and not yet settled by a save. */
  function Moved(c: Flight): int {
    if c.pc == Saving && c.snap.Some? && !c.kind.Rejection? then c.snap.value.days else 0
  }

  /** A save that fails strands the days; an approval that lost its version race tries again. */
  function SaveFailed(c: Flight, f: Failure): Flight {
    var c' := c.(stranded := c.stranded + Moved(c));
    if c.kind.Approval? && f == VersionMismatch then
      if c.attempt >= MAX_ATTEMPTS then Fail(c', RetriesExhausted)
      else c'.(pc := Reading, attempt := c.attempt + 1)
    else Fail(c', f)
  }

  function Progress(sys: System, k: nat, env: Env): System
    requires k < |sys.flights|
  {
    var w, c := sys.world, sys.flights[k];
    if c.pc == Reading then sys.(flights := sys.flights[k := Read(w, c)])
    else if c.pc == Done || c.snap.None? || c.id >= |w.requests| then sys
    else
      var r := c.snap.value;
      match c.pc
      case Refreshing => After(sys, k, RefreshBalance(w.store, r.dims, env.year, env.now), c.(pc := Validating))
      case Validating =>
        After(sys, k, ValidateBalance(w.store, r.dims, DaysOf(r), env.year, env.hcm, env.now), c.(pc := Deducting))
      case Deducting =>
        After(sys, k, UpdateUsedBalance(w.store, r.dims, r.days), c.(pc := Saving, moves := c.moves + 1))
      case Refunding =>
        After(sys, k, RefundBalance(w.store, r.dims, r.days), c.(pc := Saving, moves := c.moves + 1))
      case Saving =>
        (match SaveRequest(w.requests, c.id, Marked(c.kind, r, env.now))
         case Err(f) => sys.(flights := sys.flights[k := SaveFailed(c, f)])
         case Ok(saved) => System(w.(requests := saved), sys.flights[k := c.(pc := Auditing, won := true)]))
      case Auditing =>
        if env.auditWritable then
          System(w.(audit := w.audit + [EntryOf(c.kind, c.id)]), sys.flights[k := c.(pc := Done)])
        else sys.(flights := sys.flights[k := Fail(c, AuditUnavailable)])
  }

  /** Creations and balance operations of any kind, reconciliations among them, can happen at any
      time, each as one step. */
  predicate CanHappen(e: Event) {
    e.Other? ==> e.call.Creating? || e.call.Looking?
  }

  /** The same, but the balance operations are reads and refreshes. */
  predicate MayHappen(e: Event) {
    CanHappen(e) && (e.Other? ==> Allowed(e.call))
  }

  function Next(sys: System, e: Event): System {
    match e
    case Arrive(kind, id) => sys.(flights := sys.flights + [Launch(kind, id)])
    case Advance(k, env) => if k < |sys.flights| then Progress(sys, k, env) else sys
    case Other(call) => sys.(world := Do(sys.world, call))
  }

  function Play(sys: System, events: seq<Event>): System {
    if |events| == 0 then sys
    else Next(Play(sys, events[..|events| - 1]), events[|events| - 1])
  }
}
