/** The lifecycle of a time-off request: create, approve, reject, cancel. */
module Requests {
  import opened Wrappers
  import opened Failures
  import opened CacheKeys
  import opened FixedPoint
  import opened BalanceTable
  import opened Balances
  import opened AuditTrail
  import opened RequestTable

  const MAX_ATTEMPTS: nat := 3

  datatype World = World(store: Store, requests: seq<Request>, audit: seq<AuditEntry>)

  /** What one call meets outside the stores: the clock, the year, the HCM and the audit log. */
  datatype Env = Env(now: int, year: int, hcm: Hcm, auditWritable: bool)

  datatype CreateDto = CreateDto(dims: Dims, startDate: int, endDate: int, days: real)

  datatype Answer = Answer(world: World, result: Result<Request, Failure>)

  function Failed(w: World, store: Store, f: Failure): Answer {
    Answer(w.(store := store), Err(f))
  }

  /** The last step of every call: the row is saved, the audit entry follows. */
  function Audited(w: World, entry: AuditEntry, saved: Request, writable: bool): Answer {
    if writable then Answer(w.(audit := w.audit + [entry]), Ok(saved)) else Answer(w, Err(AuditUnavailable))
  }

  function NewRequest(dto: CreateDto, balance: Row, now: int): Request {
    Request(dto.dims, dto.startDate, dto.endDate, ToFixed2(dto.days), Pending,
            Snapshot(balance.figures, balance.carryover, balance.version, now),
            now, None, None, false, 1)
  }

  function CreateRequest(w: World, dto: CreateDto, env: Env): Answer {
    var dims := ValidateDimensions(w.store, dto.dims, env.year, env.hcm, env.now);
    if dims.result.Err? then Failed(w, dims.store, dims.result.error)
    else
      var enough := ValidateBalance(dims.store, dto.dims, dto.days, env.year, env.hcm, env.now);
      if enough.result.Err? then Failed(w, enough.store, enough.result.error)
      else
        var balance := GetBalance(enough.store, dto.dims, env.year, env.hcm, env.now);
        if balance.result.Err? then Failed(w, balance.store, balance.result.error)
        else
          match InsertRequest(w.requests, NewRequest(dto, balance.result.value, env.now))
          case Err(f) => Failed(w, balance.store, f)
          case Ok(requests) =>
            Audited(World(balance.store, requests, w.audit),
                    RequestChange(|w.requests|, Create, None, Pending),
                    requests[|w.requests|], env.auditWritable)
  }

  // ---- approval ------------------------------------------------------------------------------

  function MarkApproved(r: Request, now: int): Request {
    r.(status := Approved, approvedAt := Some(now), hcmSynced := true)
  }

  function DaysOf(r: Request): real {
    r.days as real / 100.0
  }

  /** One pass of the loop body; `rival` is what happens to the row before this call saves it. */
  function ApproveOnce(w: World, id: nat, env: Env, rival: Option<Status>): Answer {
    if id >= |w.requests| then Answer(w, Err(NotFound))
    else
      var r := w.requests[id];
      if r.status != Pending then Answer(w, Err(InvalidTransition))
      else
        var current := RefreshBalance(w.store, r.dims, env.year, env.now);
        if current.result.Err? then Failed(w, current.store, current.result.error)
        else
          var enough := ValidateBalance(current.store, r.dims, DaysOf(r), env.year, env.hcm, env.now);
          if enough.result.Err? then Failed(w, enough.store, enough.result.error)
          else
            var deducted := UpdateUsedBalance(enough.store, r.dims, r.days);
            if deducted.result.Err? then Failed(w, deducted.store, deducted.result.error)
            else
              var requests := Overtaken(w.requests, id, rival);
              match SaveRequest(requests, id, MarkApproved(r, env.now))
              case Err(f) => Answer(World(deducted.store, requests, w.audit), Err(f))
              case Ok(saved) =>
                Audited(World(deducted.store, saved, w.audit), RequestChange(id, Sync, Some(Pending), Approved),
                        saved[id], env.auditWritable)
  }

  function RivalAt(rivals: seq<Option<Status>>, attempt: nat): Option<Status> {
    if attempt < |rivals| then rivals[attempt] else None
  }

  /** The retry loop from its `attempt`-th pass on. */
  function ApproveFrom(w: World, id: nat, env: Env, rivals: seq<Option<Status>>, attempt: nat): Answer
    decreases MAX_ATTEMPTS - attempt
  {
    if attempt >= MAX_ATTEMPTS then Answer(w, Err(RetriesExhausted))
    else
      var once := ApproveOnce(w, id, env, RivalAt(rivals, attempt));
      if once.result == Err(VersionMismatch) then ApproveFrom(once.world, id, env, rivals, attempt + 1) else once
  }

  function ApproveRequest(w: World, id: nat, env: Env, rivals: seq<Option<Status>>): Answer {
    ApproveFrom(w, id, env, rivals, 0)
  }

  // ---- rejection and cancellation ------------------------------------------------------------

  function MarkRejected(r: Request, reason: string): Request {
    r.(status := Rejected, rejectionReason := Some(reason), hcmSynced := true)
  }

  function RejectRequest(w: World, id: nat, reason: string, env: Env): Answer {
    if id >= |w.requests| then Answer(w, Err(NotFound))
    else
      var r := w.requests[id];
      if r.status != Pending then Answer(w, Err(InvalidTransition))
      else
        match SaveRequest(w.requests, id, MarkRejected(r, reason))
        case Err(f) => Answer(w, Err(f))
        case Ok(saved) =>
          Audited(w.(requests := saved), RequestChange(id, Update, Some(Pending), Rejected), saved[id], env.auditWritable)
  }

  /** An empty reason counts as none. */
  function CancelReason(reason: Option<string>): string {
    if reason.None? || reason.value == "" then "Request cancelled" else reason.value
  }

  function MarkCancelled(r: Request, reason: Option<string>): Request {
    r.(status := Cancelled, rejectionReason := Some(CancelReason(reason)), hcmSynced := true)
  }

  function CancelRequest(w: World, id: nat, reason: Option<string>, env: Env): Answer {
    if id >= |w.requests| then Answer(w, Err(NotFound))
    else
      var r := w.requests[id];
      if r.status != Approved then Answer(w, Err(InvalidTransition))
      else
        var refunded := RefundBalance(w.store, r.dims, r.days);
        if refunded.result.Err? then Failed(w, refunded.store, refunded.result.error)
        else
          match SaveRequest(w.requests, id, MarkCancelled(r, reason))
          case Err(f) => Failed(w, refunded.store, f)
          case Ok(saved) =>
            Audited(World(refunded.store, saved, w.audit), RequestChange(id, Update, Some(Approved), Cancelled),
                    saved[id], env.auditWritable)
  }

  // ---- the service ---------------------------------------------------------------------------

  class TimeOffRequestService {
    const repository: RequestsRepository
    const balances: BalancesService
    const audit: AuditService

    constructor (repository: RequestsRepository, balances: BalancesService, audit: AuditService)
      ensures this.repository == repository && this.balances == balances && this.audit == audit
    {
      this.repository := repository;
      this.balances := balances;
      this.audit := audit;
    }

    ghost function View(): World
      reads repository, balances, balances.repository, balances.cacheService, audit
    {
      World(balances.View(), repository.requests, audit.entries)
    }

    method Create(dto: CreateDto, env: Env) returns (result: Result<Request, Failure>)
      modifies repository, balances.repository, balances.cacheService, audit
      ensures Answer(View(), result) == CreateRequest(old(View()), dto, env)
    {
      var dims := balances.ValidateDims(dto.dims, env.year, env.hcm, env.now);
      if dims.Err? {
        return Err(dims.error);
      }
      var enough := balances.Validate(dto.dims, dto.days, env.year, env.hcm, env.now);
      if enough.Err? {
        return Err(enough.error);
      }
      var balance := balances.Get(dto.dims, env.year, env.hcm, env.now);
      if balance.Err? {
        return Err(balance.error);
      }
      var request := NewRequest(dto, balance.value, env.now);
      var id := repository.Insert(request);
      if id.Err? {
        return Err(id.error);
      }
      var failure := audit.LogChange(RequestChange(id.value, Action.Create, None, Pending), env.auditWritable);
      if failure.Some? {
        return Err(failure.value);
      }
      return Ok(repository.requests[id.value]);
    }

    method Approve(id: nat, env: Env, rivals: seq<Option<Status>>) returns (result: Result<Request, Failure>)
      modifies repository, balances.repository, balances.cacheService, audit
      ensures Answer(View(), result) == ApproveRequest(old(View()), id, env, rivals)
    {
      var attempt := 0;
      while attempt < MAX_ATTEMPTS
        invariant attempt <= MAX_ATTEMPTS
        invariant ApproveFrom(View(), id, env, rivals, attempt) == ApproveRequest(old(View()), id, env, rivals)
      {
        result := ApprovePass(id, env, RivalAt(rivals, attempt));
        attempt := attempt + 1;
        if result != Err(VersionMismatch) {
          return;
        }
        if attempt >= MAX_ATTEMPTS {
          return Err(RetriesExhausted);
        }
      }
      return Err(RetriesExhausted);
    }

    /** The body of the `try` block. */
    method ApprovePass(id: nat, env: Env, rival: Option<Status>) returns (result: Result<Request, Failure>)
      modifies repository, balances.repository, balances.cacheService, audit
      ensures Answer(View(), result) == ApproveOnce(old(View()), id, env, rival)
    {
      var found := repository.FindOne(id);
      if found.None? {
        return Err(NotFound);
      }
      var request := found.value;
      if request.status != Pending {
        return Err(InvalidTransition);
      }
      var current := balances.Refresh(request.dims, env.year, env.now);
      if current.Err? {
        return Err(current.error);
      }
      var enough := balances.Validate(request.dims, DaysOf(request), env.year, env.hcm, env.now);
      if enough.Err? {
        return Err(enough.error);
      }
      request := request.(status := Approved, approvedAt := Some(env.now), hcmSynced := true);
      var deducted := balances.UpdateUsed(request.dims, request.days);
      if deducted.Err? {
        return Err(deducted.error);
      }
      repository.BeOvertaken(id, rival);
      result := repository.Save(id, request);
      if result.Err? {
        return;
      }
      var failure := audit.LogChange(RequestChange(id, Sync, Some(Pending), Approved), env.auditWritable);
      if failure.Some? {
        return Err(failure.value);
      }
    }

    method Reject(id: nat, reason: string, env: Env) returns (result: Result<Request, Failure>)
      modifies repository, audit
      ensures Answer(View(), result) == RejectRequest(old(View()), id, reason, env)
    {
      var found := repository.FindOne(id);
      if found.None? {
        return Err(NotFound);
      }
      var request := found.value;
      if request.status != Pending {
        return Err(InvalidTransition);
      }
      request := request.(status := Rejected, rejectionReason := Some(reason), hcmSynced := true);
      result := repository.Save(id, request);
      if result.Err? {
        return;
      }
      var failure := audit.LogChange(RequestChange(id, Update, Some(Pending), Rejected), env.auditWritable);
      if failure.Some? {
        return Err(failure.value);
      }
    }

    method Cancel(id: nat, reason: Option<string>, env: Env) returns (result: Result<Request, Failure>)
      modifies repository, balances.repository, balances.cacheService, audit
      ensures Answer(View(), result) == CancelRequest(old(View()), id, reason, env)
    {
      var found := repository.FindOne(id);
      if found.None? {
        return Err(NotFound);
      }
      var request := found.value;
      if request.status != Approved {
        return Err(InvalidTransition);
      }
      var refunded := balances.GiveBack(request.dims, request.days);
      if refunded.Err? {
        return Err(refunded.error);
      }
      request := request.(status := Cancelled, rejectionReason := Some(CancelReason(reason)), hcmSynced := true);
      result := repository.Save(id, request);
      if result.Err? {
        return;
      }
      var failure := audit.LogChange(RequestChange(id, Update, Some(Approved), Cancelled), env.auditWritable);
      if failure.Some? {
        return Err(failure.value);
      }
    }
  }
}
