/** The `requests` table: rows under optimistic locking. */
module RequestTable {
  import opened Wrappers
  import opened Failures
  import opened CacheKeys
  import opened FixedPoint
  import opened AuditTrail

  datatype Snapshot = Snapshot(figures: Figures, carryover: Option<int>, version: nat, takenAt: int)

  datatype Request = Request(
    dims: Dims,
    startDate: int,
    endDate: int,
    days: int,
    status: Status,
    snapshot: Snapshot,
    submittedAt: int,
    approvedAt: Option<int>,
    rejectionReason: Option<string>,
    hcmSynced: bool,
    version: nat)

  predicate RequestChecks(r: Request) {
    r.startDate <= r.endDate && r.days > 0
  }

  /** `UPDATE ... WHERE id = ? AND version = N`, which also increments the version. */
  function SaveRequest(requests: seq<Request>, id: nat, r: Request): Result<seq<Request>, Failure>
    requires id < |requests|
  {
    if requests[id].version != r.version then Err(VersionMismatch)
    else if !RequestChecks(r) then Err(CheckViolation)
    else Ok(requests[id := r.(version := r.version + 1)])
  }

  /** A new row starts at version 1; its id is its position. */
  function InsertRequest(requests: seq<Request>, r: Request): Result<seq<Request>, Failure> {
    if RequestChecks(r) then Ok(requests + [r.(version := 1)]) else Err(CheckViolation)
  }

  /** Another call saves the row first and leaves it in the given status. */
  function Overtaken(requests: seq<Request>, id: nat, rival: Option<Status>): seq<Request>
    requires id < |requests|
  {
    match rival
    case None => requests
    case Some(status) => requests[id := requests[id].(status := status, version := requests[id].version + 1)]
  }

  class RequestsRepository {
    var requests: seq<Request>

    constructor ()
      ensures requests == []
    {
      requests := [];
    }

    method FindOne(id: nat) returns (found: Option<Request>)
      ensures found == if id < |requests| then Some(requests[id]) else None
    {
      found := if id < |requests| then Some(requests[id]) else None;
    }

    method Save(id: nat, r: Request) returns (result: Result<Request, Failure>)
      requires id < |requests|
      modifies this
      ensures match SaveRequest(old(requests), id, r)
        case Ok(saved) => requests == saved && result == Ok(saved[id])
        case Err(f) => requests == old(requests) && result == Err(f)
    {
      if requests[id].version != r.version {
        return Err(VersionMismatch);
      }
      if !RequestChecks(r) {
        return Err(CheckViolation);
      }
      requests := requests[id := r.(version := r.version + 1)];
      return Ok(requests[id]);
    }

    method Insert(r: Request) returns (result: Result<nat, Failure>)
      modifies this
      ensures match InsertRequest(old(requests), r)
        case Ok(saved) => requests == saved && result == Ok(|old(requests)|)
        case Err(f) => requests == old(requests) && result == Err(f)
    {
      if !RequestChecks(r) {
        return Err(CheckViolation);
      }
      result := Ok(|requests|);
      requests := requests + [r.(version := 1)];
    }

    /** What another call does to the row while this one awaits. */
    method BeOvertaken(id: nat, rival: Option<Status>)
      requires id < |requests|
      modifies this
      ensures requests == Overtaken(old(requests), id, rival)
    {
      if rival.Some? {
        requests := requests[id := requests[id].(status := rival.value, version := requests[id].version + 1)];
      }
    }
  }
}
