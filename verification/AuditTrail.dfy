/** The append-only audit log. */
module AuditTrail {
  import opened Wrappers
  import opened Failures
  import opened CacheKeys

  datatype Status = Pending | Approved | Rejected | Cancelled

  datatype Action = Create | Update | Sync

  datatype AuditEntry =
    | RequestChange(id: nat, action: Action, from: Option<Status>, to: Status)
    | BalanceReconciled(dims: Dims, oldAvailable: int, oldVersion: nat, newAvailable: int, newVersion: nat)
    | DriftFound(dims: Dims, localAvailable: int, hcmAvailable: int)
    | SyncFinished(syncId: string)

  class AuditService {
    var entries: seq<AuditEntry>

    constructor ()
      ensures entries == []
    {
      entries := [];
    }

    /** Appends the entry, or fails and leaves the log alone when the row cannot be written. */
    method LogChange(entry: AuditEntry, writable: bool) returns (failure: Option<Failure>)
      modifies this
      ensures failure == if writable then None else Some(AuditUnavailable)
      ensures entries == if writable then old(entries) + [entry] else old(entries)
    {
      if writable {
        entries := entries + [entry];
        failure := None;
      } else {
        failure := Some(AuditUnavailable);
      }
    }
  }
}
