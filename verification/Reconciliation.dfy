/** Conflict resolution: the HCM figures overwrite the local row. */
module Reconciliation {
  import opened Wrappers
  import opened Failures
  import opened CacheKeys
  import opened FixedPoint
  import opened BalanceTable
  import opened Balances
  import opened AuditTrail

  /** A missing `used` figure leaves the stored one. */
  function Overwritten(row: Row, balance: HcmBalance): Row {
    row.(figures := Figures(balance.available, balance.used.GetOr(row.figures.used)), version := row.version + 1)
  }

  /** Finds the row as spelled; the cache is not touched. */
  function Reconcile(rows: seq<Row>, d: Dims, balance: HcmBalance): Result<seq<Row>, Failure> {
    match FindExact(rows, d)
    case None => Err(NotFound)
    case Some(id) => SaveRow(rows, id, Overwritten(rows[id], balance))
  }

  function ReconcileEntry(row: Row, d: Dims, balance: HcmBalance): AuditEntry {
    BalanceReconciled(d, row.figures.available, if row.version == 0 then 1 else row.version,
                      balance.available, row.version + 1)
  }

  class ConflictResolutionService {
    const repository: BalancesRepository
    const audit: AuditService

    constructor (repository: BalancesRepository, audit: AuditService)
      ensures this.repository == repository && this.audit == audit
    {
      this.repository := repository;
      this.audit := audit;
    }

    /** The row is saved before the audit entry is written, so a failing audit leaves it saved. */
    method ReconcileBalance(d: Dims, balance: HcmBalance, auditWritable: bool) returns (failure: Option<Failure>)
      modifies repository, audit
      ensures match Reconcile(old(repository.rows), d, balance)
        case Err(f) =>
          failure == Some(f) && repository.rows == old(repository.rows) && audit.entries == old(audit.entries)
        case Ok(rows) =>
          var found := FindExact(old(repository.rows), d);
          && repository.rows == rows
          && found.Some?
          && failure == (if auditWritable then None else Some(AuditUnavailable))
          && audit.entries == (
            if auditWritable then
              old(audit.entries) + [ReconcileEntry(old(repository.rows)[found.value], d, balance)]
            else old(audit.entries))
    {
      var found := repository.FindOne(d);
      if found.None? {
        return Some(NotFound);
      }
      var row := found.value.row;
      var entry := ReconcileEntry(row, d, balance);
      row := row.(figures := row.figures.(available := balance.available));
      if balance.used.Some? {
        row := row.(figures := row.figures.(used := balance.used.value));
      }
      row := row.(version := row.version + 1);
      failure := repository.Save(Entity(found.value.id, row));
      if failure.Some? {
        return;
      }
      failure := audit.LogChange(entry, auditWritable);
    }
  }
}
