/** The exceptions the services throw, as values. */
module Failures {

  datatype Failure =
    | NotFound            // NotFoundException
    | InvalidDimension    // DimensionValidationException
    | InsufficientBalance // InsufficientBalanceException
    | InvalidTransition   // InvalidStateTransitionException
    | RetriesExhausted    // BadRequestException after the last attempt
    | VersionMismatch     // OptimisticLockVersionMismatchError
    | CheckViolation      // a CHECK constraint refused the write
    | UniqueViolation     // the unique index on the balance dimensions refused the insert
    | AuditUnavailable    // the audit row could not be written
    | HcmUnavailable      // the HCM call failed
}
