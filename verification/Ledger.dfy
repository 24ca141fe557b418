/** What a replay returns: a state, or the reason why an event is refused. */
module Ledger {
  import opened Wrappers
  import opened Events

  datatype LedgerError =
    | Chain(fault: ChainError)
    | InvalidGenesis | AggregateIdentityMismatch | EventSequenceInvalid | EventIdentityInvalid
    | MalformedEvent | UnsupportedEventType
    | AdmissionQuotaInconsistent | DuplicateAdmissionTransition | AdmissionIdentityConflict
    | IllegalAdmissionTransition | QuotaIdentityConflict
    | StaleBase | TaskIdentityConflict | DuplicateTaskTransition
    | ProposalIdentityConflict | DuplicateProposalTransition | ProposalNotSubmitted
    | ReceiptIdentityConflict | DuplicateReceiptTransition
    | Execution(code: ErrorCode)

  datatype Replayed<+T> = Replayed(value: T) | Refused(error: LedgerError) {
    predicate IsFailure() {
      Refused?
    }

    function PropagateFailure<U>(): Replayed<U>
      requires Refused?
    {
      Refused(error)
    }

    function Extract(): T
      requires Replayed?
    {
      value
    }
  }

  /** A check that passes or refuses the event. */
  datatype Guard = Passed | Broken(error: LedgerError) {
    predicate IsFailure() {
      Broken?
    }

    function PropagateFailure<U>(): Replayed<U>
      requires Broken?
    {
      Refused(error)
    }
  }

  function Demand(condition: bool, error: LedgerError): Guard {
    if condition then Passed else Broken(error)
  }

  // ----- Admission states -----

  datatype AdmissionState = Submitted | Decided(decision: Decision)

  /** `validateAdmissionTransition`. */
  predicate CanMove(from: AdmissionState, to: Decision) {
    match from
    case Submitted => true
    case Decided(Quarantined) => !to.Conflicted?
    case Decided(ApprovalRequired) => to.Accepted? || to.Rejected?
    case _ => false
  }
}
