/** Results of operations that may throw a `DomainError`: the error carries only its code. */
module Wrappers {

  /** The codes of `DomainError` that the modelled operations throw or record. */
  datatype ErrorCode =
    | ABORT_POST_HANDOFF | AUTHORIZATION_DENIED | CAPABILITY_SCOPE_MISMATCH
    | CONFLICTING_LATE_TERMINAL_RECEIPT | CONFLICTING_PROVIDER_HANDLE | DEPENDENCY_CYCLE
    | DUPLICATE_TASK_TRANSITION | EVENT_PAYLOAD_INVALID | EXECUTION_INVALID | EXECUTION_PROFILE_MISMATCH
    | ILLEGAL_DISPATCH_TRANSITION | ILLEGAL_TASK_TRANSITION | INVALID_ATTEMPT_GENERATION
    | INVALID_ATTEMPT_STATE | INVALID_DEPENDENCY | INVALID_EVENT_SEQUENCE | INVALID_POINTER
    | INVALID_PROVIDER_HANDLE | LATE_DISPATCH_FACT | LATE_TERMINAL_RECEIPT | PLAN_ALREADY_ADOPTED
    | PLAN_INVALID | PLAN_NOT_FOUND | PLAN_OUTCOME_CONFLICT | PLAN_SOURCE_CHANGED | PLAN_STALE
    | RECEIPT_CONFLICT | RECEIPT_PRE_HANDOFF | TASK_CANCELLED | TASK_IDENTITY_CONFLICT | TASK_NOT_DRAFT
    | TASK_NOT_FOUND | TASK_NOT_READY | TASK_RESOLUTION_MISMATCH | UNKNOWN_OUTCOME | WORKFLOW_ALREADY_RUNNING
    | WORKFLOW_AUTHORIZATION_EXPIRED | WORKFLOW_GRAPH_CHANGED | WORKFLOW_STOPPED

  datatype Option<+T> = None | Some(value: T)

  /** A value, or the code of the error that was thrown instead. */
  datatype Result<+T> = Ok(value: T) | Err(code: ErrorCode) {
    predicate IsFailure() {
      Err?
    }

    function PropagateFailure<U>(): Result<U>
      requires Err?
    {
      Err(code)
    }

    function Extract(): T
      requires Ok?
    {
      value
    }
  }

  /** A check that either passes or throws. */
  datatype Check = Pass | Fail(code: ErrorCode) {
    predicate IsFailure() {
      Fail?
    }

    function PropagateFailure<U>(): Result<U>
      requires Fail?
    {
      Err(code)
    }
  }

  function Need(condition: bool, code: ErrorCode): Check {
    if condition then Pass else Fail(code)
  }
}
