/** Results, and the errors the service and the database raise. */
module Prelude {

  datatype Option<+T> = None | Some(value: T)

  /** Every way a request can be refused, with the code the source gives it. */
  datatype Error =
    | NotFound            // HTTP 404
    | PreconditionFailed  // HTTP 412, stale If-Match
    | ExceedsRefundable   // HTTP 422, confirmed refunds would exceed the payment
    | NothingToTakeBack   // lost dispute with nothing left
    | KeyReused           // HTTP 422, idempotency key reused with another body
    | MissingAccount      // chart of accounts incomplete
    | Unbalanced          // LX002
    | CurrencyMismatch    // LX003
    | SealedEntry         // LX004
    | ForbiddenTransition // LX005
    | FrozenField         // LX006
    | NotAMirror          // LX008
    | InactiveAccount     // LX009
    | BusinessRule        // LX010
    | CheckViolation      // SQLSTATE 23514
    | Duplicate           // SQLSTATE 23505
    | ForeignKey          // SQLSTATE 23503
    | OutOfRange          // SQLSTATE 22003
    | TooLong             // SQLSTATE 22001
    | ClientAborted       // time-out or lost connection

  datatype Result<+T> = Ok(value: T) | Err(error: Error) {
    predicate IsFailure() {
      Err?
    }

    function PropagateFailure<U>(): Result<U>
      requires Err?
    {
      Err(error)
    }

    function Extract(): T
      requires Ok?
    {
      value
    }
  }

  datatype Outcome = Pass | Fail(error: Error) {
    predicate IsFailure() {
      Fail?
    }

    function PropagateFailure<U>(): Result<U>
      requires Fail?
    {
      Err(error)
    }
  }

  function Need(condition: bool, error: Error): Outcome {
    if condition then Pass else Fail(error)
  }
}
