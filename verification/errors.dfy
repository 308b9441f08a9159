/**
 The closed error taxonomy of the balance engine and the wrappers every
 operation returns. The source throws one exception type that
 carries an error code; here each operation returns a `Result` instead.
 */
module Errors {

  /** Every error code the account domain, the use-balance pipeline and the
      lock service raise, plus the two codes the error enum lists. */
  datatype ErrorCode =
    | UserNotFound
    | MaxAccountPerUser10
    | AccountNotFound
    | UserAccountUnmatched
    | AccountAlreadyUnregistered
    | AmountExceedBalance
    | InvalidRequest
    | AccountTransactionLock

  /** A value that may be absent (a repository lookup, a validation verdict). */
  datatype Option<+T> = None | Some(value: T)

  /** Either the value an operation returns or the error code it raises. */
  datatype Result<+T> = Success(value: T) | Failure(error: ErrorCode)
}
