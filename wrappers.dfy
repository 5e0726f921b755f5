/** The absent-or-present and success-or-error values that the TypeScript code
    expresses with `null`/`undefined` and with thrown errors. */
module Wrappers {

  /** `T | null` (and `T | undefined`): a value that may be missing. */
  datatype Option<+T> = None | Some(value: T) {
    function GetOr(default: T): T {
      match this
      case Some(v) => v
      case None => default
    }
  }

  /** The outcome of an operation that may throw: either a value or the error
      message it throws. */
  datatype Result<+R> = Success(value: R) | Failure(error: string)
}
