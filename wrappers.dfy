/** Optional values and success-or-failure results, used wherever the
    source has an optional field (`?:`), `null`, or a thrown error. */
module Wrappers {

  /** An optional value: `undefined`/`null` is `None`. */
  datatype Option<+T> = None | Some(value: T) {

    /** The value, or `default` when absent. */
    function GetOr(default: T): T {
      match this
      case Some(v) => v
      case None => default
    }
  }

  /** The outcome of an operation that may throw: the value it returns or
      the error it throws. */
  datatype Result<+R, +E> = Success(value: R) | Failure(error: E)
}
