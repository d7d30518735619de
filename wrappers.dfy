/** Option and Result, the failure-carrying datatypes the builder returns. */
module Wrappers {

  datatype Option<+T> = None | Some(value: T) {

    /** The carried value, or `default` when there is none. */
    function GetOr(default: T): T {
      match this
      case Some(v) => v
      case None => default
    }
  }

  /** A builder outcome: the produced value, or the message of the exception raised. */
  datatype Result<+R, +E> = Success(value: R) | Failure(error: E)
}
