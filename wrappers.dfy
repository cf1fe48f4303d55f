/** The two failure-carrying datatypes the model uses in place of C#'s
    nullable values, out-parameters and exceptions. */
module Wrappers {

  /** A value that may be absent: C#'s `null` or an unset `int?`. */
  datatype Option<+T> = None | Some(value: T) {
    function GetOr(default: T): T {
      match this
      case Some(v) => v
      case None => default
    }
  }

  /** The outcome of an operation that may throw: the returned value or the exception. */
  datatype Result<+R, +E> = Success(value: R) | Failure(error: E)
}
