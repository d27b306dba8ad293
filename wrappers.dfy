/** Option and Result, the two failure-carrying datatypes the model returns. */
module Wrappers {

  /** A value that may be absent: a JavaScript argument left `undefined`. */
  datatype Option<+T> = None | Some(value: T) {

    /** The value, or `default` when it is absent (a JavaScript default parameter). */
    function GetOr(default: T): T {
      match this
      case Some(v) => v
      case None => default
    }
  }

  /** The outcome of an operation that may throw. */
  datatype Result<+R, +E> = Success(value: R) | Failure(error: E)

  /** The outcome of an operation that returns nothing but may throw. */
  datatype Outcome<+E> = Pass | Fail(error: E)
}
