/** Failure-carrying datatypes shared by every module of the model. */
module Wrappers {

  /** An optional value: JavaScript's `undefined` or a present value. */
  datatype Option<+T> = None | Some(value: T) {

    /** The value if present, otherwise `default` (the `x ?? default` idiom). */
    function GetOr(default: T): T {
      match this
      case Some(v) => v
      case None => default
    }
  }

  /** The outcome of an operation that returns a value or throws an `Error` with a message. */
  datatype Result<+R, +E> = Success(value: R) | Failure(error: E)

  /** The outcome of an operation that returns nothing or throws an `Error` with a message. */
  datatype Outcome<+E> = Pass | Fail(error: E)
}
