/** Option and Result, the two failure-carrying shapes the model needs. */
module Wrappers {

  /** A JavaScript value that may be `undefined`: `None` is `undefined`. */
  datatype Option<+T> = None | Some(value: T)

  /** The outcome of an operation that may throw: `Failure` carries the error message. */
  datatype Result<+R, +E> = Success(value: R) | Failure(error: E)

  /** The outcome of a call made for its effect that may throw: `Fail` carries the error message. */
  datatype Outcome<+E> = Pass | Fail(error: E)
}
