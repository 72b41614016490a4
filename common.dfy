/** Failure-compatible wrappers shared by the other modules. */
module Common {

  /** A value that may be absent (JavaScript's `undefined`, or `NaN` for a number). */
  datatype Option<+T> = None | Some(value: T)

  /** The outcome of an operation that either succeeds or rejects with an error value. */
  datatype Result<+R, +E> = Success(value: R) | Failure(error: E)
}
