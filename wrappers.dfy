/** Option and Result, used for JavaScript's `null` and for thrown errors. */
module Wrappers {

  /** A value or JavaScript's `null` / `undefined`. */
  datatype Option<+T> = None | Some(value: T)

  /** A settled promise: fulfilled with a value or rejected with an error. */
  datatype Result<+T, +E> = Success(value: T) | Failure(error: E)
}
