/** Failure-carrying result types shared by the modules of the model. */
module Wrappers {

  datatype Option<+T> = None | Some(value: T)

  /** A value or an error: Go's `(T, error)` return pair. */
  datatype Result<+T, +E> = Success(value: T) | Failure(error: E)

  /** Success without a value, or an error: Go's bare `error` return. */
  datatype Outcome<+E> = Pass | Fail(error: E)
}
