/** Option and Result, used for the nullable fields and the thrown errors of the application. */
module Wrappers {

  /** A value that may be absent (TypeScript's `T | null` or `T | undefined`). */
  datatype Option<+T> = None | Some(value: T)

  /** The outcome of an operation that either returns a value or throws an error. */
  datatype Result<+R, +E> = Success(value: R) | Failure(error: E)
}
