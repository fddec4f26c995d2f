/** Failure-carrying result types shared by every module of the model. */
module Wrappers {

  /** A value that may be absent (JavaScript `null` / `undefined` results). */
  datatype Option<+T> = None | Some(value: T)

  /** A value or the error an operation throws. */
  datatype Result<+T, +E> = Ok(value: T) | Err(error: E)

  /** Normal completion of a `void` operation, or the error it throws. */
  datatype Outcome<+E> = Pass | Fail(error: E)
}
