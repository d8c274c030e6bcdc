/** Small failure-carrying datatypes shared by the startup models: a nullable
    value, a value-or-error, and a pass-or-error for operations that return
    nothing but may throw. */
module Outcomes {

  /** A Java reference that may be null. */
  datatype Option<+T> = None | Some(value: T)

  /** The result of an operation that either returns a value or throws. */
  datatype Result<+R, +E> = Success(value: R) | Failure(error: E)

  /** The result of a `void` operation that either returns or throws. */
  datatype Outcome<+E> = Pass | Fail(error: E)
}
