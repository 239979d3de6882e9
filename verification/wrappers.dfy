/** Failure-carrying values used throughout the model. */
module Wrappers {

  /** A value that may be absent; for a capability, `None` stands for an exception it threw. */
  datatype Option<+T> = None | Some(value: T)

  /** Either a value or the exception that prevented computing it. */
  datatype Result<+T, +E> = Success(value: T) | Failure(error: E)

  /** Normal completion of a `void` operation, or the exception it raised. */
  datatype Outcome<+E> = Pass | Fail(error: E)
}
