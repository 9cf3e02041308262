/** Failure-carrying return values: C# `null` arguments and thrown exceptions become these. */
module Wrappers {

  /** A value that may be absent, as a C# reference may be `null`. */
  datatype Option<+T> = None | Some(value: T)

  /** The outcome of an operation that returns a value or fails with an error. */
  datatype Result<+R, +E> = Success(value: R) | Failure(error: E)

  /** The outcome of an operation that returns nothing or fails with an error. */
  datatype Outcome<+E> = Pass | Fail(error: E)
}
