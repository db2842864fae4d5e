/** Failure-carrying result types shared by the modules of this model. */
module Wrappers {

  /** A value that may be absent: a null pointer returned by a lookup, an unset environment variable. */
  datatype Option<+T> = None | Some(value: T)

  /** The outcome of an operation that either yields a value or throws. */
  datatype Result<+R, +E> = Success(value: R) | Failure(error: E)
}
