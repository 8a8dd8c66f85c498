/** Failure-carrying results used in place of the exceptions the Java code throws. */
module Wrappers {

  datatype Option<+T> = None | Some(value: T)

  /** The value of an operation that either returns normally or throws. */
  datatype Result<+R, +E> = Success(value: R) | Failure(error: E)

  /** The outcome of a void operation that either returns normally or throws. */
  datatype Outcome<+E> = Pass | Fail(error: E)
}
