/** Option, Result and Outcome, used throughout the model. */
module Wrappers {

  /** A value that may be absent: Java's `null` for a missing property or connection. */
  datatype Option<+T> = None | Some(value: T)

  /** A value or the error that replaced it: Java's return-or-throw. */
  datatype Result<+R, +E> = Success(value: R) | Failure(error: E)

  /** Normal completion or the error that was thrown: a `void` Java method. */
  datatype Outcome<+E> = Pass | Fail(error: E)
}
