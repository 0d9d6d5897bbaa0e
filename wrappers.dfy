/** Result types standing in for Java's null returns and exceptions. */
module Wrappers {

  /** A value that may be absent (a Java reference that may be null). */
  datatype Option<+T> = None | Some(value: T)

  /** The value of a call that returns normally, or the error it raises. */
  datatype Result<+T, +E> = Success(value: T) | Failure(error: E)

  /** The completion of a void call: it returns normally or raises an error. */
  datatype Outcome<+E> = Pass | Fail(error: E)
}
