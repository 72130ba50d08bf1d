/** Option, Result and Outcome values that stand for Java's null and for thrown exceptions. */
module Wrappers {

  /** A value that may be absent (a Java reference that may be null). */
  datatype Option<+T> = None | Some(value: T)

  /** A returned value, or the exception the Java code throws instead. */
  datatype Result<+T, +E> = Success(value: T) | Failure(error: E)

  /** A void call that either completes or throws. */
  datatype Outcome<+E> = Pass | Fail(error: E)
}
