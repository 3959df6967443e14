/** Option and Result, used where the Java code returns null or throws. */
module Wrappers {

  /** `None` plays the part of a Java `null`. */
  datatype Option<+T> = None | Some(value: T)

  datatype Result<+T, +E> = Success(value: T) | Failure(error: E)
}
