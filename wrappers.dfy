/** Optional values (Java's null / Optional) and results of calls that may throw. */
module Wrappers {

  /** `None` stands for Java's `null` or `Optional.empty()`. */
  datatype Option<+T> = None | Some(value: T)

  /** `Failure` stands for an exception thrown by the modelled Java code. */
  datatype Result<+R, +E> = Success(value: R) | Failure(error: E)
}
