/** Optional values and success/failure results, used in place of Java's
    `Optional` and of thrown exceptions. */
module Wrappers {

  /** `java.util.Optional`: a value or nothing. */
  datatype Option<+T> = None | Some(value: T)

  /** The outcome of a call that either returns a value or throws. */
  datatype Result<+R, +E> = Success(value: R) | Failure(error: E)
}
