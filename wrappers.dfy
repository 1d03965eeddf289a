/** Option, Result and Outcome: the absent values and thrown errors of the service. */
module Wrappers {

  /** A JavaScript value that may be `undefined` (or a key that may be missing). */
  datatype Option<+T> = None | Some(value: T)

  /** A computation that either yields a value or fails with an error. */
  datatype Result<+R, +E> = Success(value: R) | Failure(error: E)

  /** A computation that either completes or fails with an error. */
  datatype Outcome<+E> = Pass | Fail(error: E)
}
