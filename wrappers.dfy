/** Failure-carrying values shared by the other modules. */
module Wrappers {

  /** A value that may be absent, such as a key missing from the session state. */
  datatype Option<+T> = None | Some(value: T)

  /** The outcome of an operation that can raise an error instead of returning. */
  datatype Result<+R, +E> = Success(value: R) | Failure(error: E)
}
