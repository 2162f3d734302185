/** Failure-carrying values used across the model: an optional value, and a
    result that is either a value or an error. */
module Wrappers {

  /** A value that may be absent. */
  datatype Option<+T> = None | Some(value: T)

  /** Either a successful value or an error describing why there is none. */
  datatype Result<+R, +E> = Success(value: R) | Failure(error: E)
}
