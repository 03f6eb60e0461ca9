/** Failure-compatible datatypes shared by the model: an optional value and a
    success-or-error result. */
module Wrappers {

  /** A value that may be absent (JavaScript `undefined`). */
  datatype Option<+T> = None | Some(value: T)

  /** Either a successfully produced value or the errors that prevented it. */
  datatype Result<+R, +E> = Success(value: R) | Failure(error: E)
}
