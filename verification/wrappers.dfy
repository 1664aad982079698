/** Failure-carrying wrappers used throughout the model. */
module Wrappers {

  /** A value that may be absent: SQL NULL, a JavaScript `null`/`undefined`, a missing key. */
  datatype Option<+T> = None | Some(value: T)

  /** The outcome of an operation that can throw in the source. */
  datatype Result<+T, +E> = Success(value: T) | Failure(error: E)
}
