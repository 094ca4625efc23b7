/** Failure-carrying wrappers used throughout the model: `Option` for a value
    that may be absent (JavaScript's `undefined`), and `Result` for a
    computation that either returns normally or raises an error. */
module Wrappers {

  /** A possibly-absent value. */
  datatype Option<+T> = None | Some(value: T)

  /** Either a normal return value or a raised error. */
  datatype Result<+R, +E> = Success(value: R) | Failure(error: E)
}
