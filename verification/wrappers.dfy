/** Failure-compatible wrappers used across the model: Python's `None` and raised exceptions. */
module Wrappers {

  /** An optional value; `None` is Python's `None`. */
  datatype Option<+T> = None | Some(value: T)

  /** A computation that either returns a value or raises an error. */
  datatype Result<+R, +E> = Success(value: R) | Failure(error: E)
}
