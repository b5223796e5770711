/** Failure-carrying values used in place of Python's `None` and its raised exceptions. */
module Wrappers {

  /** A value that may be missing (Python's `None`). */
  datatype Option<+T> = None | Some(value: T)

  /** A function call that either returns `value` or raises `error`. */
  datatype Result<+T, +E> = Ok(value: T) | Err(error: E)

  /** A procedure call that either returns normally or raises `error`. */
  datatype Outcome<+E> = Pass | Fail(error: E)
}
