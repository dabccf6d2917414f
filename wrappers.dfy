/** Failure-carrying values used in place of Python's `None` defaults and raised exceptions. */
module Wrappers {

  /** An optional value: a keyword argument that defaults to `None`. */
  datatype Option<+T> = None | Some(value: T)

  /** A value, or the exception raised instead of producing it. */
  datatype Result<+R, +E> = Success(value: R) | Failure(error: E)

  /** The outcome of a call that either returns normally or raises. */
  datatype Outcome<+E> = Pass | Fail(error: E)
}
