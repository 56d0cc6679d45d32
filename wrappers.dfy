/** Failure-carrying values used in place of Python's None and exceptions. */
module Wrappers {

  /** `None` stands for Python's `None` (or an attribute not yet assigned). */
  datatype Option<+T> = None | Some(value: T)

  /** The value of an expression that either returns or raises. */
  datatype Result<+R, +E> = Success(value: R) | Failure(error: E)

  /** The completion of a statement that returns nothing or raises. */
  datatype Outcome<+E> = Pass | Fail(error: E)
}
