/** Failure-carrying results used by the model: an optional value, a value or an
    error, and a pass/fail outcome of an operation that returns nothing. */
module Wrappers {

  datatype Option<+T> = None | Some(value: T)

  datatype Result<+R, +E> = Success(value: R) | Failure(error: E)

  datatype Outcome<+E> = Pass | Fail(error: E)
}
