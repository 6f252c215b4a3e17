/** Failure-compatible wrappers used throughout the model: `Option` for the
    Go code's nil pointers and `Result` for its `(value, error)` returns. */
module Wrappers {

  /** An optional value; `None` plays the role of a nil `*string`. */
  datatype Option<+T> = None | Some(value: T)

  /** Either a value or an error, usable with `:-`. */
  datatype Result<+R, +E> = Success(value: R) | Failure(error: E) {

    predicate IsFailure() {
      Failure?
    }

    function PropagateFailure<U>(): Result<U, E>
      requires Failure?
    {
      Failure(error)
    }

    function Extract(): R
      requires Success?
    {
      value
    }
  }
}
