/** Failure-compatible wrappers: Python's `None` and raised exceptions become values. */
module Wrappers {

  /** A value that may be absent (Python's `x | None`). */
  datatype Option<+T> = None | Some(value: T)

  /** `first`, or `fallback` when `first` is absent. */
  function Or<T>(first: Option<T>, fallback: Option<T>): Option<T> {
    if first.Some? then first else fallback
  }

  /** The outcome of an operation that may raise: a value, or the error it raised. */
  datatype Result<+R, +E> = Success(value: R) | Failure(error: E) {

    predicate IsFailure() {
      Failure?
    }

    function PropagateFailure<U>(): Result<U, E>
      requires Failure?
    {
      Failure(error)
    }

    function Extract(): R
      requires Success?
    {
      value
    }
  }
}
