/** Option and Result, the usual failure-compatible wrappers. */
module Wrappers {

  datatype Option<+T> = None | Some(value: T)

  /** The outcome of an evaluation that may throw: a value, or what was thrown. */
  datatype Result<+T, +E> = Success(value: T) | Failure(error: E) {

    predicate IsFailure() {
      Failure?
    }

    function PropagateFailure<U>(): Result<U, E>
      requires Failure?
    {
      Failure(error)
    }

    function Extract(): T
      requires Success?
    {
      value
    }
  }
}
