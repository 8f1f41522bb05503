/** Failure-compatible results shared by the whole project. */
module Wrappers {

  datatype Option<+T> = None | Some(value: T)

  /** Rust's `Result`: an error leaves through the return value. */
  datatype Result<+T, +E> = Success(value: T) | Failure(error: E) {
    predicate IsFailure() {
      Failure?
    }

    function PropagateFailure<U>(): Result<U, E>
      requires Failure?
    {
      Failure(error)
    }

    function Extract(): T
      requires Success?
    {
      value
    }
  }
}
