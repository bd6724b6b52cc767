/** Success-or-error values standing in for the exceptions the program raises.
    A `Result` is failure-compatible, so `:-` propagates the first error. */
module Outcomes {

  datatype Option<+T> = None | Some(value: T)

  /** The result of an action that yields nothing but can fail. */
  datatype Outcome<+E> = Pass | Fail(error: E)

  datatype Result<+T, +E> = Success(value: T) | Failure(error: E) {

    predicate IsFailure() {
      Failure?
    }

    function PropagateFailure<U>(): Result<U, E>
      requires Failure?
    {
      Failure(error)
    }

    function Extract(): T
      requires Success?
    {
      value
    }
  }
}
