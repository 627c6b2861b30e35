/** Option, Result and Outcome: Python's None, raised exceptions and
    "ran to completion or raised" are modelled with these. */
module Wrappers {

  datatype Option<+T> = None | Some(value: T)

  /** A value, or the exception that computing it raised. */
  datatype Result<+R, +E> = Success(value: R) | Failure(error: E) {
    predicate IsFailure() {
      Failure?
    }

    function PropagateFailure<U>(): Result<U, E>
      requires Failure?
    {
      Failure(error)
    }

    function Extract(): R
      requires Success?
    {
      value
    }
  }

  /** A coroutine that ran to its end (Pass) or stopped with an exception (Fail). */
  datatype Outcome<+E> = Pass | Fail(error: E)
}
