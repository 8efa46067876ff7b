/** Failure-compatible result types used in place of the generator's process exits. */
module Wrappers {

  datatype Option<+T> = None | Some(value: T)

  /** Either the value computed or the error that would have ended the run. */
  datatype Result<+R, +E> = Success(value: R) | Failure(error: E) {

    predicate IsFailure() {
      Failure?
    }

    function PropagateFailure<U>(): Result<U, E>
      requires Failure?
    {
      Failure(error)
    }

    function Extract(): R
      requires Success?
    {
      value
    }
  }
}
