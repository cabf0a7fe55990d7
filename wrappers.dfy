/** Option and Result values, with `:-` support on Result. */
module Wrappers {

  datatype Option<+T> = None | Some(value: T)

  /** Success, or the failure a Python statement would have raised. */
  datatype Result<+T, +E> = Success(value: T) | Failure(error: E) {

    predicate IsFailure() {
      Failure?
    }

    function PropagateFailure<U>(): Result<U, E>
      requires Failure?
    {
      Failure(error)
    }

    function Extract(): T
      requires Success?
    {
      value
    }
  }
}
