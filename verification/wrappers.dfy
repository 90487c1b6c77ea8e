/** Option and Result, used for Python's None and for raised exceptions. */
module Wrappers {

  datatype Option<+T> = None | Some(value: T)

  datatype Result<+T, +E> = Success(value: T) | Failure(error: E) {
    predicate IsFailure() {
      Failure?
    }

    function PropagateFailure<U>(): Result<U, E>
      requires Failure?
    {
      Failure(error)
    }

    function Extract(): T
      requires Success?
    {
      value
    }
  }

  /** A conversion that gave no value raises `e`. */
  function OrFail<T, E>(o: Option<T>, e: E): Result<T, E>
  {
    match o
    case Some(v) => Success(v)
    case None => Failure(e)
  }
}
