/** Success/failure carriers used where the Python code returns a value or raises. */
module Wrappers {

  /** A value that may be absent: what a foreign parser yields when it raises. */
  datatype Option<+T> = None | Some(value: T)

  /** A result or the exception that the Python code raises instead. */
  datatype Result<+T, +E> = Success(value: T) | Failure(error: E) {
    predicate IsFailure() { Failure? }

    function PropagateFailure<U>(): Result<U, E>
      requires Failure?
    {
      Failure(error)
    }

    function Extract(): T
      requires Success?
    {
      value
    }
  }

  /** The outcome of a Python call made for its effect: it returns None or raises. */
  datatype Outcome<+E> = Pass | Fail(error: E)
}
