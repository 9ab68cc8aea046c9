/** Option, Result and Outcome: the null references, thrown exceptions and
    empty reactive results of the modelled code. */
module Wrappers {

  datatype Option<+T> = None | Some(value: T) {
    /** The value, or `default` when absent (Java's `x != null ? x : default`). */
    function GetOr(default: T): T {
      if Some? then value else default
    }
  }

  datatype Result<+T, +E> = Success(value: T) | Failure(error: E) {
    predicate IsFailure() {
      Failure?
    }

    function PropagateFailure<U>(): Result<U, E>
      requires Failure?
    {
      Failure(error)
    }

    function Extract(): T
      requires Success?
    {
      value
    }

    function MapFailure<F>(wrap: E -> F): Result<T, F> {
      if Success? then Success(value) else Failure(wrap(error))
    }
  }

  /** The outcome of a call that either returns normally or throws. */
  datatype Outcome<+E> = Pass | Fail(error: E)
}
