/** Failure-compatible result types shared by the engine and the rule language. */
module Wrappers {

  /** A value that may be absent (a Go nil pointer or a missing map entry). */
  datatype Option<+T> = None | Some(value: T) {
    predicate IsFailure() { None? }

    function PropagateFailure<U>(): Option<U>
      requires None?
    {
      None
    }

    function Extract(): T
      requires Some?
    {
      value
    }
  }

  /** The `(value, error)` pair of a Go function: exactly one of the two is meaningful. */
  datatype Outcome<+T, +E> = Ok(value: T) | Fail(error: E) {
    predicate IsFailure() { Fail? }

    function PropagateFailure<U>(): Outcome<U, E>
      requires Fail?
    {
      Fail(error)
    }

    function Extract(): T
      requires Ok?
    {
      value
    }
  }
}
