/** Absent values and thrown errors. */
module Outcomes {
  datatype Option<+T> = None | Some(value: T)

  /** A returned value or a thrown error. */
  datatype Outcome<+T, +E> = Ok(value: T) | Thrown(error: E) {
    predicate IsFailure() {
      Thrown?
    }

    function PropagateFailure<U>(): Outcome<U, E>
      requires Thrown?
    {
      Thrown(error)
    }

    function Extract(): T
      requires Ok?
    {
      value
    }
  }
}
