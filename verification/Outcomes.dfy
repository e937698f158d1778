/** Results that may be missing or may have failed with a reason. */
module Outcomes {

  datatype Option<+T> = None | Some(value: T)

  /** The source throws an HTTP exception where a member here returns `Err`. */
  datatype Result<+T, +E> = Ok(value: T) | Err(error: E) {
    predicate IsFailure() {
      Err?
    }

    function PropagateFailure<U>(): Result<U, E>
      requires Err?
    {
      Err(error)
    }

    function Extract(): T
      requires Ok?
    {
      value
    }
  }
}
