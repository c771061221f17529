/** Failure-compatible result types shared by the whole project. */
module Outcomes {

  datatype Option<+T> = None | Some(value: T) {
    predicate IsFailure() {
      None?
    }
    function PropagateFailure<U>(): Option<U>
      requires None?
    {
      None
    }
    function Extract(): T
      requires Some?
    {
      value
    }
  }

  /** `Raised` stands for a Python exception that leaves the function. */
  datatype Result<+T> = Ok(value: T) | Raised {
    predicate IsFailure() {
      Raised?
    }
    function PropagateFailure<U>(): Result<U>
      requires Raised?
    {
      Raised
    }
    function Extract(): T
      requires Ok?
    {
      value
    }
  }
}
