/** Failure-compatible values shared by every module of the model.
    `Fatal` stands for a Swift `fatalError(...)`: the run aborts and no output follows. */
module Wrappers {

  datatype Option<+T> = None | Some(value: T)

  datatype Result<+T, +E> = Ok(value: T) | Fatal(error: E) {
    predicate IsFailure() {
      Fatal?
    }

    function PropagateFailure<U>(): Result<U, E>
      requires Fatal?
    {
      Fatal(error)
    }

    function Extract(): T
      requires Ok?
    {
      value
    }
  }

  datatype Outcome<+E> = Pass | Fail(error: E)
}
