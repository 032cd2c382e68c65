/** Results shared by the models.

    The client guards its cross-structure assumptions with panics. A model
    operation that contains such a guard returns an `Outcome`, so that "the panic
    is unreachable" is a statement about the value of the operation. */
module Outcomes {

  datatype Option<+T> = None | Some(value: T)

  /** `Panic` is a reached panic in the original; everything else is `Ok`. */
  datatype Outcome<+T> = Ok(value: T) | Panic {
    predicate IsFailure() {
      Panic?
    }

    function PropagateFailure<U>(): Outcome<U>
      requires Panic?
    {
      Panic
    }

    function Extract(): T
      requires Ok?
    {
      value
    }
  }
}
