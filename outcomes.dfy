/** Optional values and the two ways a computation of the calculator can
    fail: a `todo!()` stub that is not implemented yet, or a panic (an
    `unwrap` on a missing value, an explicit `panic!`, an arithmetic
    overflow). Both abort evaluation; the model keeps them as values. */
module Outcomes {

  datatype Option<+T> = None | Some(value: T)

  /** Why an evaluation stopped. `what` names the stub that was reached. */
  datatype Fault = Unimplemented(what: string) | Panic(message: string)

  datatype Outcome<+T> = Ok(value: T) | Err(fault: Fault) {

    predicate IsFailure() {
      Err?
    }

    function PropagateFailure<U>(): Outcome<U>
      requires Err?
    {
      Err(fault)
    }

    function Extract(): T
      requires Ok?
    {
      value
    }
  }
}
