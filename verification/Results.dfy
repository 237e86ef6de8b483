/** Outcomes shared by every module: an optional value, and a computation the program may refuse. */
module Results {

  datatype Option<+T> = None | Some(value: T)

  /** `Err` stands for the program raising its own error class; messages are not modelled. */
  datatype Result<+T> = Ok(value: T) | Err {

    predicate IsFailure() {
      Err?
    }

    function PropagateFailure<U>(): Result<U>
      requires Err?
    {
      Err
    }

    function Extract(): T
      requires Ok?
    {
      value
    }
  }
}
