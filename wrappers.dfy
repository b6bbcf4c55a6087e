/** Failure-carrying values shared by every module of the model.
    A Go `error` return, an explicit `panic` and an `os.Exit` through `exitf`
    all become `Err` with the message the source would print. */
module Wrappers {

  datatype Option<+T> = None | Some(value: T)

  datatype Result<+T> = Ok(value: T) | Err(error: string) {
    predicate IsFailure() { Err? }

    function PropagateFailure<U>(): Result<U>
      requires Err?
    {
      Err(error)
    }

    function Extract(): T
      requires Ok?
    {
      value
    }
  }
}
