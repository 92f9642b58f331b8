/** Option and Result, the two failure-compatible datatypes the model uses. */
module Wrappers {

  datatype Option<+T> = None | Some(value: T)

  /** The outcome of an operation that may end the whole run. `Fatal` stands for the
      program's `log_error_and_exit` (exit status 1) and for an uncaught exception. */
  datatype Result<+T> = Ok(value: T) | Fatal(message: string) {

    predicate IsFailure() {
      Fatal?
    }

    function PropagateFailure<U>(): Result<U>
      requires Fatal?
    {
      Fatal(message)
    }

    function Extract(): T
      requires Ok?
    {
      value
    }
  }
}
