/** Failure-carrying return values shared by every module of the mailer model.

    Go returns `(value, error)` pairs and bare `error`s; here a `Result` is
    the pair and an `Outcome` the bare error. Errors are the message text the
    Go code builds with `errors.New` or `fmt.Errorf`.
 */
module Wrappers {

  type Error = string

  datatype Option<+T> = None | Some(value: T)

  datatype Result<+T> = Ok(value: T) | Err(error: Error) {
    predicate IsFailure() {
      Err?
    }

    function PropagateFailure<U>(): Result<U>
      requires Err?
    {
      Err(error)
    }

    function Extract(): T
      requires Ok?
    {
      value
    }
  }

  /** A Go `error` return: `nil` is `Pass`. */
  datatype Outcome = Pass | Fail(error: Error)
}
