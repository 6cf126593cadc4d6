/** Value-or-error carriers shared by every module of the model.
    Go returns `(T, error)` pairs; here a `Result` holds exactly one of the two.
    A Go `panic` is not an error value, so code paths that can panic return an `Exec`. */
module Wrappers {

  datatype Option<+T> = None | Some(value: T)

  /** `Err` carries the error text (only its fixed part; formatted details are dropped). */
  datatype Result<+T> = Ok(value: T) | Err(error: string) {
    predicate IsFailure() { Err? }

    function PropagateFailure<U>(): Result<U>
      requires Err?
    {
      Err(error)
    }

    function Extract(): T
      requires Ok?
    {
      value
    }
  }

  /** Outcome of a Go call that may panic instead of returning. */
  datatype Exec<+T> = Done(value: T) | Panicked(reason: string)

  /** The runtime's message when a nil pointer or interface is dereferenced. */
  const NilDereference: string := "invalid memory address or nil pointer dereference"
}
