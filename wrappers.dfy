/** Option and Result, with the Python exception kinds the modelled code raises. */
module Wrappers {
  datatype Option<T> = None | Some(value: T)

  /** The value as a list of zero or one element. */
  function Listed<T>(o: Option<T>): seq<T> {
    if o.Some? then [o.value] else []
  }

  /** The exception classes raised by the modelled functions. */
  datatype Error =
    | ValueError(msg: string)
    | TypeError(msg: string)
    | KeyError(msg: string)
    | RuntimeError(msg: string)
    | TimeoutError(msg: string)

  datatype Result<T> = Ok(value: T) | Err(error: Error) {
    predicate IsFailure() {
      Err?
    }

    function PropagateFailure<U>(): Result<U>
      requires Err?
    {
      Err(error)
    }

    function Extract(): T
      requires Ok?
    {
      value
    }
  }
}
