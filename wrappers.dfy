/** Value wrappers shared by every layer: Go's `error`, its `(*T, error)` and
    `(T, error)` return pairs, and a record of which collaborator call an
    operation issued. */
module Wrappers {

  /** A Go `error`, reduced to the text that `err.Error()` returns. */
  datatype Error = Error(message: string)

  datatype Option<+T> = None | Some(value: T)

  /** A `(T, error)` pair in which exactly one side is meaningful. */
  datatype Result<+T> = Ok(value: T) | Err(error: Error) {
    predicate IsFailure() { Err? }

    function PropagateFailure<U>(): Result<U>
      requires Err?
    {
      Err(error)
    }

    function Extract(): T
      requires Ok?
    {
      value
    }
  }

  /** A bare Go `error` result: `nil` is `Pass`. */
  datatype Outcome = Pass | Fail(error: Error)

  /** A `(*T, error)` pair: an error, a nil pointer with a nil error, or a value. */
  datatype Fetched<+T> = Failed(error: Error) | Missing | Found(value: T) {
    /** The pointer half of the pair, as Go's `json.Marshal` would see it. */
    function Pointer(): Option<T>
      requires !Failed?
    {
      if Found? then Some(value) else None
    }
  }

  /** What an operation returned, together with the argument it passed to the
      collaborator that changes state (`None` when it never made that call). */
  datatype Traced<+R, +A> = Traced(result: R, call: Option<A>)
}
