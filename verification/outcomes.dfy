/** Optional values, the Python exceptions the link module can raise, and a
    failure-compatible Result carrying one of them. */
module Outcomes {

  datatype Option<+T> = None | Some(value: T)

  /** The exceptions that can escape the link module, by the Python name
      that would be raised. */
  datatype Error =
    | KeyError(key: string)   // subscript of a dict (or of `globals()`) with a missing key
    | TypeError               // an operation applied to a value of the wrong Python type
    | AttributeError          // `.values()` called on something that is not a dict
    | IndexError              // `[0]` taken on an empty list
    | UnboundLocalError       // a local variable read before any assignment
    | JsonDecodeError         // `resp.json()` on a body that is not JSON
    | TransportError          // the request got no response from the session

  datatype Result<+T> = Ok(value: T) | Err(error: Error) {

    predicate IsFailure() {
      Err?
    }

    function PropagateFailure<U>(): Result<U>
      requires Err?
    {
      Err(error)
    }

    function Extract(): T
      requires Ok?
    {
      value
    }
  }
}
