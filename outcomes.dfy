/** The exceptions the backend raises or catches, and a failure-compatible
    result type standing for a Python call that either returns a value or
    raises one of them. */
module Outcomes {

  datatype Option<+T> = None | Some(value: T)

  /** The Python exceptions that can reach the handler's `except` clauses. */
  datatype Exception =
    | AssertionError(message: string)  // a failed `assert`, with its message
    | KeyError(key: string)            // a key missing from the submissions JSON
    | IndexError                       // a list index out of range
    | AttributeError                   // `.text` or `.find_all` looked up on None
    | ValueError(text: string)         // `float()` refused its argument
    | HttpError(status: int)           // `raise_for_status()` on a 4xx or 5xx reply
    | ConnectionError                  // `requests.get` obtained no reply at all
    | JsonDecodeError                  // `resp.json()` on a body that is not JSON

  /** `Ok(v)`: the call returned `v`; `Raised(e)`: it raised `e`. */
  datatype Outcome<+T> = Ok(value: T) | Raised(exception: Exception) {

    predicate IsFailure() {
      Raised?
    }

    function PropagateFailure<U>(): Outcome<U>
      requires Raised?
    {
      Raised(exception)
    }

    function Extract(): T
      requires Ok?
    {
      value
    }
  }
}
