/** The exceptions the generator can raise, and a failure-compatible result type
    that replaces Python's raise/propagate with explicit values. */
module PyErrors {

  /** The Python exception kinds the generator can end in. */
  datatype Error =
    | KeyError(key: string)      // `d[key]` on a dict without that key
    | TypeError                  // subscripting None or a list by a string, `"%" in 3`, iterating a number ...
    | IndexError                 // `re.findall(...)[0]` on an empty match list
    | AttributeError             // a `super().createMethodDefinition` with no target
    | ArraysNotSupported         // the explicit "Arrays are not supported!" exception
    | Unsupported                // Python's `str()` of a float, list or dict: not part of this model

  datatype Result<+T> = Ok(value: T) | Err(error: Error) {
    predicate IsFailure() { Err? }

    function PropagateFailure<U>(): Result<U>
      requires Err?
    {
      Err(error)
    }

    function Extract(): T
      requires Ok?
    {
      value
    }
  }

  /** The outcome of a method that either returns normally (None) or raises. */
  function Raised<T>(r: Result<T>): (e: Option<Error>)
    ensures e.None? <==> r.Ok?
    ensures r.Err? ==> e == Some(r.error)
  {
    if r.Ok? then None else Some(r.error)
  }

  datatype Option<+T> = None | Some(value: T)
}
