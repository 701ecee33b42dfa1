/** The exceptions the library can raise, and a result type that carries them. */
module Errors {

  /** One constructor per Python exception the modelled code can raise. */
  datatype Error =
    | KeyError(key: string)            // a missing dict key
    | AttributeError(name: string)     // getattr / attribute access on a missing name
    | TypeError(message: string)       // an index given for a field that is not indexable
    | ValueError(literal: string)      // int() on text that is not an integer literal
    | IndexError                       // a negative index that reaches before the start

  /** A value, or the exception that was raised instead. */
  datatype Result<+T> = Ok(value: T) | Err(error: Error) {
    predicate IsFailure() { Err? }

    function PropagateFailure<U>(): Result<U>
      requires Err?
    {
      Err(error)
    }

    function Extract(): T
      requires Ok?
    {
      value
    }
  }
}
