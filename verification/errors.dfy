/**
  The failures the modelled JavaScript code can raise. A call that throws
  in the source returns `Err` here, carrying the kind of exception.
 */
module Errors {

  datatype JsError =
    | RangeError    // a Buffer read or write outside the buffer or outside the integer's range
    | SyntaxError   // `BigInt("0x")` on an empty buffer
    | TypeError     // a property read through `null`

  datatype Result<+T> = Ok(value: T) | Err(error: JsError) {
    predicate IsFailure()
    {
      Err?
    }

    function PropagateFailure<U>(): Result<U>
      requires Err?
    {
      Err(error)
    }

    function Extract(): T
      requires Ok?
    {
      value
    }
  }

  /** An optional argument or a nullable field: `None` stands for `undefined` or `null`. */
  datatype Option<+T> = None | Some(value: T) {
    function GetOr(default: T): T
    {
      match this
      case Some(v) => v
      case None => default
    }
  }
}
