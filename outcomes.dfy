/** The exceptions the services raise, and a result type for operations that raise them. */
module Outcomes {

  /** `ValueError(msg)`, `KeyError(key)` and a plain `Exception(msg)`. */
  datatype Exception =
    | ValueError(message: string)
    | KeyError(key: string)
    | PlainException(message: string)

  /** `str(e)`: the message, or for a `KeyError` the `repr` of the key, which is quoted
      with double quotes when the key holds a single quote and no double quote, and with
      single quotes otherwise. */
  function Describe(e: Exception): (r: string)
    ensures e.KeyError? ==> |r| == |e.key| + 2 && r[1..|r| - 1] == e.key
    ensures e.KeyError? ==> (r[0] == '"' <==> '\'' in e.key && '"' !in e.key)
    ensures !e.KeyError? ==> r == e.message
  {
    match e
    case ValueError(m) => m
    case KeyError(k) =>
      var quote := if '\'' in k && '"' !in k then '"' else '\'';
      [quote] + k + [quote]
    case PlainException(m) => m
  }

  datatype Result<+T> = Ok(value: T) | Err(error: Exception)

  datatype Option<+T> = None | Some(value: T)
}
