/** Option, Result and the Python exceptions the handlers raise or catch. */
module Common {

  datatype Option<+T> = None | Some(value: T)

  datatype Result<+T, +E> = Ok(value: T) | Err(error: E)

  /** The exceptions that matter to the handlers' control flow. Each carries what
      `str(e)` prints; a collaborator failure is a `ServiceError`. */
  datatype Exception =
    | KeyError(repr: string)           // str(KeyError(k)) is repr(k)
    | IndexError(message: string)
    | TypeError(message: string)
    | AttributeError(message: string)
    | ValueError(message: string)
    | NameError(message: string)
    | UnicodeDecodeError(message: string)
    | UnicodeEncodeError(message: string)
    | ServiceError(message: string)

  /** `str(e)` */
  function Str(e: Exception): string
  {
    match e
    case KeyError(r) => r
    case IndexError(m) => m
    case TypeError(m) => m
    case AttributeError(m) => m
    case ValueError(m) => m
    case NameError(m) => m
    case UnicodeDecodeError(m) => m
    case UnicodeEncodeError(m) => m
    case ServiceError(m) => m
  }

  /** The KeyError raised by `d[k]` for a missing string key `k`
      (whose repr is `k` in single quotes when `k` holds no quote or backslash). */
  function MissingKey(k: string): (e: Exception)
    ensures e.KeyError? && Str(e) == "'" + k + "'"
  {
    KeyError("'" + k + "'")
  }

  const ListIndexOutOfRange := "list index out of range"
}
