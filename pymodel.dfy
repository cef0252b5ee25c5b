/** The Python notions the client relies on: optional values, results of foreign calls,
    the exceptions that can reach the client, Python values with their truthiness, and
    the outcome of a call that either returns or raises. */
module PyModel {

  datatype Option<+T> = None | Some(value: T)

  /** What a foreign call (a probe, a transport operation) gives back: a value or a raised exception. */
  datatype Result<+T> = Success(value: T) | Failure(error: Exc)

  /** The exceptions the client can see. `SystemExit` and `KeyboardInterrupt` derive from
      `BaseException` only; every other kind is an `Exception`. */
  datatype Exc =
    | JsonRpcError(rpcMethod: string, code: int, message: string)  // a remote call fault
    | ServerUnreachable                                              // the server could not be reached
    | AttributeError(name: string)                                   // an attribute the object does not have
    | SystemExit
    | KeyboardInterrupt
    | OtherError(kind: string)                                       // any other error raised by a collaborator

  /** `except Exception` catches `e`. */
  predicate IsException(e: Exc) {
    !(e.SystemExit? || e.KeyboardInterrupt?)
  }

  /** The Python values that appear as call arguments and return values. */
  datatype Value = Str(s: string) | Int(n: int) | Bool(b: bool) | Null

  /** Python truthiness: empty strings, zero, `False` and `None` are falsy. */
  predicate Truthy(v: Value) {
    match v
    case Str(s) => s != ""
    case Int(n) => n != 0
    case Bool(b) => b
    case Null => false
  }

  /** `x or default`. */
  function Or(x: Value, default: Value): Value {
    if Truthy(x) then x else default
  }

  /** The way a Python call ends: it returns a value or an exception leaves it. */
  datatype Outcome<+T> = Returned(value: T) | Raised(exc: Exc)

  /** The outcome of a call made for its effect only. */
  type Status = Outcome<()>

  const Done: Status := Returned(())
}
