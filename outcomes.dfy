/** Results and the exceptions the vault raises. A Python `raise` becomes an
    `Err`/`Fail` carrying the exception class and message; a normal return an
    `Ok`/`Pass`. */
module Outcomes {

  datatype Option<+T> = None | Some(value: T) {
    predicate IsFailure() { None? }
    function PropagateFailure<U>(): Option<U> requires None? { None }
    function Extract(): T requires Some? { value }
    function GetOr(default: T): T {
      match this
      case Some(v) => v
      case None => default
    }
  }

  /** The Python exception classes the modelled code raises. */
  datatype Error =
    | PermissionError(message: string)    // the lock gate
    | ValueError(message: string)         // validation, unknown id, weak password
    | KeyError(key: string)               // `data[key]` on a missing key
    | TypeError(message: string)          // a value of the wrong Python type, or no key loaded
    | InvalidToken                        // a ciphertext that does not verify under the key
    | DatabaseError                       // a statement SQLite refused
    | OperationalError(message: string)   // BEGIN inside an open transaction
    | AttributeError(message: string)     // reading an attribute the object does not have
    | ProgrammingError(message: string)   // parameters sqlite3 cannot bind

  datatype Result<+T> = Ok(value: T) | Err(error: Error) {
    predicate IsFailure() { Err? }
    function PropagateFailure<U>(): Result<U> requires Err? { Err(error) }
    function Extract(): T requires Ok? { value }
  }

  datatype Outcome = Pass | Fail(error: Error) {
    predicate IsFailure() { Fail? }
    function PropagateFailure<U>(): Result<U> requires Fail? { Err(error) }
  }
}
