/** Python exceptions and the two failure-compatible wrappers every other module returns. */
module Outcome {

  /** The exception classes the modelled code raises, with the message or name Python attaches. */
  datatype Error =
    | ValueError(msg: string)
    | KeyError(key: string)
    | AttributeError(attr: string)
    | NameError(name: string)
    | UnboundLocalError(local: string)
    | TypeError(msg: string)
    | OperationalError(msg: string)   // sqlite3.OperationalError
    | RuntimeError(msg: string)
    | FileNotFoundError(path: string)
    | SameFileError(path: string)     // shutil.SameFileError

  datatype Option<+T> = None | Some(value: T)

  datatype Result<+T> = Ok(value: T) | Err(error: Error) {
    predicate IsFailure() { Err? }
    function PropagateFailure<U>(): Result<U> requires Err? { Err(error) }
    function Extract(): T requires Ok? { value }
  }

  /** The error a unit-valued step raised, if any. */
  function ErrorOf<T>(r: Result<T>): Option<Error> {
    match r
    case Ok(_) => None
    case Err(e) => Some(e)
  }
}
