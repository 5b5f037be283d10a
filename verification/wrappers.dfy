/** Failure-carrying values shared by every module of the model. */
module Wrappers {

  /** A JavaScript value that may be `undefined`. */
  datatype Option<+T> = None | Some(value: T) {
    function GetOr(default: T): T {
      match this
      case Some(v) => v
      case None => default
    }
  }

  /** What a thrown JavaScript exception carries: an `Error` with a message, or a
      `TypeError` raised by the runtime (reading a property of `undefined`, calling
      something that is not a function), or the file-system error of reading a
      file that is not there. */
  datatype Failure = Error(message: string) | TypeError(reason: string) | ReadError(path: string)

  /** The reason of the `TypeError` raised by `undefined.includes(...)`. */
  const ReadIncludesOfUndefined := "Cannot read properties of undefined (reading 'includes')"

  /** The result of an operation that returns a value or throws. */
  datatype Result<+T> = Ok(value: T) | Err(failure: Failure) {
    predicate IsFailure() { Err? }
    function PropagateFailure<U>(): Result<U>
      requires Err?
    {
      Err(failure)
    }
    function Extract(): T
      requires Ok?
    {
      value
    }
  }
}
