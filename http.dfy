/** Values shared by every handler: optional values and the error-or-value result that an
    Express handler produces (a status code and a message passed to the error middleware,
    or a success payload). */
module Http {

  datatype Option<+T> = None | Some(value: T) {
    function GetOr(default: T): T {
      match this
      case Some(v) => v
      case None => default
    }
  }

  /** `Err(status, message)` is an `ErrorHandler(message, status)` handed to `next`. */
  datatype Result<+T> = Ok(value: T) | Err(status: int, message: string) {
    predicate IsFailure() { Err? }

    function PropagateFailure<U>(): Result<U>
      requires Err?
    {
      Err(status, message)
    }

    function Extract(): T
      requires Ok?
    {
      value
    }
  }
}
