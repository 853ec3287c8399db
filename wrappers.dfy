/** Option and Result, used for the nullable values and the thrown errors of the bot. */
module Wrappers {
  datatype Option<T> = None | Some(value: T)
  {
    function UnwrapOr(default: T): T
    {
      match this
      case Some(v) => v
      case None => default
    }
  }

  /** A value or the message of the error a call raised. */
  datatype Result<T> = Ok(value: T) | Err(error: string)
}
