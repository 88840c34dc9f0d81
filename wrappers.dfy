/** Optional values and error results shared by every module of the model. */
module Wrappers {
  /** A value that may be absent: JSON `null`/`undefined`, Python `None`. */
  datatype Option<T> = None | Some(value: T)
  {
    function GetOr(default: T): T
    {
      match this
      case None => default
      case Some(v) => v
    }
  }

  /** The outcome of an operation that may raise or return an error response. */
  datatype Result<T> = Ok(value: T) | Err(error: string)
  {
    predicate IsFailure() { Err? }
  }
}
