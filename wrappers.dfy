/** Optional values and the error results that the API procedures raise. */
module Wrappers {

  /** A value that may be absent (`null` / `undefined` in the application). */
  datatype Option<T> = None | Some(value: T)
  {
    function GetOr(default: T): T
    {
      match this
      case Some(v) => v
      case None => default
    }
  }

  /** The error codes a procedure can raise. `BadRequest` is an input rejected by the
      request schema before the procedure body runs; `ServerError` is a plain thrown `Error`. */
  datatype ApiError = BadRequest | NotFound | Forbidden | ServerError(message: string)

  /** The outcome of a procedure: a value, or the error it raises. */
  datatype Result<T> = Ok(value: T) | Err(error: ApiError)
}
