/** Optional values: JavaScript's `null`/`undefined` results and NaN parses. */
module Wrappers {
  datatype Option<+T> = None | Some(value: T)
  {
    /** `x ?? fallback`. */
    function GetOr(fallback: T): T
    {
      match this
      case Some(v) => v
      case None => fallback
    }
  }

  datatype Result<+T, +E> = Ok(value: T) | Err(error: E)
}
