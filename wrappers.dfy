/** Optional values: Python's `None` next to a real value. */
module Wrappers {
  datatype Option<T> = None | Some(value: T)
  {
    function UnwrapOr(default: T): (r: T)
      ensures Some? ==> r == value
      ensures None? ==> r == default
    {
      match this
      case Some(v) => v
      case None => default
    }
  }

  /** The outcome of a Python call that may raise: its value, or the fact that it raised. */
  datatype Result<T> = Ok(value: T) | Raised
}
