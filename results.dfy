/** Option and Result, for optional settings and for the source's exceptions. */
module Results {

  datatype Option<+T> = None | Some(value: T)
  {
    /** The value, or a default when there is none (Python's `dict.get`-style fallback). */
    function GetOr(default: T): (r: T)
      ensures Some? ==> r == value
      ensures None? ==> r == default
    {
      match this
      case Some(v) => v
      case None => default
    }
  }

  datatype Result<+R, +E> = Success(value: R) | Failure(error: E)
}
