/** Shared value wrappers: a missing or NaN value, and a call that may raise. */
module Wrappers {
  /** `None` stands for a missing key, a NaN cell or a Python `None`. */
  datatype Option<T> = None | Some(value: T)
  {
    predicate IsSome() { this.Some? }

    function GetOr(default: T): (r: T)
      ensures this.Some? ==> r == value
      ensures this.None? ==> r == default
    {
      match this
      case Some(v) => v
      case None => default
    }
  }

  /** A call that either returns a value or raises the named exception. */
  datatype Result<T> = Ok(value: T) | Err(error: string)
}
