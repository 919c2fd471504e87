/** Option and Result, the two failure-carrying datatypes the model uses. */
module Wrappers {

  /** Some/None, used where the source has a nil pointer or a nil slice. */
  datatype Option<+T> = None | Some(value: T) {

    /** The wrapped value, or `default` for None. */
    function GetOr(default: T): T
    {
      match this
      case Some(v) => v
      case None => default
    }
  }

  /** A value or an error, used for the source's `(value, err)` returns. */
  datatype Result<+R, +E> = Success(value: R) | Failure(error: E)
}
