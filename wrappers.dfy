/** Optional values and success-or-failure results, shared by the other modules. */
module Wrappers {

  /** A value that may be absent: a field the client left out, or a column
      holding NULL. */
  datatype Option<+T> = None | Some(value: T) {

    /** The carried value, or `default` when there is none. */
    function GetOr(default: T): T
    {
      match this
      case Some(v) => v
      case None => default
    }
  }

  /** The outcome of a request: the value it produces, or the error it is rejected with. */
  datatype Result<+T, +E> = Success(value: T) | Failure(error: E)
}
