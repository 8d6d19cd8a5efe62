/** Failure-carrying datatypes used throughout the model. */
module Wrappers {

  /** An optional value: a JSON key that may be absent, or a lookup that may miss. */
  datatype Option<+T> = None | Some(value: T) {

    /** The wrapped value, or `default` when there is none (Python's `dict.get(key, default)`). */
    function GetOr(default: T): T {
      match this
      case Some(v) => v
      case None => default
    }
  }

  /** Either a computed value or the error that ends the run. */
  datatype Result<+R, +E> = Success(value: R) | Failure(error: E)
}
