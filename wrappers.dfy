/** Optional values and results, standing for JavaScript's undefined/null and thrown errors. */
module Wrappers {

  /** A value that may be absent: a missing storage key, a null field, an undefined property. */
  datatype Option<+T> = None | Some(value: T) {

    /** `x || default` for a value that is truthy whenever present. */
    function GetOr(default: T): T {
      match this
      case Some(v) => v
      case None => default
    }
  }

  /** The outcome of an operation that either returns or throws. */
  datatype Result<+R, +E> = Success(value: R) | Failure(error: E)
}
