/** Failure-compatible helper datatypes shared by the whole model. */
module Wrappers {

  /** A value that may be missing: a key absent from a JSON object, or JavaScript `null`. */
  datatype Option<+T> = None | Some(value: T) {

    /** The carried value, or `default` when there is none (Python's `dict.get(key, default)`). */
    function GetOr(default: T): T {
      match this
      case Some(v) => v
      case None => default
    }
  }

  /** Either a computed value or the exception the Python code would raise. */
  datatype Result<+R, +E> = Success(value: R) | Failure(error: E)
}
