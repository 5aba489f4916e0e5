/** Optional values and results with an error, shared by the modules of this model. */
module Wrappers {

  /** A value that may be absent: TypeScript's `T | null` or an optional property. */
  datatype Option<+T> = None | Some(value: T) {

    /** The value, or `default` when absent. */
    function GetOr(default: T): T {
      match this
      case Some(v) => v
      case None => default
    }
  }

  /** The outcome of an operation that either returns a value or fails (throws) with an error. */
  datatype Result<+R, +E> = Ok(value: R) | Err(error: E)
}
