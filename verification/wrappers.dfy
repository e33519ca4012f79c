/** Failure-compatible wrappers: `Option` for the source's `null`/`undefined`
    and `Result` for Rust `Result` values and panics. */
module Wrappers {

  datatype Option<+T> = None | Some(value: T) {

    /** The wrapped value, or `default` when there is none. */
    function GetOr(default: T): T {
      match this
      case Some(v) => v
      case None => default
    }
  }

  datatype Result<+T, +E> = Ok(value: T) | Err(error: E) {

    /** Applies `f` to a success value and passes an error through. */
    function MapOk<U>(f: T -> U): Result<U, E> {
      match this
      case Ok(v) => Ok(f(v))
      case Err(e) => Err(e)
    }
  }
}
