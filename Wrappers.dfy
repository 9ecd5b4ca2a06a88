/** Failure-carrying values used where the Python code returns None or raises. */
module Wrappers {
  datatype Option<T> = None | Some(value: T) {
    /** The contained value, or `default` for None (Python's `x if x is not None else default`). */
    function GetOr(default: T): T {
      if Some? then value else default
    }
  }

  /** Ok carries the normal return value; Err the exception the Python code would raise. */
  datatype Result<T, E> = Ok(value: T) | Err(error: E)
}
