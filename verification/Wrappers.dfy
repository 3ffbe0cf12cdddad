/** Option and Result, for the source's nil pointers and error returns. */
module Wrappers {

  datatype Option<+T> = None | Some(value: T) {

    /** The value, or the given default: Go's zero value of an unset field. */
    function GetOr(default: T): T {
      if Some? then value else default
    }
  }

  datatype Result<+T, +E> = Success(value: T) | Failure(error: E)
}
