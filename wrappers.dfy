/** Option and Result, for the values the field expresses with `null` and with exceptions. */
module Wrappers {

  datatype Option<+T> = None | Some(value: T) {
    /** `$x ?? $default` */
    function GetOr(default: T): T {
      if Some? then value else default
    }
  }

  datatype Result<+T, +E> = Ok(value: T) | Err(error: E)
}
