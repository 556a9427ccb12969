/** Failure and absence values shared by the model. */
module Outcomes {

  datatype Option<+T> = None | Some(value: T) {

    /** The value, or `default` when there is none. */
    function GetOr(default: T): T {
      if Some? then value else default
    }
  }

  /** The first of two optional values that is present: the newer one wins. */
  function Coalesce<T>(newer: Option<T>, older: Option<T>): Option<T> {
    if newer.Some? then newer else older
  }

  datatype Result<+T, +E> = Ok(value: T) | Err(error: E)
}
