/** Option and Result, the two failure-carrying datatypes the model uses in place of
    JavaScript's `undefined` returns and thrown errors. */
module Wrappers {

  datatype Option<+T> = None | Some(value: T) {
    function GetOr(default: T): T {
      match this
      case Some(v) => v
      case None => default
    }
  }

  /** `Err` carries the error the source throws (or rejects its promise with). */
  datatype Result<+T, +E> = Ok(value: T) | Err(error: E)
}
