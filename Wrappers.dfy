/** Option and Result: absent optional fields and thrown errors of the modelled code. */
module Wrappers {

  /** An optional field: `None` stands for a missing key and for an explicit `undefined`. */
  datatype Option<+T> = None | Some(value: T) {

    /** The `??` operator: the value when present, otherwise the default. */
    function GetOr(default: T): T
    {
      match this
      case Some(v) => v
      case None => default
    }
  }

  /** A computation that either returns a value or throws an error. */
  datatype Result<+T, +E> = Ok(value: T) | Err(error: E)
}
