/** Option and Result, used for Python's `None` and for the exceptions the modelled code raises. */
module Wrappers {

  datatype Option<+T> = None | Some(value: T) {

    /** The value, or `default` when there is none (Python's `dict.get(key, default)`). */
    function GetOr(default: T): T
    {
      match this
      case Some(v) => v
      case None => default
    }
  }

  /** `Err` stands for an exception that the modelled code lets propagate. */
  datatype Result<+T, +E> = Ok(value: T) | Err(error: E)
}
