/** Option and Result, the two failure-carrying shapes the model uses for Python's
    `None` returns and raised exceptions. */
module Wrappers {

  datatype Option<+T> = None | Some(value: T) {
    /** The value, or `default` when absent (Python's `d.get(key, default)`). */
    function GetOr(default: T): T {
      match this
      case Some(v) => v
      case None => default
    }
  }

  /** `Err` stands for an exception that the source lets propagate. */
  datatype Result<+T, +E> = Ok(value: T) | Err(error: E)
}
