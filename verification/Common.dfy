/** Small failure-carrying datatypes shared by the modules of this model. */
module Common {

  /** A value that may be absent: a nullable column, an optional query row. */
  datatype Option<+T> = None | Some(value: T) {
    /** The `??` operator of the source language: the value, or `default` when absent. */
    function GetOr(default: T): T {
      match this
      case Some(v) => v
      case None => default
    }
  }

  /** The outcome of an operation that either yields a value or throws. */
  datatype Result<+T, +E> = Ok(value: T) | Err(error: E)

  /** The outcome of an operation that yields nothing or throws. */
  datatype Outcome<+E> = Pass | Fail(error: E)
}
