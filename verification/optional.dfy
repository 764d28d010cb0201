/** Option and Result, the shapes the Go code's "value or nothing" returns take in this model
    (a nil pointer, an unset header, an error that may or may not be present, a value paired
    with an error). */
module Optional {

  datatype Option<+T> = None | Some(value: T) {
    function GetOr(default: T): T {
      match this
      case Some(v) => v
      case None => default
    }
  }

  /** A Go `(value, error)` pair where the value is meaningless once the error is non-nil. */
  datatype Result<+T> = Ok(value: T) | Err(error: string)
}
