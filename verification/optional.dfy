/** PHP's "value or null", as an explicit datatype. */
module Optional {

  datatype Option<+T> = None | Some(value: T) {

    /** The wrapped value, or `default` when there is none. */
    function GetOr(default: T): T {
      match this
      case Some(v) => v
      case None => default
    }
  }

  /** A result that either carries a value or the message of the exception the source throws. */
  datatype Result<+T> = Ok(value: T) | Error(message: string)
}
