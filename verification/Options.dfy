/** Small result types shared by the model. */
module Options {

  /** A value the source may leave null or undefined. */
  datatype Option<+T> = None | Some(value: T) {

    function GetOr(default: T): T {
      match this
      case Some(v) => v
      case None => default
    }
  }

  /** The outcome of an operation that throws in the source. */
  datatype Result<+T, +E> = Ok(value: T) | Err(error: E)
}
