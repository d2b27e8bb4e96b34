/** The two wrappers the rest of the model uses: Option for a value that may be
    absent (a nullable column, a key missing from a request payload), Result for an
    operation that is either carried out or rejected with an error. */
module Results {

  datatype Option<+T> = None | Some(value: T) {
    /** The wrapped value, or `default` when there is none. */
    function GetOr(default: T): T {
      match this
      case Some(v) => v
      case None => default
    }
  }

  datatype Result<+T, +E> = Ok(value: T) | Err(error: E)
}
