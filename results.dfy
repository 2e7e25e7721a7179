/** Failure-aware wrappers used by every module: PHP's exceptions become Err/Fail values. */
module Results {

  datatype Option<+T> = None | Some(value: T) {
    /** The wrapped value, or `default` when there is none. */
    function GetOr(default: T): T {
      match this
      case Some(v) => v
      case None => default
    }
  }

  /** The outcome of an operation that computes a value or raises an error. */
  datatype Result<+T, +E> = Ok(value: T) | Err(error: E)

  /** The outcome of an operation that only changes state or raises an error. */
  datatype Outcome<+E> = Pass | Fail(error: E)
}
