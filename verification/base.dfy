/** Optional values and success/failure results, the Dafny counterparts of Swift's
    `Optional` and `Result`. */
module Base {

  /** Swift's `T?`. */
  datatype Option<+T> = None | Some(value: T) {

    /** Swift's `x ?? default`. */
    function GetOr(default: T): T {
      match this
      case Some(v) => v
      case None => default
    }
  }

  /** Swift's `Result<T, Error>`. */
  datatype Result<+T, +E> = Success(value: T) | Failure(error: E)
}
