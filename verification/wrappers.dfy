/** Option and Result, the two failure-carrying datatypes the model uses in
    place of Java's `null`/exceptions and JavaScript's `null`/rejections. */
module Wrappers {

  datatype Option<+T> = None | Some(value: T) {

    /** The wrapped value, or `default` when there is none. */
    function GetOr(default: T): T {
      match this
      case Some(v) => v
      case None => default
    }
  }

  /** Either a value or an error. On the client side a server call settles as
      `Success(response)` or `Failure(e)`; on the server side an operation
      returns its value or the exception it throws. */
  datatype Result<+T, +E> = Success(value: T) | Failure(error: E)
}
