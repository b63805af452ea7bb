/** Option and Result, the two failure-carrying datatypes the model uses
    for nullable references and for exceptions. */
module Wrappers {

  /** A .NET reference that may be null. */
  datatype Option<+T> = None | Some(value: T) {
    function GetOr(default: T): T {
      match this
      case Some(v) => v
      case None => default
    }
  }

  /** The outcome of an operation that may throw. */
  datatype Result<+R, +E> = Success(value: R) | Failure(error: E)
}
