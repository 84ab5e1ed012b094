/** The option and result types shared by the model. */
module Wrappers {

  datatype Option<+T> = None | Some(value: T)

  /** A value, or the exception the original raises. */
  datatype Result<+T, +E> = Success(value: T) | Failure(error: E) {
    function Extract(): T
      requires Success?
    {
      value
    }
  }
}
