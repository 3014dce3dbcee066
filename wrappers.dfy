/** Success/failure values for the operations of the model that raise errors in the source. */
module Wrappers {

  datatype Option<+T> = None | Some(value: T)

  /** The outcome of a validator: the accepted value, or the validation error it raises. */
  datatype Result<+R, +E> = Success(value: R) | Failure(error: E)
}
