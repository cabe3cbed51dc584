/** Option and Result values shared by the modules of this model. */
module Wrappers {

  datatype Option<+T> = None | Some(value: T)

  /** The outcome of an operation that can throw: `Failure` carries the error message. */
  datatype Result<+R> = Success(value: R) | Failure(message: string)
}
