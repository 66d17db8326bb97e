/** Option and Result values shared by the modules of this model. */
module Wrappers {

  /** Python's `None` versus a present value. */
  datatype Option<+T> = None | Some(value: T)

  /** A computation that either returns a value or raises an exception,
      the exception being described by its message. */
  datatype Result<+R> = Success(value: R) | Failure(error: string)
}
