/** Option and Result: the model's counterparts of C# null and of an exception raised by the store. */
module Wrappers {

  /** `None` stands for a C# `null` result. */
  datatype Option<+T> = None | Some(value: T)

  /** `Failure` stands for an exception that propagates out of a call. */
  datatype Result<+T, +E> = Success(value: T) | Failure(error: E)
}
