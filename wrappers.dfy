/** Option and Result, for absent arguments and for thrown errors. */
module Wrappers {

  datatype Option<+T> = None | Some(value: T)

  /** `Failure` stands for an exception the source throws, carrying its message. */
  datatype Result<+T, +E> = Success(value: T) | Failure(error: E)
}
