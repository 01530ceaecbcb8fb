/** The nullable and the throwing outcomes of the modelled C# code. */
module Wrappers {

  /** A C# nullable value: `None` stands for `null`. */
  datatype Option<+T> = None | Some(value: T)

  /** A call that either returns a value or throws an exception. */
  datatype Result<+R, +E> = Success(value: R) | Failure(error: E)
}
