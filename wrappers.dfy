/** Option and Result datatypes shared by the other modules. */
module Wrappers {

  /** An optional value: `None` stands for a missing cell or an absent answer. */
  datatype Option<+T> = None | Some(value: T)

  /** The outcome of a step that may raise. */
  datatype Result<+R, +E> = Success(value: R) | Failure(error: E)
}
