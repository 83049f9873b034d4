/** Failure-compatible result types shared by the model. */
module Wrappers {

  /** An optional value: `None` stands for Python's `None` or an absent key. */
  datatype Option<+T> = None | Some(value: T)

  /** The outcome of an operation that may raise. */
  datatype Result<+R, +E> = Success(value: R) | Failure(error: E)
}
