/** Failure-carrying result types shared by the other modules. */
module Wrappers {

  /** An optional value: `None` stands for an absent or unusable value. */
  datatype Option<+T> = None | Some(value: T)

  /** The outcome of an operation that can fail: `Failure` carries the message
      of the exception the operation would have thrown. */
  datatype Result<+R, +E> = Success(value: R) | Failure(error: E)
}
