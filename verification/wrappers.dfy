/** Failure-carrying result types shared by the container models. */
module Wrappers {

  /** An optional value: `None` stands for "nothing here". */
  datatype Option<+T> = None | Some(value: T)

  /** The outcome of a fallible call: its value or its error. */
  datatype Result<+R, +E> = Success(value: R) | Failure(error: E)
}
