/** Option and Result: the null-or-value and success-or-error shapes the services return. */
module Wrappers {

  /** A value that may be absent: the model of a C# reference that may be null. */
  datatype Option<+T> = None | Some(value: T)

  /** A success carrying a value, or a failure carrying an error. */
  datatype Result<+R, +E> = Success(value: R) | Failure(error: E)
}
