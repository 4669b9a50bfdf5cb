/** Option and Result, used wherever the Go code returns nil or an error value. */
module Wrappers {

  /** `None` stands for Go's nil. */
  datatype Option<+T> = None | Some(value: T)

  datatype Result<+T, +E> = Success(value: T) | Failure(error: E)
}
