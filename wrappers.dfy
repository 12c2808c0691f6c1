/** Option and Result: Go's nil pointer and its `(value, error)` pairs. */
module Wrappers {

  /** A nullable value: `None` stands for Go's nil pointer. */
  datatype Option<+T> = None | Some(value: T)

  /** A Go `(value, error)` pair where exactly one side is meaningful. */
  datatype Result<+T, +E> = Success(value: T) | Failure(error: E)
}
