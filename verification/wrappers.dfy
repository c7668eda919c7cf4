/** Failure-compatible wrappers used across the model: `Option` for Java's nullable
    references and `Result` for operations that can throw. */
module Wrappers {

  datatype Option<+T> = None | Some(value: T)

  datatype Result<+R, +E> = Success(value: R) | Failure(error: E)
}
