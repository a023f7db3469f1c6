/** Optional values and results: Ruby's `nil` and raised errors, made explicit. */
module Wrappers {

  /** `None` stands for Ruby's `nil`. */
  datatype Option<+T> = None | Some(value: T)

  /** `Failure` stands for an exception raised out of the operation. */
  datatype Result<+T, +E> = Success(value: T) | Failure(error: E)
}
