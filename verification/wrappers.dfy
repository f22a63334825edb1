/** The outcome of an operation that the Python code can abort by raising. */
module Wrappers {

  /** Either the value an operation returns or the error it raises. */
  datatype Result<+T, +E> = Success(value: T) | Failure(error: E)
}
