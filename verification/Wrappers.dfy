/** Results of computations that may be absent or may fail. */
module Wrappers {
  datatype Option<+T> = None | Some(value: T)

  datatype Result<+T, +E> = Success(value: T) | Failure(error: E)

  /** What becomes of a statement: its effect, an error in its stead, or both. */
  datatype Mutation = Done | Refused | DoneButFailed
}
