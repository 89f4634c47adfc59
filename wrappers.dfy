// Optional values and results with an error, used wherever the source returns
// None / undefined or raises.

module Wrappers {

  datatype Option<T> = None | Some(value: T)

  datatype Result<T, E> = Success(value: T) | Failure(error: E)
}
