/** Option and Result, for absent values and for the exceptions the source throws. */
module Wrappers {

  datatype Option<+V> = None | Some(value: V)

  datatype Result<+V, +E> = Success(value: V) | Failure(error: E)
}
