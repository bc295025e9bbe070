/** Option and Result values, used where the program either has no value
    (a cursor that is absent) or stops with an exception. */
module Wrappers {

  datatype Option<+T> = None | Some(value: T)

  datatype Result<+T, +E> = Success(value: T) | Failure(error: E)
}
