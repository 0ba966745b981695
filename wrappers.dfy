/** Option and Result values, used where the application has `null`,
    `undefined`, an optional field, or an exception. */
module Wrappers {

  datatype Option<+T> = None | Some(value: T)

  datatype Result<+R, +E> = Success(value: R) | Failure(error: E)
}
