/** Success-or-failure values standing in for the exceptions the service throws, and
    optional values standing in for unset configuration. */
module Wrappers {

  datatype Option<+T> = None | Some(value: T)

  datatype Result<+R, +E> = Success(value: R) | Failure(error: E)
}
