/** Option for values that may be absent (a regex search, a date parse) and
    Result for the error dictionaries the handlers return instead of data. */
module Wrappers {

  datatype Option<+T> = None | Some(value: T)

  datatype Result<+R, +E> = Success(value: R) | Failure(error: E)
}
