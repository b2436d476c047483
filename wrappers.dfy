/** Option and Result values for the places where the calendar code returns
    `null` or gives up early. */
module Wrappers {

  datatype Option<+T> = None | Some(value: T)

  datatype Result<+T, +E> = Success(value: T) | Failure(error: E)
}
