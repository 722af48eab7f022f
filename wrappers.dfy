/** Option and Result values for lookups that may find nothing and for
    operations that the source lets throw. */
module Wrappers {

  datatype Option<+T> = None | Some(value: T)

  datatype Result<+R, +E> = Success(value: R) | Failure(error: E)
}
