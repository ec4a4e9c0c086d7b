/** Optional values and success-or-error results, used for lookups that may
    miss and for the `{ user, error }` replies of the authentication service. */
module Wrappers {

  datatype Option<+T> = None | Some(value: T)

  datatype Result<+R, +E> = Success(value: R) | Failure(error: E)
}
