/** Optional values and results with an error: the absent JavaScript property
    or null option, and the rejected promise of a failed request. */
module Outcomes {

  datatype Option<+T> = None | Some(value: T)

  datatype Result<+T, +E> = Success(value: T) | Failure(error: E)
}
