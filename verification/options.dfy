/** Optional values and success-or-error results, used for Python's "missing
    value" (None) and for the not-found errors the views raise. */
module Options {

  datatype Option<+T> = None | Some(value: T)

  datatype Result<+T, +E> = Success(value: T) | Failure(error: E)
}
