/** Optional values and results with an error case, used by every module of the model. */
module Results {

  /** A value that may be absent (a missing key, a JavaScript `undefined`, a failed call). */
  datatype Option<+T> = None | Some(value: T)

  /** The outcome of an operation that either produces a value or raises / returns an error. */
  datatype Result<+T, +E> = Ok(value: T) | Err(error: E)
}
