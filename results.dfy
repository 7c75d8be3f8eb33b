/** Failure-carrying results: the model's stand-in for Python's `None` and for raised exceptions. */
module Results {

  /** A value that may be absent, as `OrderedDict.get` returns `None` for a missing key. */
  datatype Option<+T> = None | Some(value: T)

  /** Either a value or the error a Python call would have raised. */
  datatype Result<+R, +E> = Success(value: R) | Failure(error: E)

  /** The outcome of a call that returns nothing on success. */
  datatype Outcome<+E> = Pass | Fail(error: E)
}
