/** Optional values and results with an error, used in place of Python's
    `None` and of the exceptions the handlers raise. */
module Results {

  datatype Option<+T> = None | Some(value: T)

  datatype Result<+T, +E> = Ok(value: T) | Err(error: E)
}
