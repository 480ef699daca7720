/** Option and Result values: the absent value (Python's None) and the
    outcome of an operation that either returns a value or raises. */
module Results {

  datatype Option<+T> = None | Some(value: T)

  datatype Result<+T, +E> = Ok(value: T) | Err(error: E)
}
