/** The two wrappers used across the model: `Option` for Python's "value or
    None" and `Result` for "value or raised exception". */
module Results {

  datatype Option<+T> = None | Some(value: T)

  datatype Result<+R, +E> = Success(value: R) | Failure(error: E)
}
