/** Failure-compatible wrappers shared by the model: a missing value and a
    value-or-error, standing for the source's exceptions. */
module Results {

  datatype Option<+T> = None | Some(value: T)

  datatype Result<+T, +E> = Ok(value: T) | Err(error: E)
}
