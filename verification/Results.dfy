/** Outcomes of operations that raise an exception in the Python programs, and optional values. */
module Results {
  datatype Option<+T> = None | Some(value: T)

  datatype Error = KeyError | ValueError | RuntimeError | IntegrityError | InputError

  datatype Result<+T> = Ok(value: T) | Err(error: Error)
}
