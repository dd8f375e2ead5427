/** Success or failure of an operation that the source reports by throwing. */
module Results {
  datatype Result<T, E> = Ok(value: T) | Err(error: E)
}
