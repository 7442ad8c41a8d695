/** The `Result<T, E>` return type used by every fallible operation of the tracker. */
module Results {

  datatype Result<+T, +E> = Ok(value: T) | Err(error: E)

}
