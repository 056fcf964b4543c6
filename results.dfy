/** The success-or-failure value that Rust's `Result<T, E>` stands for. */
module Results {

  datatype Result<+T, +E> = Ok(value: T) | Err(error: E)
}
