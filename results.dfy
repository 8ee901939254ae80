/** Failure-carrying values shared by the whole model: Rust's `Option` and the
    `anyhow::Result` used throughout the scanner, whose error is a message. */
module Results {

  datatype Option<T> = None | Some(value: T)

  datatype Result<T> = Ok(value: T) | Err(error: string)
}
