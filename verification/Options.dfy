/** A value that may be missing, and the outcome of reading what may be damaged. */
module Options {
  datatype Option<+T> = None | Some(value: T)
  datatype Result<+T> = Ok(value: T) | Corruption(message: string)
}
