/** Result types shared by the modules of the model. */
module Common {
  datatype Option<+T> = None | Some(value: T)

  /** The committed value of a transaction, or the refusal that rolled it back. */
  datatype Outcome<+T, +E> = Ok(value: T) | Err(error: E)

  function Min(a: int, b: int): int {
    if a <= b then a else b
  }

  function Max(a: int, b: int): int {
    if a >= b then a else b
  }
}
