/** Small types shared by every module of the project. */
module Prelude {

  datatype Option<+T> = None | Some(value: T)

  datatype Result<+T, +E> = Ok(value: T) | Err(error: E)

  /** Instants and durations, in any fixed unit. */
  type Time = int

  function Min(a: int, b: int): int {
    if a < b then a else b
  }
}
