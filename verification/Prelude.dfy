/** Small vocabulary shared by every component of the model. */
module Prelude {

  /** Rows are named by natural numbers; a fresh UUID is a number not used so far. */
  type Id = nat

  /** Actors are named by the text of their identifier, because rankings hash that text. */
  type ActorId = string

  datatype Option<+T> = None | Some(value: T)

  datatype Result<+T, +E> = Ok(value: T) | Err(error: E)

  function Min(a: int, b: int): int { if a <= b then a else b }

  function Max(a: int, b: int): int { if a <= b then b else a }
}
