/** Small vocabulary shared by the models. */
module Prelude {
  datatype Option<+T> = None | Some(value: T)

  newtype byte = x: int | 0 <= x < 256

  type Data = seq<byte>

  function Min(a: int, b: int): int { if a < b then a else b }

  function Max(a: int, b: int): int { if a < b then b else a }
}
