/** What several components share. */
module Basics {
  datatype Option<+T> = None | Some(value: T)

  type Byte = bv8

  function Min(a: int, b: int): int { if a < b then a else b }

  function Max(a: int, b: int): int { if a < b then b else a }
}
