/** Small shared vocabulary: optional values, bytes and powers of two. */
module Prelude {

  datatype Option<+T> = None | Some(value: T)

  type Byte = x: int | 0 <= x < 256

  type Bytes = seq<Byte>

  function Min(a: int, b: int): int {
    if a <= b then a else b
  }

  function Max(a: int, b: int): int {
    if a <= b then b else a
  }

  function Pow2(n: nat): (p: nat)
    ensures p >= 1
  {
    if n == 0 then 1 else 2 * Pow2(n - 1)
  }
}
