/** Small shared vocabulary: optional values (Go's nil pointers and missing map
    entries), absolute value on reals, and Go's truncating integer halving. */
module Prelude {

  /** A value that may be absent; Go code expresses this with a nil pointer. */
  datatype Option<+T> = None | Some(value: T)

  function Abs(r: real): (a: real)
    ensures a >= 0.0
    ensures a == r || a == -r
  {
    if r < 0.0 then -r else r
  }

  /** Go's `n / 2` on int: the quotient truncated toward zero. */
  function GoHalf(n: int): (h: int)
    ensures n >= 0 ==> 0 <= h && 2 * h <= n < 2 * h + 2
    ensures n < 0 ==> h <= 0 && 2 * h - 2 < n <= 2 * h
  {
    if n >= 0 then n / 2 else -((-n) / 2)
  }
}
