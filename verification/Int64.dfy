/** Go's int64, as far as the sign of a number is concerned. */
module Int64 {
  const MIN_INT64 := -0x8000_0000_0000_0000
  const MAX_INT64 := 0x7FFF_FFFF_FFFF_FFFF

  type Int64 = n: int | MIN_INT64 <= n <= MAX_INT64

  /** `-n`: the minimum has no positive counterpart and wraps to itself. */
  function Negate(n: Int64): Int64 {
    if n == MIN_INT64 then MIN_INT64 else -n
  }
}
