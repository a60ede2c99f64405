/** Go's int64 arithmetic, on unbounded integers. */
module Int64 {

  const MAX := 0x7fff_ffff_ffff_ffff

  /** The value left after an int64 operation overflows. */
  function Wrap64(x: int): int {
    (x + 0x8000_0000_0000_0000) % 0x1_0000_0000_0000_0000 - 0x8000_0000_0000_0000
  }

  /** Division that truncates toward zero. */
  function TruncDiv(x: int, d: int): int
    requires d > 0
  {
    if x >= 0 then x / d else -(-x / d)
  }
}
