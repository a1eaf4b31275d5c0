/** The integers and optional values of the program. */
module Machine {

  const MAX_INT64: int := 0x7FFF_FFFF_FFFF_FFFF
  const MIN_INT64: int := -0x8000_0000_0000_0000

  datatype Option<+T> = None | Some(value: T)

  type Time = int

  function Min(a: int, b: int): int { if a < b then a else b }

  predicate InInt64(x: int) { MIN_INT64 <= x <= MAX_INT64 }

  /** Two's complement wrap-around of a 64-bit sum or product. */
  function Wrap64(x: int): int {
    (x - MIN_INT64) % (MAX_INT64 - MIN_INT64 + 1) + MIN_INT64
  }

  /** The bounds are compared without wrapping: MaxInt64-b and MinInt64-b never wrap for the b they are used with. */
  predicate WouldOverflow(a: int, b: int) {
    (b > 0 && a > MAX_INT64 - b) || (b < 0 && a < MIN_INT64 - b)
  }
}
