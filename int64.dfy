/** Go's int64: its bounds and the two's-complement wrap-around of its arithmetic. */
module Int64 {

  const MinInt64: int := -0x8000_0000_0000_0000
  const MaxInt64: int := 0x7fff_ffff_ffff_ffff
  const Modulus: int := 0x1_0000_0000_0000_0000

  predicate InRange(x: int) { MinInt64 <= x <= MaxInt64 }

  /** The int64 that an overflowing Go multiplication leaves behind: the only
      int64 congruent to the exact result modulo 2^64. */
  function Wrap64(x: int): (r: int)
    ensures InRange(r)
    ensures (r - x) % Modulus == 0
  {
    (x - MinInt64) % Modulus + MinInt64
  }

  /** Arithmetic that stays in range is not changed by wrapping. */
  lemma Wrap64Exact(x: int)
    requires InRange(x)
    ensures Wrap64(x) == x
  {
  }
}
