/** Go's 64-bit integers, as ranges of the mathematical ones. */
module Machine {
  const TWO_63: int := 0x8000_0000_0000_0000
  const TWO_64: int := 0x1_0000_0000_0000_0000
  const MAX_INT64: int := 0x7FFF_FFFF_FFFF_FFFF
  const MIN_INT64: int := -0x8000_0000_0000_0000

  type int64 = n: int | -0x8000_0000_0000_0000 <= n < 0x8000_0000_0000_0000
  type u64 = n: int | 0 <= n < 0x1_0000_0000_0000_0000

  /** Two's complement: n modulo 2^64, read as signed. */
  function Wrap(n: int): int64 {
    if MIN_INT64 <= n <= MAX_INT64 then n else (n + TWO_63) % TWO_64 - TWO_63
  }

  /** Wrapping keeps the number modulo 2^64. */
  lemma WrapMeans(n: int)
    ensures -0x8000_0000_0000_0000 <= Wrap(n) < 0x8000_0000_0000_0000
    ensures (n - Wrap(n)) % 0x1_0000_0000_0000_0000 == 0
  {
  }
}
