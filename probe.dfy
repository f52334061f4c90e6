/**
 * The probe of `binarySearch` and `keyedBinarySearch` in
 * src/renderer/src/search.ts as the code computes it, against the exact
 * midpoint the model of the search uses.
 */
module SearchProbe {
  import opened SortedSearch

  /** JavaScript's `ToInt32`: the integer modulo 2^32, read as a signed 32-bit value. */
  function ToInt32(x: int): (r: int)
    ensures -0x8000_0000 <= r < 0x8000_0000
    ensures (r - x) % 0x1_0000_0000 == 0
  {
    var w := x % 0x1_0000_0000;
    if w >= 0x8000_0000 then w - 0x1_0000_0000 else w
  }

  /**
   * The probe exactly as written: `>>` applies `ToInt32` to `n + m` and
   * then halves rounding down, as Dafny's `/ 2` does.
   */
  function Midpoint32(m: int, n: int): int
  {
    ToInt32(m + n) / 2
  }

  /** Below 2^31 the written probe is the exact midpoint. */
  lemma Midpoint32Agrees(m: int, n: int)
    requires 0 <= m <= n && m + n < 0x8000_0000
    ensures Midpoint32(m, n) == Midpoint(m, n)
  {
  }

  /**
   * On an array of 2^31 + 1 elements the very first probe, with `m = 0`
   * and `n = 2^31`, is negative: `array[k]` reads `undefined`.
   */
  lemma Midpoint32Wraps()
    ensures Midpoint32(0, 0x8000_0000) == -0x4000_0000
    ensures Midpoint(0, 0x8000_0000) == 0x4000_0000
  {
  }
}
