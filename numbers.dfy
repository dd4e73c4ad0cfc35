/** JavaScript's `Math.round` on exact reals. */
module Numbers {

  /** `Math.round(x)`: the nearest integer, halves rounded up. */
  function Round(x: real): (r: int)
    ensures r as real - 0.5 <= x < r as real + 0.5
  {
    (x + 0.5).Floor
  }

  /** `Math.round` is determined by its rounding window: only one integer
      lies within half a unit below or above `x`. */
  lemma RoundUnique(x: real, n: int)
    requires n as real - 0.5 <= x < n as real + 0.5
    ensures Round(x) == n
  {
  }

  /** Rounding never reverses the order of two values. */
  lemma RoundMonotonic(x: real, y: real)
    requires x <= y
    ensures Round(x) <= Round(y)
  {
  }

  /** A score in [0, 1], scaled to a percentage and rounded, lies in 0..100. */
  lemma RoundPercentBounds(c: real)
    requires 0.0 <= c <= 1.0
    ensures 0 <= Round(c * 100.0) <= 100
  {
    RoundMonotonic(0.0, c * 100.0);
    RoundMonotonic(c * 100.0, 100.0);
    RoundUnique(0.0, 0);
    RoundUnique(100.0, 100);
  }
}
