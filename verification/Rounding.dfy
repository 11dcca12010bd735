/** `Math.round` of an exact quotient. */
module Rounding {

  /** The nearest whole number, halves upward. */
  function RoundHalfUp(n: nat, d: nat): (q: nat)
    requires d > 0
  {
    (2 * n + d) / (2 * d)
  }

  lemma RoundsToNearest(n: nat, d: nat)
    requires d > 0
    ensures 2 * n - d < 2 * (d * RoundHalfUp(n, d)) <= 2 * n + d
  {
    var q := RoundHalfUp(n, d);
    assert 2 * d * q <= 2 * n + d < 2 * d * q + 2 * d;
    assert 2 * d * q == 2 * (d * q);
  }
}
