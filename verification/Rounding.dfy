/** Rounding to a number of decimal places, halves away from zero. */
module Rounding {

  function Nearest(x: real): int { (x + 0.5).Floor }

  /** Rounds to multiples of 1 / scale. */
  function RoundTo(x: real, scale: real): real
    requires scale > 0.0
  {
    if x >= 0.0 then Nearest(x * scale) as real / scale else -(Nearest(-x * scale) as real / scale)
  }

  /** To cents. */
  function Round2(x: real): real { RoundTo(x, 100.0) }

  /** Never off by more than half a cent. */
  lemma RoundedIsNear(x: real)
    ensures -0.005 <= Round2(x) - x <= 0.005
    ensures x >= 0.0 ==> Round2(x) >= 0.0
  {
  }

  /** Nor by more than half of the eighth decimal place. */
  lemma RoundedToEight(x: real)
    ensures -0.000000005 <= RoundTo(x, 100000000.0) - x <= 0.000000005
  {
  }

  /** Prices more than a cent apart stay apart, the lower below the upper. */
  lemma RoundKeepsApart(x: real, y: real)
    requires y - x > 0.01
    ensures Round2(x) < Round2(y)
  {
  }

  /** Rounding to cents keeps the order of prices. */
  lemma RoundKeepsOrder(x: real, y: real)
    requires x <= y
    ensures Round2(x) <= Round2(y)
  {
    hide Nearest;
    NearestKeepsOrder(x * 100.0, y * 100.0);
    NearestKeepsOrder(-y * 100.0, -x * 100.0);
    NearestKeepsSign(y * 100.0);
    NearestKeepsSign(-x * 100.0);
  }

  lemma NearestKeepsOrder(x: real, y: real)
    requires x <= y
    ensures Nearest(x) <= Nearest(y)
  {
  }

  lemma NearestKeepsSign(x: real)
    ensures x >= 0.0 ==> Nearest(x) >= 0
  {
  }
}
