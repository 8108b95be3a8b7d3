/** Products of reals under a name of their own, so that proofs can use their laws one at a time. */
module Reals {

  function Mul(a: real, b: real): real { a * b }

  lemma MulOrder(a: real, b: real, c: real)
    requires c > 0.0
    ensures Mul(a, c) <= Mul(b, c) <==> a <= b
    ensures Mul(a, c) < Mul(b, c) <==> a < b
  {
  }

  lemma MulLinear(a: real, b: real, c: real)
    ensures Mul(a - b, c) == Mul(a, c) - Mul(b, c)
    ensures Mul(a + b, c) == Mul(a, c) + Mul(b, c)
    ensures Mul(1.0, c) == c && Mul(0.0, c) == 0.0 && Mul(a, c) == Mul(c, a) && Mul(b, c) == Mul(c, b)
  {
  }

  lemma MulAssociative(a: real, b: real, c: real)
    ensures Mul(Mul(a, b), c) == Mul(a, Mul(b, c))
  {
  }

  lemma DivIs(a: real, b: real)
    requires b != 0.0
    ensures Mul(a / b, b) == a
  {
  }

  lemma DivOrder(a: real, b: real, c: real)
    requires b > 0.0
    ensures a / b <= c <==> a <= Mul(c, b)
    ensures c <= a / b <==> Mul(c, b) <= a
  {
  }
}
