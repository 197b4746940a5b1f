/**
 The few facts about products and quotients of reals that the solver needs spelled out.
 */
module RealArithmetic {

  function Abs(x: real): real { if x < 0.0 then -x else x }

  lemma MulLe(k: real, a: real, b: real)
    requires k >= 0.0 && a <= b
    ensures k * a <= k * b
  {
  }

  lemma MulLt(k: real, a: real, b: real)
    requires k > 0.0 && a < b
    ensures k * a < k * b
  {
  }

  lemma DivCancels(a: real, b: real)
    requires b != 0.0
    ensures (a / b) * b == a
  {
  }

  lemma LtByProduct(a: real, b: real, d: real)
    requires d > 0.0 && a * d < b * d
    ensures a < b
  {
  }

  lemma AbsProduct(e: real, d: real)
    requires d >= 0.0
    ensures Abs(e * d) == Abs(e) * d
  {
  }

  lemma Distribute(a: real, b: real, d: real)
    ensures (a + b) * d == a * d + b * d
  {
  }
}
