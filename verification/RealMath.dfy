/** Exact real arithmetic shared by the models: signs, extremes and quotients. */
module RealMath {

  type Positive = x: real | x > 0.0 witness 1.0
  type NonNegative = x: real | x >= 0.0

  function Min(a: real, b: real): real {
    if a <= b then a else b
  }

  function Max(a: real, b: real): real {
    if a >= b then a else b
  }

  function RealAbs(x: real): real {
    if x < 0.0 then -x else x
  }

  function Times(x: real, y: real): real {
    x * y
  }

  /** n times x. */
  function Copies(n: nat, x: real): real {
    n as real * x
  }

  lemma OneMore(n: nat, x: real)
    ensures Copies(n + 1, x) == Copies(n, x) + x
    ensures Copies(0, x) == 0.0
    ensures x >= 0.0 ==> Copies(n, x) >= 0.0
  {
  }

  lemma Cancel(x: real, y: real)
    requires y != 0.0
    ensures x / y * y == x
  {
  }

  lemma QuotientIsPositive(x: real, y: real)
    requires x > 0.0 && y > 0.0
    ensures x / y > 0.0
  {
    PositiveFactor(x / y, y);
  }

  lemma PositiveFactor(a: real, b: real)
    requires b > 0.0 && a * b > 0.0
    ensures a > 0.0
  {
  }

  lemma ProductIsNonNegative(x: real, y: real)
    requires x >= 0.0 && y >= 0.0
    ensures x * y >= 0.0
  {
  }

  lemma QuotientIsNonNegative(x: real, y: real)
    requires x >= 0.0 && y > 0.0
    ensures x / y >= 0.0
  {
    Cancel(x, y);
    NonNegativeFactor(x / y, y);
  }

  lemma NonNegativeFactor(a: real, b: real)
    requires b > 0.0 && a * b >= 0.0
    ensures a >= 0.0
  {
  }
}
