/** Half-away-from-zero rounding of exact quotients, as the fixed-point decimals and the fill
    auditor each implement it. The two implementations are proved to be the same function, and that
    function is proved to be the one nearest integer with ties going away from zero
    (roundTiesToAway, section 4.3.1 of IEEE 754-2019). */
module Rounding {

  /** 10^18: one unit of a Decimal is 1/UNIT. */
  const UNIT: int := 1_000_000_000_000_000_000

  function Abs(x: int): nat {
    if x < 0 then -x else x
  }

  function Sign(x: int): int {
    if x < 0 then -1 else if x == 0 then 0 else 1
  }

  /** Quotient truncated toward zero, the operator of math/big. */
  function Quo(n: int, d: int): int
    requires d != 0
  {
    Sign(n) * Sign(d) * (Abs(n) / Abs(d))
  }

  /** Remainder of Quo; it takes the sign of the numerator. */
  function Rem(n: int, d: int): int
    requires d != 0
  {
    Sign(n) * (Abs(n) % Abs(d))
  }

  function RoundQuotient(n: int, d: int): int
    requires d != 0
  {
    var quotient := Quo(n, d);
    if 2 * Abs(Rem(n, d)) >= Abs(d) then
      if Sign(n) * Sign(d) >= 0 then quotient + 1 else quotient - 1
    else
      quotient
  }

  /** u is within half of d from n; at exactly half, it lies further from zero than n does. */
  ghost predicate Closest(n: int, d: int, u: int) {
    2 * Abs(n - u) < Abs(d) || (2 * Abs(n - u) == Abs(d) && Abs(u) > Abs(n))
  }

  /** r is the integer closest to n/d; of two equally close ones, the one further from zero. */
  ghost predicate NearestAway(n: int, d: int, r: int)
    requires d != 0
  {
    Closest(n, d, r * d)
  }

  // ---------- Products ----------

  lemma MulLe(a: int, b: int, c: int)
    requires a <= b && 0 <= c
    ensures a * c <= b * c
  {
  }

  lemma MulSign(a: int, b: int)
    requires b > 0
    ensures a > 0 ==> a * b >= b
    ensures a < 0 ==> a * b <= -b
    ensures a == 0 ==> a * b == 0
  {
    if a > 0 {
      MulLe(1, a, b);
    } else if a < 0 {
      MulLe(a, -1, b);
    }
  }

  /** Cancelling a positive factor keeps the order. */
  lemma MulOrder(a: int, b: int, c: int)
    requires c > 0
    ensures a < b <==> a * c < b * c
    ensures a == b <==> a * c == b * c
  {
    MulSign(a - b, c);
    assert (a - b) * c == a * c - b * c;
  }

  lemma MulAbs(a: int, b: int)
    ensures Abs(a * b) == Abs(a) * Abs(b)
    ensures b > 0 ==> Sign(a * b) == Sign(a)
    ensures a != 0 ==> Abs(a * b) >= Abs(b)
  {
    if b == 0 {
      assert a * b == 0;
    } else {
      MulSign(a, Abs(b));
      assert b < 0 ==> a * b == -(a * -b);
      assert Abs(a) * Abs(b) == if a < 0 then -(a * Abs(b)) else a * Abs(b);
    }
  }

  // ---------- RoundQuotient is the nearest integer ----------

  lemma QuoRemSplit(n: int, d: int)
    requires d != 0
    ensures n == Quo(n, d) * d + Rem(n, d)
    ensures Abs(Rem(n, d)) < Abs(d)
    ensures n >= 0 ==> Rem(n, d) >= 0
    ensures n <= 0 ==> Rem(n, d) <= 0
  {
    var q, m := Abs(n) / Abs(d), Abs(n) % Abs(d);
    assert Abs(n) == q * Abs(d) + m;
    assert Quo(n, d) * d == Sign(n) * (q * Abs(d)) by {
      assert d < 0 ==> q * -d == -(q * d) && -q * d == -(q * d);
    }
  }

  lemma RoundQuotientIsNearestAway(n: int, d: int)
    requires d != 0
    ensures NearestAway(n, d, RoundQuotient(n, d))
  {
    var q, m := Quo(n, d), Rem(n, d);
    QuoRemSplit(n, d);
    assert (q + 1) * d == q * d + d && (q - 1) * d == q * d - d;
  }

  lemma ClosestMultipleUnique(n: int, d: int, u: int, w: int)
    requires Closest(n, d, u) && Closest(n, d, w)
    requires u == 0 || Abs(u) >= Abs(d)
    requires w == 0 || Abs(w) >= Abs(d)
    ensures Abs(w - u) < Abs(d)
  {
  }

  lemma MultipleSize(r: int, d: int)
    ensures r * d == 0 || Abs(r * d) >= Abs(d)
  {
    MulAbs(r, d);
  }

  lemma DistinctMultiples(r: int, s: int, d: int)
    requires r != s
    ensures Abs(s * d - r * d) >= Abs(d)
  {
    MulAbs(s - r, d);
    assert s * d - r * d == (s - r) * d;
  }

  lemma NearestAwayUnique(n: int, d: int, r: int, s: int)
    requires d != 0 && NearestAway(n, d, r) && NearestAway(n, d, s)
    ensures r == s
  {
    if r != s {
      MultipleSize(r, d);
      MultipleSize(s, d);
      DistinctMultiples(r, s, d);
      ClosestMultipleUnique(n, d, r * d, s * d);
    }
  }

  /** RoundQuotient returns r exactly when r is the nearest integer, ties away from zero. */
  lemma RoundQuotientMeaning(n: int, d: int, r: int)
    requires d != 0
    ensures r == RoundQuotient(n, d) <==> NearestAway(n, d, r)
  {
    RoundQuotientIsNearestAway(n, d);
    if NearestAway(n, d, r) {
      NearestAwayUnique(n, d, r, RoundQuotient(n, d));
    }
  }

  lemma WholeQuotientIsExact(b: int, Q: int)
    requires Q != 0
    ensures RoundQuotient(b * Q, Q) == b
  {
    RoundQuotientMeaning(b * Q, Q, b);
  }

  lemma NearestAwayIsOdd(n: int, d: int, r: int)
    requires d != 0 && NearestAway(n, d, r)
    ensures NearestAway(-n, d, -r) && NearestAway(n, -d, -r)
  {
    assert -r * d == -(r * d) && -r * -d == r * d;
  }

  lemma RoundQuotientIsOdd(n: int, d: int)
    requires d != 0
    ensures RoundQuotient(-n, d) == -RoundQuotient(n, d)
    ensures RoundQuotient(n, -d) == -RoundQuotient(n, d)
  {
    var r := RoundQuotient(n, d);
    RoundQuotientIsNearestAway(n, d);
    NearestAwayIsOdd(n, d, r);
    RoundQuotientMeaning(-n, d, -r);
    RoundQuotientMeaning(n, -d, -r);
  }

  lemma NearestAwayIsMonotone(n: int, m: int, d: int, r: int, s: int)
    requires d > 0 && n <= m && NearestAway(n, d, r) && NearestAway(m, d, s)
    ensures r <= s
  {
    if r > s {
      MulLe(s + 1, r, d);
      assert (s + 1) * d == s * d + d;
      // Only n == m halfway between the two would allow this, and one value has one rounding.
      assert n == m;
      NearestAwayUnique(n, d, r, s);
    }
  }

  lemma RoundQuotientIsMonotone(n: int, m: int, d: int)
    requires d > 0 && n <= m
    ensures RoundQuotient(n, d) <= RoundQuotient(m, d)
  {
    RoundQuotientIsNearestAway(n, d);
    RoundQuotientIsNearestAway(m, d);
    NearestAwayIsMonotone(n, m, d, RoundQuotient(n, d), RoundQuotient(m, d));
  }

  lemma ClosestScales(n: int, d: int, u: int, m: int, e: int, w: int)
    requires d != 0 && e != 0
    requires n * e == m * d && u * e == w * d
    requires Closest(n, d, u)
    ensures Closest(m, e, w)
  {
    DifferenceScales(n, d, u, m, e, w);
    AbsProducts(n - u, e, m - w, d);
    AbsProducts(n, e, m, d);
    AbsProducts(u, e, w, d);
    ScaledComparison(Abs(n - u), Abs(d), Abs(m - w), Abs(e));
    MulOrder(Abs(n), Abs(u), Abs(e));
    MulOrder(Abs(m), Abs(w), Abs(d));
  }

  lemma DifferenceScales(n: int, d: int, u: int, m: int, e: int, w: int)
    requires n * e == m * d && u * e == w * d
    ensures (n - u) * e == (m - w) * d
  {
  }

  lemma ScaledComparison(a: int, D: int, b: int, E: int)
    requires D > 0 && E > 0 && a * E == b * D
    ensures 2 * a < D <==> 2 * b < E
    ensures 2 * a == D <==> 2 * b == E
  {
    MulOrder(2 * a, D, E);
    MulOrder(2 * b, E, D);
    assert (2 * a) * E == 2 * (a * E) && (2 * b) * D == 2 * (b * D);
  }

  lemma NearestAwayScales(n: int, d: int, m: int, e: int, r: int)
    requires d != 0 && e != 0 && n * e == m * d && NearestAway(n, d, r)
    ensures NearestAway(m, e, r)
  {
    assert (r * d) * e == (r * e) * d;
    ClosestScales(n, d, r * d, m, e, r * e);
  }

  /** Equal fractions round alike, whatever common factor they carry. */
  lemma EqualFractionsRoundAlike(n: int, d: int, m: int, e: int)
    requires d != 0 && e != 0
    requires n * e == m * d
    ensures RoundQuotient(n, d) == RoundQuotient(m, e)
  {
    RoundQuotientIsNearestAway(n, d);
    NearestAwayScales(n, d, m, e, RoundQuotient(n, d));
    RoundQuotientMeaning(m, e, RoundQuotient(n, d));
  }

  lemma AbsProducts(a: int, e: int, b: int, d: int)
    requires a * e == b * d
    ensures Abs(a) * Abs(e) == Abs(b) * Abs(d)
  {
    MulAbs(a, e);
    MulAbs(b, d);
  }

  // ---------- The second implementation: exact rationals in lowest terms ----------

  /** A rational with a positive denominator. */
  datatype Rat = Rat(num: int, den: int)

  function Gcd(a: nat, b: nat): (g: nat)
    ensures a == 0 && b == 0 ==> g == 0
    ensures a != 0 || b != 0 ==> g > 0 && a % g == 0 && b % g == 0
    decreases b
  {
    if b == 0 then
      a
    else
      var g := Gcd(b, a % b);
      RemainderDivides(a, b, g);
      g
  }

  lemma RemainderDivides(a: nat, b: nat, g: nat)
    requires b > 0 && g > 0 && b % g == 0 && (a % b) % g == 0
    ensures a % g == 0
  {
    DividesSum(a / b, b, a % b, g);
    assert a == (a / b) * b + a % b;
  }

  lemma DividesSum(k: nat, b: nat, r: nat, g: nat)
    requires g > 0 && b % g == 0 && r % g == 0
    ensures (k * b + r) % g == 0
  {
    var x, y := b / g, r / g;
    assert k * b + r == (k * x + y) * g by {
      assert b == x * g && r == y * g;
      assert k * (x * g) == (k * x) * g;
    }
    MultipleHasNoRemainder(k * x + y, g);
  }

  lemma MultipleHasNoRemainder(k: nat, g: nat)
    requires g > 0
    ensures (k * g) % g == 0
  {
    var n := k * g;
    var q, m := n / g, n % g;
    assert n == q * g + m;
    assert (k - q) * g == m;
    MulSign(k - q, g);
  }

  /** The rational n/d as math/big stores it: lowest terms, sign in the numerator. */
  function Lowest(n: int, d: int): (r: Rat)
    requires d != 0
    ensures r.den > 0 && r.num * d == n * r.den
  {
    var g := Gcd(Abs(n), Abs(d));
    LowestIsEqual(n, d, g);
    Rat(Sign(d) * Sign(n) * (Abs(n) / g), Abs(d) / g)
  }

  lemma LowestIsEqual(n: int, d: int, g: nat)
    requires d != 0 && g > 0 && Abs(n) % g == 0 && Abs(d) % g == 0
    ensures Abs(d) / g > 0
    ensures Sign(d) * Sign(n) * (Abs(n) / g) * d == n * (Abs(d) / g)
  {
    var x, y := Abs(n) / g, Abs(d) / g;
    assert X: Abs(n) == x * g && Abs(d) == y * g;
    assert y > 0;
    CrossFactors(x, y, g);
    SignedCross(n, d, x, y);
  }

  lemma CrossFactors(x: int, y: int, g: int)
    ensures x * (y * g) == (x * g) * y
  {
  }

  lemma SignedCross(n: int, d: int, x: int, y: int)
    requires x * Abs(d) == Abs(n) * y
    ensures Sign(d) * Sign(n) * x * d == n * y
  {
    assert x * -d == -(x * d) && -x * d == -(x * d) && -n * y == -(n * y);
    if n == 0 {
      assert n * y == 0;
    }
  }

  /** The auditor's rounding to 18 places, in units of 1/UNIT. The product with UNIT is again
      brought to lowest terms before it is divided, and the direction comes from the sign of the
      unscaled value. */
  function RoundRat18(value: Rat): int
    requires value.den > 0
  {
    var scaled := Lowest(value.num * UNIT, value.den);
    var units := Quo(scaled.num, scaled.den);
    if 2 * Abs(Rem(scaled.num, scaled.den)) >= scaled.den then
      if value.num < 0 then units - 1 else units + 1
    else
      units
  }

  lemma RoundRat18IsRoundQuotient(value: Rat)
    requires value.den > 0
    ensures RoundRat18(value) == RoundQuotient(value.num * UNIT, value.den)
  {
    var scaled := Lowest(value.num * UNIT, value.den);
    MulAbs(scaled.num, value.den);
    MulAbs(value.num * UNIT, scaled.den);
    MulAbs(value.num, UNIT);
    assert Sign(scaled.num) == Sign(value.num);
    EqualFractionsRoundAlike(scaled.num, scaled.den, value.num * UNIT, value.den);
  }

  /** Both implementations compute the same 18-place decimal for every fraction n/d. */
  lemma RoundingsAgree(n: int, d: int)
    requires d != 0
    ensures RoundRat18(Lowest(n, d)) == RoundQuotient(n * UNIT, d)
  {
    var value := Lowest(n, d);
    RoundRat18IsRoundQuotient(value);
    CrossUnit(value.num, d, n, value.den);
    EqualFractionsRoundAlike(value.num * UNIT, value.den, n * UNIT, d);
  }

  lemma CrossUnit(a: int, d: int, n: int, b: int)
    requires a * d == n * b
    ensures (a * UNIT) * d == (n * UNIT) * b
  {
    assert (a * UNIT) * d == UNIT * (a * d);
    assert (n * UNIT) * b == UNIT * (n * b);
  }
}
