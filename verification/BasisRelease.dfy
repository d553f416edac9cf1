/** Exact cost basis of one position: buys add their cost, sells release a proportional share that
    is rounded once. All amounts are integer counts of 10^-18 units. */
module BasisRelease {
  import opened Rounding

  /** Decimal.MulDiv: d * multiplier / divisor with one rounding at the end. */
  function MulDiv(d: int, multiplier: int, divisor: int): int
    requires divisor != 0
  {
    RoundQuotient(d * multiplier, divisor)
  }

  /** Decimal.Mul and Decimal.Div, each rounding its own result. */
  function Mul(d: int, other: int): int {
    RoundQuotient(d * other, UNIT)
  }

  function Div(d: int, other: int): int
    requires other != 0
  {
    RoundQuotient(d * UNIT, other)
  }

  /** Why the release is one operation: scaling up and back down loses nothing when the rounding comes
      once at the end, while rounding in between can lose the whole amount. */
  lemma OneRoundingLosesNothing(d: int, m: int)
    requires m != 0
    ensures MulDiv(d, m, m) == d
    ensures Div(Mul(1, 1), 1) != 1
  {
    WholeQuotientIsExact(d, m);
    WholeQuotientIsExact(0, 1);
    RoundQuotientMeaning(1, UNIT, 0);
    assert Mul(1, 1) == 0;
  }

  datatype Holding = Holding(quantity: nat, basis: int)

  datatype Trade = Buy(quantity: nat, cost: nat) | Sell(quantity: nat)

  datatype Outcome = InvalidAmount | InsufficientAsset | Applied(holding: Holding, released: int)

  /** What one fill does to the exact projection. A buy releases nothing. */
  function Apply(h: Holding, t: Trade): Outcome {
    if t.quantity == 0 then InvalidAmount
    else
      match t
      case Buy(q, cost) => Applied(Holding(h.quantity + q, h.basis + cost), 0)
      case Sell(q) =>
        if q > h.quantity then InsufficientAsset
        else
          var released := MulDiv(h.basis, q, h.quantity);
          Applied(Holding(h.quantity - q, h.basis - released), released)
  }

  /** The holding after a history and the basis released on the way; a refused fill changes
      nothing. */
  function Run(h: Holding, trades: seq<Trade>): (Holding, int)
    decreases |trades|
  {
    if trades == [] then (h, 0)
    else
      match Apply(h, trades[0])
      case Applied(next, released) =>
        var (end, rest) := Run(next, trades[1..]);
        (end, released + rest)
      case _ => Run(h, trades[1..])
  }

  /** Total cost of the buys that are not refused. */
  function Bought(trades: seq<Trade>): nat {
    if trades == [] then 0
    else (if trades[0].Buy? && trades[0].quantity > 0 then trades[0].cost else 0) + Bought(trades[1..])
  }

  /** A position without quantity carries no basis, and no basis is ever negative. */
  ghost predicate Sound(h: Holding) {
    h.basis >= 0 && (h.quantity == 0 ==> h.basis == 0)
  }

  /** A release never leaves [0, basis], and releasing the whole quantity releases the whole basis. */
  lemma ReleaseWithinBasis(b: nat, q: nat, Q: nat)
    requires Q > 0 && q <= Q
    ensures 0 <= MulDiv(b, q, Q) <= b
    ensures q == Q ==> MulDiv(b, q, Q) == b
  {
    MulLe(q, Q, b);
    assert b * q <= b * Q && 0 <= b * q;
    WholeQuotientIsExact(b, Q);
    WholeQuotientIsExact(0, Q);
    RoundQuotientIsMonotone(0, b * q, Q);
    RoundQuotientIsMonotone(b * q, b * Q, Q);
  }

  lemma ApplyKeepsSound(h: Holding, t: Trade)
    requires Sound(h)
    ensures match Apply(h, t)
      case InvalidAmount => t.quantity == 0
      case InsufficientAsset => t.Sell? && t.quantity > h.quantity
      case Applied(next, released) =>
        && Sound(next) && 0 <= released <= h.basis
        && (t.Sell? && next.quantity == 0 ==> released == h.basis)
  {
    if t.Sell? && 0 < t.quantity <= h.quantity {
      ReleaseWithinBasis(h.basis, t.quantity, h.quantity);
    }
  }

  /** Conservation: over any interleaving of buys and sells, what was paid is either still basis or
      was released; once everything is sold, exactly all of it was released. */
  lemma {:induction false} BasisIsConserved(h: Holding, trades: seq<Trade>)
    requires Sound(h)
    ensures var (end, released) := Run(h, trades);
      && Sound(end) && 0 <= released
      && h.basis + Bought(trades) == end.basis + released
      && (end.quantity == 0 ==> released == h.basis + Bought(trades))
    decreases |trades|
  {
    if trades != [] {
      ApplyKeepsSound(h, trades[0]);
      match Apply(h, trades[0])
      case Applied(next, _) => BasisIsConserved(next, trades[1..]);
      case _ => BasisIsConserved(h, trades[1..]);
    }
  }

  // ---------- How far rounding can drift from the exact proportion ----------

  function Sum(quantities: seq<nat>): nat {
    if quantities == [] then 0 else quantities[0] + Sum(quantities[1..])
  }

  function Sells(quantities: seq<nat>): seq<Trade> {
    if quantities == [] then [] else [Sell(quantities[0])] + Sells(quantities[1..])
  }

  /** basis is within k/2 units of start * left / of. */
  ghost predicate Within(basis: int, left: int, start: int, of: int, k: nat) {
    2 * Abs(basis * of - start * left) <= k * of
  }

  lemma DriftAlgebra(b: int, b': int, of: int, start: int, Q: int, Q': int, miss: int)
    requires b' * Q == b * Q' + miss
    ensures (b' * of - start * Q') * Q == (b * of - start * Q) * Q' + miss * of
  {
    assert (b' * of - start * Q') * Q == (b' * Q) * of - start * Q' * Q;
    assert (b * of - start * Q) * Q' == (b * Q') * of - start * Q' * Q;
    assert (b * Q' + miss) * of == (b * Q') * of + miss * of;
  }

  lemma DoubleAbsProduct(a: int, b: nat)
    ensures 2 * Abs(a * b) == (2 * Abs(a)) * b
  {
    MulAbs(a, b);
  }

  lemma DriftBound(after: int, before: int, miss: int, Q: nat, Q': nat, of: nat, bound: nat)
    requires 0 < Q && Q' <= Q
    requires after * Q == before * Q' + miss * of
    requires 2 * Abs(before) <= bound && 2 * Abs(miss) <= Q
    ensures 2 * Abs(after) <= bound + of
  {
    DoubleAbsProduct(before, Q');
    DoubleAbsProduct(miss, of);
    DoubleAbsProduct(after, Q);
    MulLe(2 * Abs(before), bound, Q');
    MulLe(Q', Q, bound);
    MulLe(2 * Abs(miss), Q, of);
    assert bound * Q + Q * of == (bound + of) * Q;
    MulOrder(bound + of, 2 * Abs(after), Q);
  }

  /** Releasing any r within half a unit of the exact share adds half a unit of drift. */
  lemma OneReleaseDrift(b: int, q: nat, Q: nat, r: int, start: int, of: nat, k: nat)
    requires 0 < Q && q <= Q && 2 * Abs(b * q - r * Q) <= Q
    requires Within(b, Q, start, of, k)
    ensures Within(b - r, Q - q, start, of, k + 1)
  {
    var miss := b * q - r * Q;
    assert (b - r) * Q == b * (Q - q) + miss;
    DriftAlgebra(b, b - r, of, start, Q, Q - q, miss);
    DriftBound((b - r) * of - start * (Q - q), b * of - start * Q, miss, Q, Q - q, of, k * of);
    assert (k + 1) * of == k * of + of;
  }

  lemma SellDrift(h: Holding, q: nat, start: int, of: nat, k: nat)
    requires 0 < q <= h.quantity && Within(h.basis, h.quantity, start, of, k)
    ensures Within(h.basis - MulDiv(h.basis, q, h.quantity), h.quantity - q, start, of, k + 1)
  {
    RoundQuotientIsNearestAway(h.basis * q, h.quantity);
    OneReleaseDrift(h.basis, q, h.quantity, MulDiv(h.basis, q, h.quantity), start, of, k);
  }

  lemma {:induction false} DriftAfterSells(h: Holding, quantities: seq<nat>, start: int, of: nat, k: nat)
    requires Sum(quantities) <= h.quantity && 0 !in quantities
    requires Within(h.basis, h.quantity, start, of, k)
    ensures var end := Run(h, Sells(quantities)).0;
      end.quantity == h.quantity - Sum(quantities)
      && Within(end.basis, end.quantity, start, of, k + |quantities|)
    decreases |quantities|
  {
    if quantities != [] {
      var q := quantities[0];
      SellDrift(h, q, start, of, k);
      assert Sells(quantities)[1..] == Sells(quantities[1..]);
      DriftAfterSells(Apply(h, Sell(q)).holding, quantities[1..], start, of, k + 1);
    }
  }

  /** The promise of the single rounding step: however a quantity is cut into k partial sells, the
      basis left is within k/2 units of the exact proportion of the starting basis. */
  lemma PartialSellsStayProportional(start: Holding, quantities: seq<nat>)
    requires Sum(quantities) <= start.quantity && 0 !in quantities
    ensures var end := Run(start, Sells(quantities)).0;
      && end.quantity == start.quantity - Sum(quantities)
      && 2 * Abs(end.basis * start.quantity - start.basis * end.quantity) <= |quantities| * start.quantity
  {
    DriftAfterSells(start, quantities, start.basis, start.quantity, 0);
  }
}
