/** How volatility sets weights: an asset's share before capping is inversely proportional to its
    volatility, and no more volatile asset ends with a larger weight. */
module Volatility {
  import opened RealMath
  import opened Redistribution

  /** Row k is the last one of its symbol, which is the one that counts. */
  predicate Counts(rows: seq<Row>, k: nat) {
    k < |rows| && forall j :: k < j < |rows| ==> rows[j].symbol != rows[k].symbol
  }

  /** The volatility a row is weighed by, never below the floor. */
  function Weighed(row: Row, floor: Positive): Positive {
    if row.vol >= floor then row.vol else floor
  }

  predicate IsReciprocal(x: real, v: real) {
    x * v == 1.0
  }

  lemma Reciprocal(x: Positive)
    ensures IsReciprocal(1.0 / x, x)
  {
  }

  lemma RawOfRow(row: Row, floor: Positive, sized: bool)
    ensures sized ==> IsReciprocal(Raw(row, floor, sized), Weighed(row, floor))
    ensures !sized ==> Raw(row, floor, sized) == 1.0
  {
    Reciprocal(Weighed(row, floor));
  }

  /** A raw weight is one over the volatility weighed, or one when assets are not sized by it. */
  lemma {:induction false} RawIsReciprocal(rows: seq<Row>, floor: Positive, sized: bool, k: nat)
    requires Counts(rows, k)
    ensures var raw := RawWeights(rows, floor, sized);
      && rows[k].symbol in raw
      && (sized ==> IsReciprocal(raw[rows[k].symbol], Weighed(rows[k], floor)))
      && (!sized ==> raw[rows[k].symbol] == 1.0)
    decreases |rows|
  {
    hide Raw, Weighed, IsReciprocal;
    var front := rows[..|rows| - 1];
    RawOfRow(rows[k], floor, sized);
    if k < |rows| - 1 {
      assert rows[|rows| - 1].symbol != rows[k].symbol;
      RawIsReciprocal(front, floor, sized, k);
    }
  }

  /** Every symbol with a raw weight has a row that counts. */
  lemma {:induction false} RawHasRow(rows: seq<Row>, floor: Positive, sized: bool, symbol: string) returns (k: nat)
    requires symbol in RawWeights(rows, floor, sized)
    ensures Counts(rows, k) && rows[k].symbol == symbol
    decreases |rows|
  {
    var last := |rows| - 1;
    if rows[last].symbol == symbol {
      k := last;
    } else {
      k := RawHasRow(rows[..last], floor, sized, symbol);
    }
  }

  /** A raw weight's part of the target. */
  function Part(target: real, raw: real, total: Positive): real {
    target * raw / total
  }

  lemma ProportionalParts(target: real, total: Positive, a: real, b: real, v: real, w: real)
    requires IsReciprocal(a, v) && IsReciprocal(b, w)
    ensures Part(target, a, total) * v == Part(target, b, total) * w
  {
    assert (target * a / total) * v == target * (a * v) / total;
    assert (target * b / total) * w == target * (b * w) / total;
  }

  lemma ShareIsCappedPart(raw: map<string, real>, total: Positive, plan: Plan, symbol: string)
    requires symbol in raw
    ensures Shares(raw, total, plan)[symbol] == Min(plan.cap, Part(plan.target, raw[symbol], total))
  {
  }

  /** Before capping every asset's part of the target is its raw part of the rows' total, and so inversely
      proportional to its volatility. */
  lemma SharesAreInverse(rows: seq<Row>, floor: Positive, plan: Plan, i: nat, j: nat)
    requires Counts(rows, i) && Counts(rows, j)
    ensures RowTotal(rows, floor, true) > 0.0
    ensures var raw, total := RawWeights(rows, floor, true), RowTotal(rows, floor, true);
      var a, b := rows[i].symbol, rows[j].symbol;
      && a in raw && b in raw
      && Shares(raw, total, plan)[a] == Min(plan.cap, Part(plan.target, raw[a], total))
      && Part(plan.target, raw[a], total) * Weighed(rows[i], floor)
         == Part(plan.target, raw[b], total) * Weighed(rows[j], floor)
  {
    hide *;
    var raw, total := RawWeights(rows, floor, true), RowTotal(rows, floor, true);
    CountingRows(rows, i, j);
    RawIsReciprocal(rows, floor, true, i);
    RawIsReciprocal(rows, floor, true, j);
    SelectedRowsAreAllocated(rows, floor, true, plan);
    ShareIsCappedPart(raw, total, plan, rows[i].symbol);
    ProportionalParts(plan.target, total, raw[rows[i].symbol], raw[rows[j].symbol], Weighed(rows[i], floor),
                      Weighed(rows[j], floor));
  }

  lemma CountingRows(rows: seq<Row>, i: nat, j: nat)
    requires Counts(rows, i) && Counts(rows, j)
    ensures i < |rows| && j < |rows|
  {
  }

  lemma LargerDivisor(a: real, b: real, v: Positive, w: Positive)
    requires IsReciprocal(a, v) && IsReciprocal(b, w) && v >= w
    ensures a <= b
  {
    PositiveFactor(b, w);
    ProductIsNonNegative(b, v - w);
    assert (b - a) * v == b * (v - w);
    NonNegativeFactor(b - a, v);
  }

  lemma MoreIsWeighedMore(a: Row, b: Row, floor: Positive)
    requires a.vol >= b.vol
    ensures Weighed(a, floor) >= Weighed(b, floor)
  {
  }

  /** A more volatile asset ends with no larger weight, up to the slack. */
  lemma CalmerGetsNoLess(rows: seq<Row>, floor: Positive, plan: Plan, i: nat, j: nat)
    requires Counts(rows, i) && Counts(rows, j) && rows[i].vol >= rows[j].vol
    ensures RowTotal(rows, floor, true) > 0.0
    ensures var weights := Allocate(RawWeights(rows, floor, true), RowTotal(rows, floor, true), plan);
      && rows[i].symbol in weights && rows[j].symbol in weights
      && weights[rows[i].symbol] <= weights[rows[j].symbol] + plan.slack
  {
    MoreIsWeighedMore(rows[i], rows[j], floor);
    hide *;
    var raw := RawWeights(rows, floor, true);
    CountingRows(rows, i, j);
    RawIsReciprocal(rows, floor, true, i);
    RawIsReciprocal(rows, floor, true, j);
    SelectedRowsAreAllocated(rows, floor, true, plan);
    LargerDivisor(raw[rows[i].symbol], raw[rows[j].symbol], Weighed(rows[i], floor), Weighed(rows[j], floor));
  }
}
