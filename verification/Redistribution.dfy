/** Portfolio weights under a per-position cap: shares of the target gross exposure are capped, and
    what the caps leave unused is spread over the positions still below the cap, pass by pass. */
module Redistribution {
  import opened RealMath
  import opened FiniteSums

  /** A selected asset with its realized volatility. */
  datatype Row = Row(symbol: string, vol: real)

  /** slack: how close to the cap or the target counts as reaching it. */
  datatype Plan = Plan(cap: real, target: NonNegative, slack: NonNegative)

  function Value(s: string, w: real): real {
    w
  }

  ghost function Total(weights: map<string, real>): real {
    SumOver(weights, Value)
  }

  // ---------- The starting weights ----------

  function Raw(row: Row, floor: Positive, sized: bool): (r: real)
    ensures r > 0.0
  {
    if sized then
      QuotientIsPositive(1.0, Max(row.vol, floor));
      1.0 / Max(row.vol, floor)
    else 1.0
  }

  function RawWeights(rows: seq<Row>, floor: Positive, sized: bool): (w: map<string, real>)
    ensures forall s :: s in w ==> w[s] > 0.0
  {
    if rows == [] then map[]
    else
      var last := rows[|rows| - 1];
      RawWeights(rows[..|rows| - 1], floor, sized)[last.symbol := Raw(last, floor, sized)]
  }

  /** The part of the target that goes with an amount out of a denominator. */
  function Portion(amount: real, denominator: real, plan: Plan): real
    requires denominator > 0.0
  {
    plan.target * amount / denominator
  }

  /** Sum over the rows; more than the sum over symbols when a symbol comes twice. */
  function RowTotal(rows: seq<Row>, floor: Positive, sized: bool): real {
    if rows == [] then 0.0
    else RowTotal(rows[..|rows| - 1], floor, sized) + Raw(rows[|rows| - 1], floor, sized)
  }

  function CappedShare(raw: real, denominator: real, plan: Plan): real
    requires denominator > 0.0
  {
    Min(plan.cap, Portion(raw, denominator, plan))
  }

  function Shares(raw: map<string, real>, denominator: real, plan: Plan): map<string, real>
    requires raw != map[] ==> denominator > 0.0
  {
    map s | s in raw :: CappedShare(raw[s], denominator, plan)
  }

  // ---------- One pass ----------

  predicate IsOpen(w: real, plan: Plan) {
    w < plan.cap - plan.slack
  }

  function OpenKeys(weights: map<string, real>, plan: Plan): set<string> {
    set s | s in weights && IsOpen(weights[s], plan)
  }

  function Raised(w: real, add: real, plan: Plan): real {
    if IsOpen(w, plan) then Min(plan.cap, w + add) else w
  }

  function AllRaised(weights: map<string, real>, add: real, plan: Plan): map<string, real> {
    map s | s in weights :: Raised(weights[s], add, plan)
  }

  ghost predicate Stops(weights: map<string, real>, plan: Plan) {
    Total(weights) >= plan.target - plan.slack || OpenKeys(weights, plan) == {}
  }

  ghost function Addition(weights: map<string, real>, plan: Plan): real
    requires !Stops(weights, plan)
  {
    OpenCountPositive(weights, plan);
    (plan.target - Total(weights)) / |OpenKeys(weights, plan)| as real
  }

  lemma OpenCountPositive(weights: map<string, real>, plan: Plan)
    requires OpenKeys(weights, plan) != {}
    ensures |OpenKeys(weights, plan)| > 0
  {
  }

  /** At most the given number of passes. */
  ghost function Passes(weights: map<string, real>, n: nat, plan: Plan): map<string, real> {
    if n == 0 || Stops(weights, plan) then weights
    else Passes(AllRaised(weights, Addition(weights, plan), plan), n - 1, plan)
  }

  ghost function Allocate(raw: map<string, real>, denominator: real, plan: Plan): map<string, real>
    requires raw != map[] ==> denominator > 0.0
  {
    Passes(Shares(raw, denominator, plan), |raw|, plan)
  }

  // ---------- As the program runs it ----------

  /** The denominator is never less than the sum of the raw weights kept, and is that sum when no
      symbol comes twice. */
  lemma {:induction false} RowTotalCovers(rows: seq<Row>, floor: Positive, sized: bool)
    ensures RowTotal(rows, floor, sized) >= Total(RawWeights(rows, floor, sized))
    ensures DistinctRows(rows) ==> RowTotal(rows, floor, sized) == Total(RawWeights(rows, floor, sized))
  {
    if rows != [] {
      var front, last := rows[..|rows| - 1], rows[|rows| - 1];
      RowTotalCovers(front, floor, sized);
      RawKeys(front, floor, sized);
      SumPut(RawWeights(front, floor, sized), Value, last.symbol, Raw(last, floor, sized));
    }
  }

  ghost predicate DistinctRows(rows: seq<Row>) {
    forall i, j :: 0 <= i < j < |rows| ==> rows[i].symbol != rows[j].symbol
  }

  lemma RawKeys(rows: seq<Row>, floor: Positive, sized: bool)
    ensures forall s :: s in RawWeights(rows, floor, sized) <==> exists i :: 0 <= i < |rows| && rows[i].symbol == s
  {
    if rows != [] {
      RawKeys(rows[..|rows| - 1], floor, sized);
      assert rows == rows[..|rows| - 1] + [rows[|rows| - 1]];
    }
  }

  lemma PositiveTotal(weights: map<string, real>)
    requires weights != map[] && forall s :: s in weights ==> weights[s] > 0.0
    ensures Total(weights) > 0.0
  {
    var k :| k in weights;
    SumTakeOut(weights, Value, k);
    SumIsNonNegative(weights - {k}, Value);
  }

  /** Raw weights and their sum, accumulated over the rows. */
  method CollectRaw(rows: seq<Row>, floor: Positive, sized: bool) returns (raw: map<string, real>, denominator: real)
    ensures raw == RawWeights(rows, floor, sized) && denominator == RowTotal(rows, floor, sized)
  {
    raw, denominator := map[], 0.0;
    for i := 0 to |rows|
      invariant raw == RawWeights(rows[..i], floor, sized) && denominator == RowTotal(rows[..i], floor, sized)
    {
      var value := if sized then 1.0 / Max(rows[i].vol, floor) else 1.0;
      assert rows[..i + 1][..i] == rows[..i];
      raw := raw[rows[i].symbol := value];
      denominator := denominator + value;
    }
    assert rows[..|rows|] == rows;
  }

  /** Each weight becomes its capped share; keys are visited in any order. */
  method CapShares(raw: map<string, real>, denominator: real, plan: Plan) returns (weights: map<string, real>)
    requires raw != map[] ==> denominator > 0.0
    ensures weights == Shares(raw, denominator, plan)
  {
    weights := raw;
    var rest := raw.Keys;
    while rest != {}
      invariant rest <= raw.Keys && weights.Keys == raw.Keys
      invariant forall s :: s in rest ==> weights[s] == raw[s]
      invariant forall s :: s in raw && s !in rest ==> weights[s] == CappedShare(raw[s], denominator, plan)
    {
      var s :| s in rest;
      weights := weights[s := Min(plan.cap, plan.target * weights[s] / denominator)];
      rest := rest - {s};
    }
  }

  /** Totals the weights and counts the open ones; keys are visited in any order. */
  method Measure(weights: map<string, real>, plan: Plan) returns (total: real, open: nat)
    ensures total == Total(weights) && open == |OpenKeys(weights, plan)|
  {
    total, open := 0.0, 0;
    var rest := weights;
    while rest != map[]
      invariant rest.Keys <= weights.Keys && forall s :: s in rest ==> rest[s] == weights[s]
      invariant total + Total(rest) == Total(weights)
      invariant open + |OpenKeys(rest, plan)| == |OpenKeys(weights, plan)|
      decreases |rest|
    {
      var s :| s in rest;
      SumTakeOut(rest, Value, s);
      OpenTakeOut(rest, s, plan);
      total := total + rest[s];
      if rest[s] < plan.cap - plan.slack {
        open := open + 1;
      }
      rest := rest - {s};
    }
    assert OpenKeys(rest, plan) == {};
  }

  lemma OpenTakeOut(weights: map<string, real>, s: string, plan: Plan)
    requires s in weights
    ensures |OpenKeys(weights, plan)| == |OpenKeys(weights - {s}, plan)| + if IsOpen(weights[s], plan) then 1 else 0
  {
    var rest := OpenKeys(weights - {s}, plan);
    assert OpenKeys(weights, plan) == if IsOpen(weights[s], plan) then rest + {s} else rest;
  }

  /** Raises the open weights in place; keys are visited in any order. */
  method Raise(before: map<string, real>, add: real, plan: Plan) returns (weights: map<string, real>)
    ensures weights == AllRaised(before, add, plan)
  {
    weights := before;
    var rest := before.Keys;
    while rest != {}
      invariant rest <= before.Keys && weights.Keys == before.Keys
      invariant forall s :: s in rest ==> weights[s] == before[s]
      invariant forall s :: s in before && s !in rest ==> weights[s] == Raised(before[s], add, plan)
    {
      var s :| s in rest;
      if weights[s] < plan.cap - plan.slack {
        weights := weights[s := Min(plan.cap, weights[s] + add)];
      }
      rest := rest - {s};
    }
  }

  lemma PassesStep(weights: map<string, real>, n: nat, plan: Plan)
    requires n > 0
    ensures Stops(weights, plan) ==> Passes(weights, n, plan) == weights
    ensures !Stops(weights, plan) ==>
      Passes(weights, n, plan) == Passes(AllRaised(weights, Addition(weights, plan), plan), n - 1, plan)
  {
  }

  /** One pass, unless the weights have met the target or the caps. */
  method OnePass(weights: map<string, real>, plan: Plan) returns (done: bool, next: map<string, real>)
    ensures done <==> Stops(weights, plan)
    ensures next == if Stops(weights, plan) then weights else AllRaised(weights, Addition(weights, plan), plan)
  {
    var total, open := Measure(weights, plan);
    if total >= plan.target - plan.slack || open == 0 {
      return true, weights;
    }
    next := Raise(weights, (plan.target - total) / open as real, plan);
    done := false;
  }

  /** The redistribution loop. */
  method Spread(start: map<string, real>, plan: Plan) returns (weights: map<string, real>)
    ensures weights == Passes(start, |start|, plan)
  {
    weights := start;
    var pass := 0;
    while pass < |weights|
      invariant weights.Keys == start.Keys && pass <= |start| && |weights| == |start|
      invariant Passes(weights, |start| - pass, plan) == Passes(start, |start|, plan)
    {
      PassesStep(weights, |start| - pass, plan);
      var done, next := OnePass(weights, plan);
      if done {
        break;
      }
      SameSize(next, start);
      weights, pass := next, pass + 1;
    }
  }

  /** The weights of the selected rows. Every map iteration visits its keys in an arbitrary order, and
      the result does not depend on it. */
  method TargetWeights(rows: seq<Row>, floor: Positive, sized: bool, plan: Plan) returns (weights: map<string, real>)
    ensures var raw, denominator := RawWeights(rows, floor, sized), RowTotal(rows, floor, sized);
      (raw != map[] ==> denominator > 0.0) && weights == Allocate(raw, denominator, plan)
  {
    var raw, denominator := CollectRaw(rows, floor, sized);
    RowTotalCovers(rows, floor, sized);
    if raw != map[] {
      PositiveTotal(raw);
    }
    weights := CapShares(raw, denominator, plan);
    SameSize(weights, raw);
    weights := Spread(weights, plan);
  }

  // ---------- What the passes keep ----------

  /** Raising by add moves the total by at most add for each open weight, and by exactly that when no
      weight meets the cap. */
  lemma {:induction false} RaiseTotal(weights: map<string, real>, add: real, plan: Plan)
    ensures var after, bound := Total(AllRaised(weights, add, plan)),
                                Total(weights) + Copies(|OpenKeys(weights, plan)|, add);
      && after <= bound
      && ((forall s :: s in OpenKeys(weights, plan) ==> weights[s] + add <= plan.cap) ==> after == bound)
    decreases |weights|
  {
    if weights == map[] {
      assert OpenKeys(weights, plan) == {} && AllRaised(weights, add, plan) == map[];
    } else {
      var k :| k in weights;
      var rest, raised := weights - {k}, AllRaised(weights, add, plan);
      RaiseTotal(rest, add, plan);
      SumTakeOut(weights, Value, k);
      SumTakeOut(raised, Value, k);
      OpenTakeOut(weights, k, plan);
      OneMore(|OpenKeys(rest, plan)|, add);
      assert raised - {k} == AllRaised(rest, add, plan);
      assert forall s :: s in OpenKeys(rest, plan) ==> s in OpenKeys(weights, plan);
    }
  }

  /** No weight above the cap, and the total at most the target. */
  ghost predicate Allowed(weights: map<string, real>, plan: Plan) {
    (forall s :: s in weights ==> weights[s] <= plan.cap) && Total(weights) <= plan.target
  }

  lemma AdditionSpreads(weights: map<string, real>, plan: Plan)
    requires !Stops(weights, plan)
    ensures Addition(weights, plan) > 0.0
    ensures Total(weights) + Copies(|OpenKeys(weights, plan)|, Addition(weights, plan)) == plan.target
  {
    var n := |OpenKeys(weights, plan)| as real;
    Cancel(plan.target - Total(weights), n);
    QuotientIsPositive(plan.target - Total(weights), n);
  }

  /** A pass keeps to the cap and the target and lowers nothing. It either reaches the target or fills
      up at least one open weight. */
  lemma PassProgress(weights: map<string, real>, plan: Plan)
    requires Allowed(weights, plan) && !Stops(weights, plan)
    ensures var next := AllRaised(weights, Addition(weights, plan), plan);
      && Allowed(next, plan)
      && (forall s :: s in weights ==> weights[s] <= next[s])
      && (Total(next) == plan.target || |OpenKeys(next, plan)| < |OpenKeys(weights, plan)|)
  {
    var add := Addition(weights, plan);
    var next := AllRaised(weights, add, plan);
    AdditionSpreads(weights, plan);
    RaiseTotal(weights, add, plan);
    if s :| s in OpenKeys(weights, plan) && weights[s] + add > plan.cap {
      assert s !in OpenKeys(next, plan);
      assert OpenKeys(next, plan) <= OpenKeys(weights, plan) - {s};
      SubsetSize(OpenKeys(next, plan), OpenKeys(weights, plan) - {s});
    }
  }

  lemma SubsetSize(a: set<string>, b: set<string>)
    requires a <= b
    ensures |a| <= |b|
  {
    assert b == a + (b - a);
  }

  /** Nearly full: at most the slack below the cap. */
  ghost predicate Full(weights: map<string, real>, plan: Plan) {
    OpenKeys(weights, plan) == {}
  }

  /** Given as many passes as there are open weights, the passes end at the target or at the caps. */
  lemma {:induction false} PassesConverge(weights: map<string, real>, n: nat, plan: Plan)
    requires Allowed(weights, plan)
    ensures var end := Passes(weights, n, plan);
      && Allowed(end, plan) && end.Keys == weights.Keys
      && (forall s :: s in weights ==> weights[s] <= end[s])
      && (n >= |OpenKeys(weights, plan)| ==> Total(end) >= plan.target - plan.slack || Full(end, plan))
    decreases n
  {
    if n > 0 && !Stops(weights, plan) {
      var next := AllRaised(weights, Addition(weights, plan), plan);
      PassProgress(weights, plan);
      PassesConverge(next, n - 1, plan);
      if Total(next) == plan.target {
        SumAtLeast(next, Passes(next, n - 1, plan));
      }
    }
  }

  lemma {:induction false} SumAtLeast(low: map<string, real>, high: map<string, real>)
    requires low.Keys == high.Keys && forall s :: s in low ==> low[s] <= high[s]
    ensures Total(low) <= Total(high)
    decreases |low|
  {
    if low == map[] {
      assert high == map[];
    } else {
      var k :| k in low;
      SumTakeOut(low, Value, k);
      SumTakeOut(high, Value, k);
      SumAtLeast(low - {k}, high - {k});
    }
  }

  // ---------- The starting shares ----------

  function Scaled(x: real, rate: real): real {
    x * rate
  }

  lemma ScaledAdds(a: real, b: real, rate: real)
    ensures Scaled(a + b, rate) == Scaled(a, rate) + Scaled(b, rate)
  {
  }

  lemma PortionIsScaled(amount: real, denominator: Positive, plan: Plan)
    ensures Portion(amount, denominator, plan) == Scaled(amount, plan.target / denominator)
  {
  }

  /** Capped shares add up to no more than uncapped ones. */
  lemma TotalTakeOut(weights: map<string, real>, k: string)
    requires k in weights
    ensures Total(weights) == weights[k] + Total(weights - {k})
  {
    SumTakeOut(weights, Value, k);
  }

  lemma {:induction false} SharesWithin(raw: map<string, real>, shares: map<string, real>, rate: real)
    requires shares.Keys == raw.Keys && forall s :: s in raw ==> shares[s] <= Scaled(raw[s], rate)
    ensures Total(shares) <= Scaled(Total(raw), rate)
    decreases |raw|
  {
    if raw == map[] {
      assert shares == map[] && Scaled(0.0, rate) == 0.0;
    } else {
      hide *;
      var k :| k in raw;
      TotalTakeOut(raw, k);
      TotalTakeOut(shares, k);
      SharesWithin(raw - {k}, shares - {k}, rate);
      ScaledAdds(raw[k], Total(raw - {k}), rate);
    }
  }

  lemma SharesAllowed(raw: map<string, real>, denominator: real, plan: Plan)
    requires raw != map[] ==> denominator > 0.0
    requires denominator >= Total(raw)
    ensures Allowed(Shares(raw, denominator, plan), plan)
  {
    var shares := Shares(raw, denominator, plan);
    if raw == map[] {
      assert shares == map[];
    } else {
      var rate := plan.target / denominator;
      forall s | s in raw ensures shares[s] <= Scaled(raw[s], rate) {
        PortionIsScaled(raw[s], denominator, plan);
      }
      SharesWithin(raw, shares, rate);
      RateCovers(Total(raw), denominator, plan.target);
    }
  }

  lemma RateCovers(total: real, denominator: Positive, target: NonNegative)
    requires total <= denominator
    ensures Scaled(total, target / denominator) <= target
  {
    var rate := target / denominator;
    Cancel(target, denominator);
    DivideMonotone(0.0, target, denominator);
    ScaleMonotone(rate, total, denominator);
  }

  // ---------- The bounds of a total ----------

  lemma {:induction false} TotalAtMost(weights: map<string, real>, high: real)
    requires forall s :: s in weights ==> weights[s] <= high
    ensures Total(weights) <= Copies(|weights|, high)
    decreases |weights|
  {
    if weights == map[] {
      assert Copies(0, high) == 0.0;
    } else {
      var k :| k in weights;
      var rest := weights - {k};
      SumTakeOut(weights, Value, k);
      TotalAtMost(rest, high);
      TakeOneOut(weights, k);
      OneMore(|rest|, high);
    }
  }

  lemma {:induction false} TotalAtLeast(weights: map<string, real>, low: real)
    requires forall s :: s in weights ==> low <= weights[s]
    ensures Copies(|weights|, low) <= Total(weights)
    decreases |weights|
  {
    if weights == map[] {
      assert Copies(0, low) == 0.0;
    } else {
      var k :| k in weights;
      var rest := weights - {k};
      SumTakeOut(weights, Value, k);
      TotalAtLeast(rest, low);
      TakeOneOut(weights, k);
      OneMore(|rest|, low);
    }
  }

  lemma TakeOneOut(weights: map<string, real>, k: string)
    requires k in weights
    ensures |weights| == |weights - {k}| + 1
  {
    assert weights.Keys == (weights - {k}).Keys + {k};
    assert |weights.Keys| == |(weights - {k}).Keys| + 1;
  }

  lemma OpenAtMostAll(weights: map<string, real>, plan: Plan)
    ensures |OpenKeys(weights, plan)| <= |weights|
  {
    SubsetSize(OpenKeys(weights, plan), weights.Keys);
    assert |weights| == |weights.Keys|;
  }

  /** Within one pass per position the weights reach the target or the caps: the total is the smaller
      of the target and what the caps allow, exactly when the slack is zero, and no weight is above
      the cap or below its capped share. */
  lemma AllocationConverges(raw: map<string, real>, denominator: real, plan: Plan)
    requires raw != map[] ==> denominator > 0.0
    requires denominator >= Total(raw)
    ensures var weights, n := Allocate(raw, denominator, plan), |raw|;
      && weights.Keys == raw.Keys
      && (forall s :: s in weights ==> Shares(raw, denominator, plan)[s] <= weights[s] <= plan.cap)
      && Total(weights) <= Min(plan.target, Copies(n, plan.cap))
      && Total(weights) >= Min(plan.target - plan.slack, Copies(n, plan.cap - plan.slack))
      && (plan.slack == 0.0 ==> Total(weights) == Min(plan.target, Copies(n, plan.cap)))
  {
    var weights := Allocate(raw, denominator, plan);
    SharesSettle(raw, denominator, plan);
    SameSize(weights, raw);
    FinalTotal(weights, plan);
  }

  /** Grown from start within the cap and the target until one of them is met everywhere. */
  ghost predicate Settled(start: map<string, real>, end: map<string, real>, plan: Plan) {
    && Allowed(end, plan) && end.Keys == start.Keys && (forall s :: s in start ==> start[s] <= end[s])
    && (Total(end) >= plan.target - plan.slack || Full(end, plan))
  }

  lemma SharesSettle(raw: map<string, real>, denominator: real, plan: Plan)
    requires raw != map[] ==> denominator > 0.0
    requires denominator >= Total(raw)
    ensures Settled(Shares(raw, denominator, plan), Allocate(raw, denominator, plan), plan)
  {
    var start := Shares(raw, denominator, plan);
    SharesAllowed(raw, denominator, plan);
    SameSize(start, raw);
    OpenAtMostAll(start, plan);
    PassesConverge(start, |raw|, plan);
  }

  /** Weights within cap and target that have met either hold all they can. */
  lemma FinalTotal(weights: map<string, real>, plan: Plan)
    requires Allowed(weights, plan) && (Total(weights) >= plan.target - plan.slack || Full(weights, plan))
    ensures Total(weights) <= Min(plan.target, Copies(|weights|, plan.cap))
    ensures Total(weights) >= Min(plan.target - plan.slack, Copies(|weights|, plan.cap - plan.slack))
  {
    TotalAtMost(weights, plan.cap);
    if Full(weights, plan) {
      forall s | s in weights ensures plan.cap - plan.slack <= weights[s] {
        assert s !in OpenKeys(weights, plan);
      }
      TotalAtLeast(weights, plan.cap - plan.slack);
    }
  }

  // ---------- Order ----------

  /** The first weight is not above the second, unless the second has all but met the cap. */
  predicate NotAbove(first: real, second: real, plan: Plan) {
    first <= second || second >= plan.cap - plan.slack
  }

  lemma {:induction false} PassesKeepOrder(weights: map<string, real>, n: nat, plan: Plan, s: string, t: string)
    requires s in weights && t in weights && NotAbove(weights[s], weights[t], plan)
    ensures var end := Passes(weights, n, plan);
      s in end && t in end && NotAbove(end[s], end[t], plan)
    decreases n
  {
    if n > 0 && !Stops(weights, plan) {
      PassesKeepOrder(AllRaised(weights, Addition(weights, plan), plan), n - 1, plan, s, t);
    }
  }

  lemma ShareIsMonotone(a: real, b: real, denominator: Positive, plan: Plan)
    requires a <= b
    ensures CappedShare(a, denominator, plan) <= CappedShare(b, denominator, plan)
  {
    ScaleMonotone(plan.target, a, b);
    DivideMonotone(plan.target * a, plan.target * b, denominator);
  }

  lemma ScaleMonotone(k: NonNegative, a: real, b: real)
    requires a <= b
    ensures k * a <= k * b
  {
    assert 0.0 <= k * (b - a);
  }

  lemma DivideMonotone(a: real, b: real, d: Positive)
    requires a <= b
    ensures a / d <= b / d
  {
  }

  /** An asset with no larger raw weight never ends with a larger weight, up to the slack. */
  lemma AllocationKeepsOrder(raw: map<string, real>, denominator: real, plan: Plan, s: string, t: string)
    requires denominator > 0.0 && denominator >= Total(raw)
    requires s in raw && t in raw && raw[s] <= raw[t]
    ensures Allocate(raw, denominator, plan).Keys == raw.Keys
    ensures Allocate(raw, denominator, plan)[s] <= Allocate(raw, denominator, plan)[t] + plan.slack
  {
    AllocationConverges(raw, denominator, plan);
    ShareIsMonotone(raw[s], raw[t], denominator, plan);
    PassesKeepOrder(Shares(raw, denominator, plan), |raw|, plan, s, t);
  }

  /** The program's weights: whatever rows it selects, they meet the cap and the target, reach one of
      them everywhere, and rank assets as their raw weights do. */
  lemma SelectedRowsAreAllocated(rows: seq<Row>, floor: Positive, sized: bool, plan: Plan)
    ensures var raw, denominator := RawWeights(rows, floor, sized), RowTotal(rows, floor, sized);
      && (raw != map[] ==> denominator > 0.0)
      && var weights, n := Allocate(raw, denominator, plan), |raw|;
      && weights.Keys == raw.Keys
      && (forall s :: s in weights ==> weights[s] <= plan.cap)
      && Min(plan.target - plan.slack, Copies(n, plan.cap - plan.slack)) <= Total(weights)
      && Total(weights) <= Min(plan.target, Copies(n, plan.cap))
      && forall s, t :: s in raw && t in raw && raw[s] <= raw[t] ==> weights[s] <= weights[t] + plan.slack
  {
    var raw, denominator := RawWeights(rows, floor, sized), RowTotal(rows, floor, sized);
    RowTotalCovers(rows, floor, sized);
    if raw != map[] {
      PositiveTotal(raw);
    }
    AllocationConverges(raw, denominator, plan);
    forall s, t | s in raw && t in raw && raw[s] <= raw[t]
      ensures Allocate(raw, denominator, plan)[s] <= Allocate(raw, denominator, plan)[t] + plan.slack
    {
      AllocationKeepsOrder(raw, denominator, plan, s, t);
    }
  }
}
