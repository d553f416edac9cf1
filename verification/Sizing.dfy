/** Target quantities of a rebalance: each target's share of decision equity, bought in whole lots at
    an adverse price with the fee included. */
module Sizing {
  import opened RealMath
  import opened MarketData
  import opened VolumeCap

  /** fraction: how much of a tick or a lot the roundings forgive; grain: what a quantity is finally rounded
      to, zero for not at all. */
  datatype Setup = Setup(
    trend: bool, gross: real, weights: Option<map<string, real>>, marks: map<string, NonNegative>,
    fills: map<string, NonNegative>, rules: Rules, signalAt: int, gapReserve: NonNegative, slippageBps: NonNegative,
    feeBps: NonNegative, fraction: NonNegative, grain: NonNegative)

  /** Unpriced: there is no unit cost to divide by, where the program's division leaves the numbers. */
  datatype SizingError =
    | MarkUnavailable(symbol: string) | ConstraintUnavailable(symbol: string) | Unpriced(symbol: string)
  datatype EquityResult = NoEquity(error: SizingError) | Equity(value: real)
  datatype TargetResult = NoTargets(error: SizingError) | Targets(quantities: map<string, real>)

  function PriceIn(prices: map<string, NonNegative>, symbol: string): NonNegative {
    if symbol in prices then prices[symbol] else 0.0
  }

  // ---------- Decision equity ----------

  /** Trend strategies value at the decision mark; baselines at the executable price when there is one. */
  function Valuation(setup: Setup, symbol: string): NonNegative {
    if !setup.trend && PriceIn(setup.fills, symbol) > 0.0 then PriceIn(setup.fills, symbol)
    else PriceIn(setup.marks, symbol)
  }

  function Worth(size: real, price: real): real {
    size * price
  }

  function EquityFrom(value: real, sizes: map<string, real>, order: seq<string>, setup: Setup): EquityResult
    requires forall s :: s in order ==> s in sizes
    decreases |order|
  {
    if order == [] then Equity(value)
    else if Valuation(setup, order[0]) <= 0.0 then NoEquity(MarkUnavailable(order[0]))
    else EquityFrom(value + Worth(sizes[order[0]], Valuation(setup, order[0])), sizes, order[1..], setup)
  }

  method DecisionEquity(cash: real, sizes: map<string, real>, order: seq<string>, setup: Setup)
    returns (r: EquityResult)
    requires forall s :: s in order ==> s in sizes
    ensures r == EquityFrom(cash, sizes, order, setup)
  {
    var equity := cash;
    for i := 0 to |order|
      invariant EquityFrom(cash, sizes, order, setup) == EquityFrom(equity, sizes, order[i..], setup)
    {
      assert order[i..][1..] == order[i + 1..];
      var price := PriceIn(setup.marks, order[i]);
      if !setup.trend && PriceIn(setup.fills, order[i]) > 0.0 {
        price := PriceIn(setup.fills, order[i]);
      }
      if price <= 0.0 {
        return NoEquity(MarkUnavailable(order[i]));
      }
      equity := equity + Worth(sizes[order[i]], price);
    }
    r := Equity(equity);
  }

  // ---------- Target quantities ----------

  function Multiple(k: int, unit: real): real {
    Times(k as real, unit)
  }

  function Ceil(x: real): int {
    -(-x).Floor
  }

  /** Price after slippage and gap reserve, rounded up to a tick. */
  function Adverse(setup: Setup, symbol: string, limits: Limits): real {
    var price := if setup.trend then PriceIn(setup.marks, symbol) else PriceIn(setup.fills, symbol);
    RoundedUp(Slipped(price, setup), limits.tick, setup.fraction)
  }

  function Slipped(price: real, setup: Setup): real {
    price * (1.0 + setup.slippageBps / 10_000.0) * (1.0 + setup.gapReserve)
  }

  function RoundedUp(price: real, tick: Option<real>, fraction: real): real {
    if tick.Some? && tick.value > 0.0 then Multiple(Ceil(price / tick.value - fraction), tick.value) else price
  }

  /** Cash one unit takes: the adverse price and the fee on it. */
  function UnitCost(setup: Setup, symbol: string, limits: Limits): real {
    Adverse(setup, symbol, limits) * (1.0 + setup.feeBps / 10_000.0)
  }

  function WeightOf(setup: Setup, count: nat, symbol: string): real {
    if setup.weights.Some? then
      if symbol in setup.weights.value then setup.weights.value[symbol] else 0.0
    else if count > 0 then setup.gross / count as real
    else 0.0
  }

  /** The whole lots in an amount. */
  function WholeLots(amount: real, lot: Positive, fraction: real): real {
    Multiple((amount / lot + fraction).Floor, lot)
  }

  function Allowance(equity: real, weight: real): real {
    equity * weight
  }

  function Quantity(equity: real, weight: real, cost: Positive, lot: Positive, fraction: real): real {
    WholeLots(Allowance(equity, weight) / cost, lot, fraction)
  }

  /** The whole number next to x; of two equally near ones the even one. */
  function NearestEven(x: real): int {
    var rest := x - x.Floor as real;
    if rest < 0.5 || (rest == 0.5 && x.Floor % 2 == 0) then x.Floor else x.Floor + 1
  }

  /** A quantity as it is kept, to a number of decimal places. */
  function ToPlaces(quantity: real, grain: NonNegative): real {
    if grain == 0.0 then quantity else Multiple(NearestEven(quantity / grain), grain)
  }

  function LimitsOf(setup: Setup, symbol: string): Option<Limits> {
    ConstraintValues(setup.rules, symbol, setup.signalAt)
  }

  function UnitCostOf(setup: Setup, s: string): real {
    if LimitsOf(setup, s).Some? then UnitCost(setup, s, LimitsOf(setup, s).value) else 0.0
  }

  function LotOf(setup: Setup, s: string): real {
    if LimitsOf(setup, s).Some? then LimitsOf(setup, s).value.lot else 0.0
  }

  predicate Sizable(setup: Setup, s: string) {
    PriceIn(setup.marks, s) > 0.0 && LotOf(setup, s) > 0.0 && UnitCostOf(setup, s) > 0.0
  }

  /** The quantity a target's weight allows. */
  function SizeOf(equity: real, count: nat, setup: Setup, s: string): real
    requires Sizable(setup, s)
  {
    ToPlaces(Quantity(equity, WeightOf(setup, count, s), UnitCostOf(setup, s), LotOf(setup, s), setup.fraction),
             setup.grain)
  }

  lemma PricedIsSizable(setup: Setup, s: string)
    requires PriceIn(setup.marks, s) > 0.0 && LimitsOf(setup, s).Some? && UnitCostOf(setup, s) > 0.0
    ensures Sizable(setup, s)
  {
    LotIsUsable(setup.rules, s, setup.signalAt);
  }

  function TargetsFrom(quantities: map<string, real>, equity: real, targets: seq<string>, count: nat, setup: Setup)
    : TargetResult
    decreases |targets|
  {
    if targets == [] then Targets(quantities)
    else
      var s := targets[0];
      if PriceIn(setup.marks, s) <= 0.0 then NoTargets(MarkUnavailable(s))
      else if LimitsOf(setup, s).None? then NoTargets(ConstraintUnavailable(s))
      else if UnitCostOf(setup, s) <= 0.0 then NoTargets(Unpriced(s))
      else
        PricedIsSizable(setup, s);
        TargetsFrom(quantities[s := SizeOf(equity, count, setup, s)], equity, targets[1..], count, setup)
  }

  method TargetQuantities(equity: real, targets: seq<string>, setup: Setup) returns (r: TargetResult)
    ensures r == TargetsFrom(map[], equity, targets, |targets|, setup)
  {
    var quantities: map<string, real> := map[];
    for i := 0 to |targets|
      invariant TargetsFrom(map[], equity, targets, |targets|, setup)
             == TargetsFrom(quantities, equity, targets[i..], |targets|, setup)
    {
      assert targets[i..][1..] == targets[i + 1..];
      var symbol := targets[i];
      if PriceIn(setup.marks, symbol) <= 0.0 {
        return NoTargets(MarkUnavailable(symbol));
      }
      var limits := ConstraintValues(setup.rules, symbol, setup.signalAt);
      if limits.None? {
        return NoTargets(ConstraintUnavailable(symbol));
      }
      var cost := UnitCost(setup, symbol, limits.value);
      if cost <= 0.0 {
        return NoTargets(Unpriced(symbol));
      }
      PricedIsSizable(setup, symbol);
      var quantity := Quantity(equity, WeightOf(setup, |targets|, symbol), cost, limits.value.lot, setup.fraction);
      quantities := quantities[symbol := ToPlaces(quantity, setup.grain)];
    }
    r := Targets(quantities);
  }

  // ---------- What the quantities are ----------

  lemma FloorBounds(x: real)
    ensures x.Floor as real <= x < x.Floor as real + 1.0
  {
  }

  lemma ScaleUp(a: real, b: real, k: Positive)
    requires a < b
    ensures a * k < b * k
  {
    assert 0.0 < (b - a) * k;
  }

  lemma ScaleUpWeak(a: real, b: real, k: Positive)
    requires a <= b
    ensures a * k <= b * k
  {
    assert 0.0 <= (b - a) * k;
  }

  lemma ProductSign(x: real, k: Positive)
    ensures x >= 0.0 ==> x * k >= 0.0
    ensures x > 0.0 ==> x * k > 0.0
  {
  }

  lemma Minus(a: real, b: real, k: real)
    ensures (b - a) * k == Times(b, k) - Times(a, k)
  {
  }

  lemma One(x: real)
    ensures 1.0 * x == x
  {
  }

  lemma TimesMonotone(a: real, b: real, k: Positive)
    requires a <= b
    ensures Times(a, k) <= Times(b, k)
    ensures a < b ==> Times(a, k) < Times(b, k)
  {
    ProductSign(b - a, k);
    Minus(a, b, k);
  }

  /** Scaling keeps a number between two that are one apart. */
  lemma ScaledBetween(low: real, x: real, unit: Positive)
    requires low <= x < low + 1.0
    ensures Times(low, unit) <= Times(x, unit) < Times(low, unit) + unit
  {
    TimesMonotone(low, x, unit);
    TimesMonotone(x, low + 1.0, unit);
    Spread(low, 1.0, unit);
    One(unit);
  }

  lemma Negated(x: real, y: real)
    ensures Times(-x, y) == -Times(x, y)
  {
  }

  lemma ShiftScaled(amount: real, unit: Positive, shift: real)
    ensures Times(amount / unit + shift, unit) == amount + Times(shift, unit)
  {
    Cancel(amount, unit);
    Spread(amount / unit, shift, unit);
  }

  /** The adverse price is a whole number of ticks, not below the slipped price by more than the
      forgiven part of a tick, and less than one tick above it. */
  lemma RoundedUpMeaning(price: real, tick: Positive, fraction: real)
    ensures var r := RoundedUp(price, Some(tick), fraction);
      price - Times(fraction, tick) <= r < price - Times(fraction, tick) + tick
    ensures exists k: int :: RoundedUp(price, Some(tick), fraction) == Multiple(k, tick)
  {
    var x, y := price / tick - fraction, fraction - price / tick;
    var k := Ceil(x);
    FloorBounds(-x);
    assert -x == y && k as real == -(y.Floor as real);
    ScaledBetween(y.Floor as real, y, tick);
    Negated(y.Floor as real, tick);
    Negated(y, tick);
    ShiftScaled(price, tick, -fraction);
    Negated(fraction, tick);
    assert Times(x, tick) == price - Times(fraction, tick);
    assert RoundedUp(price, Some(tick), fraction) == Multiple(k, tick);
  }

  lemma WholeLotsMeaning(amount: real, lot: Positive, fraction: real)
    ensures amount + Times(fraction, lot) - lot < WholeLots(amount, lot, fraction) <= amount + Times(fraction, lot)
    ensures exists k: int :: WholeLots(amount, lot, fraction) == Multiple(k, lot)
  {
    var x := amount / lot + fraction;
    FloorBounds(x);
    ScaledBetween(x.Floor as real, x, lot);
    ShiftScaled(amount, lot, fraction);
    assert WholeLots(amount, lot, fraction) == Multiple(x.Floor, lot);
  }

  function CostOf(quantity: real, cost: real): real {
    quantity * cost
  }

  /** What rounding to whole lots may add to a target's cost. */
  function Forgiven(cost: real, lot: real, fraction: real): real {
    Times(Times(fraction, lot), cost)
  }

  lemma ToPlacesIsNear(quantity: real, grain: NonNegative)
    ensures quantity - grain / 2.0 <= ToPlaces(quantity, grain) <= quantity + grain / 2.0
  {
    if grain > 0.0 {
      var x := quantity / grain;
      FloorBounds(x);
      var n := NearestEven(x) as real;
      TimesMonotone(x - 0.5, n, grain);
      TimesMonotone(n, x + 0.5, grain);
      ShiftScaled(quantity, grain, 0.5);
      ShiftScaled(quantity, grain, -0.5);
      assert Times(0.5, grain) == grain / 2.0 && Times(-0.5, grain) == -(grain / 2.0);
    }
  }

  /** Whole lots are kept as they are when the lot itself is a multiple of the grain. */
  lemma WholeLotsAreKept(k: int, lot: Positive, m: int, grain: Positive)
    requires lot == Multiple(m, grain)
    ensures ToPlaces(Multiple(k, lot), grain) == Multiple(k, lot)
  {
    var q := Multiple(k, lot);
    assert q == Multiple(k * m, grain) by {
      assert (k * m) as real == k as real * m as real;
      assert k as real * (m as real * grain) == k as real * m as real * grain;
    }
    WholeQuotient(k * m, grain);
  }

  lemma WholeQuotient(n: int, grain: Positive)
    ensures Multiple(n, grain) / grain == n as real
  {
  }

  /** What all the roundings may add to a target's cost. */
  function Slackened(setup: Setup, s: string): real {
    Forgiven(UnitCostOf(setup, s), LotOf(setup, s), setup.fraction) + Times(setup.grain / 2.0, UnitCostOf(setup, s))
  }

  /** A target is the most whole lots its share of equity pays for: it costs at most the share, and one
      lot more would cost more, each up to the forgiven part. */
  lemma QuantityFillsShare(equity: real, weight: real, cost: Positive, lot: Positive, fraction: real)
    ensures var q := Quantity(equity, weight, cost, lot, fraction);
      && CostOf(q, cost) <= Allowance(equity, weight) + Forgiven(cost, lot, fraction)
      && CostOf(q + lot, cost) > Allowance(equity, weight) + Forgiven(cost, lot, fraction)
  {
    var share := Allowance(equity, weight);
    var q := Quantity(equity, weight, cost, lot, fraction);
    WholeLotsMeaning(share / cost, lot, fraction);
    var bound := share / cost + Times(fraction, lot);
    ScaleUpWeak(q, bound, cost);
    ScaleUp(bound, q + lot, cost);
    Cancel(share, cost);
    Spread(share / cost, Times(fraction, lot), cost);
  }

  lemma Spread(a: real, b: real, k: real)
    ensures (a + b) * k == a * k + b * k
    ensures Times(a + b, k) == Times(a, k) + Times(b, k)
  {
  }

  function WeightSum(setup: Setup, count: nat, targets: seq<string>): real {
    if targets == [] then 0.0 else WeightOf(setup, count, targets[0]) + WeightSum(setup, count, targets[1..])
  }

  /** What buying every target outright would cost. */
  function TotalCost(quantities: map<string, real>, setup: Setup, targets: seq<string>): real
    requires forall s :: s in targets ==> s in quantities
  {
    if targets == [] then 0.0
    else CostOf(quantities[targets[0]], UnitCostOf(setup, targets[0])) + TotalCost(quantities, setup, targets[1..])
  }

  function TotalForgiven(setup: Setup, targets: seq<string>): real {
    if targets == [] then 0.0
    else
      Slackened(setup, targets[0]) + TotalForgiven(setup, targets[1..])
  }

  ghost predicate SizedAs(quantities: map<string, real>, equity: real, setup: Setup, count: nat, s: string) {
    s in quantities && Sizable(setup, s) && quantities[s] == SizeOf(equity, count, setup, s)
  }

  /** Every target is sized; a symbol that is not a target keeps what it had. */
  lemma {:induction false} AllSized(done: map<string, real>, equity: real, targets: seq<string>, count: nat,
                                    setup: Setup, s: string)
    requires TargetsFrom(done, equity, targets, count, setup).Targets?
    ensures var all := TargetsFrom(done, equity, targets, count, setup).quantities;
      && (s in targets || SizedAs(done, equity, setup, count, s) ==> SizedAs(all, equity, setup, count, s))
      && (s !in targets ==> (s in all <==> s in done))
    decreases |targets|
  {
    if targets != [] {
      PricedIsSizable(setup, targets[0]);
      AllSized(done[targets[0] := SizeOf(equity, count, setup, targets[0])], equity, targets[1..], count, setup, s);
      assert s in targets <==> s == targets[0] || s in targets[1..];
    }
  }

  lemma {:induction false} CostWithinWeights(quantities: map<string, real>, equity: real, targets: seq<string>,
                                             count: nat, setup: Setup)
    requires forall s :: s in targets ==> s in quantities
    requires forall s :: s in targets ==> SizedAs(quantities, equity, setup, count, s)
    ensures TotalCost(quantities, setup, targets)
         <= Allowance(equity, WeightSum(setup, count, targets)) + TotalForgiven(setup, targets)
    decreases |targets|
  {
    if targets == [] {
      assert Allowance(equity, 0.0) == 0.0;
    } else {
      var s := targets[0];
      assert SizedAs(quantities, equity, setup, count, s);
      CostWithinWeights(quantities, equity, targets[1..], count, setup);
      SizeFillsShare(equity, count, setup, s);
      AllowanceAdds(equity, WeightOf(setup, count, s), WeightSum(setup, count, targets[1..]));
    }
  }

  lemma SizeFillsShare(equity: real, count: nat, setup: Setup, s: string)
    requires Sizable(setup, s)
    ensures CostOf(SizeOf(equity, count, setup, s), UnitCostOf(setup, s))
         <= Allowance(equity, WeightOf(setup, count, s)) + Slackened(setup, s)
  {
    hide WeightOf, UnitCostOf, LotOf, ToPlaces, Quantity, Allowance, Forgiven;
    var weight, cost, lot := WeightOf(setup, count, s), UnitCostOf(setup, s), LotOf(setup, s);
    var quantity := Quantity(equity, weight, cost, lot, setup.fraction);
    QuantityFillsShare(equity, weight, cost, lot, setup.fraction);
    ToPlacesIsNear(quantity, setup.grain);
    ScaleUpWeak(ToPlaces(quantity, setup.grain), quantity + setup.grain / 2.0, cost);
    Spread(quantity, setup.grain / 2.0, cost);
  }

  /** A target whose lot is a multiple of the grain is a whole number of lots. */
  lemma SizesAreWholeLots(equity: real, count: nat, setup: Setup, s: string, m: int)
    requires Sizable(setup, s) && setup.grain > 0.0 && LotOf(setup, s) == Multiple(m, setup.grain)
    ensures SizeOf(equity, count, setup, s)
         == Quantity(equity, WeightOf(setup, count, s), UnitCostOf(setup, s), LotOf(setup, s), setup.fraction)
  {
    var amount := Allowance(equity, WeightOf(setup, count, s)) / UnitCostOf(setup, s);
    WholeLotsAreKept((amount / LotOf(setup, s) + setup.fraction).Floor, LotOf(setup, s), m, setup.grain);
  }

  lemma AllowanceAdds(equity: real, a: real, b: real)
    ensures Allowance(equity, a + b) == Allowance(equity, a) + Allowance(equity, b)
  {
  }

  lemma NothingForgiven(setup: Setup, targets: seq<string>)
    requires setup.fraction == 0.0 && setup.grain == 0.0
    ensures TotalForgiven(setup, targets) == 0.0
  {
  }

  /** All targets together, at their adverse prices and fees, cost at most the weighted part of
      decision equity; the roundings add no more than their forgiven parts, which vanish when nothing
      is forgiven or rounded. */
  lemma TargetsAreAffordable(equity: real, targets: seq<string>, setup: Setup)
    requires TargetsFrom(map[], equity, targets, |targets|, setup).Targets?
    ensures var all := TargetsFrom(map[], equity, targets, |targets|, setup).quantities;
      && (forall s :: s in targets <==> s in all)
      && TotalCost(all, setup, targets)
         <= Allowance(equity, WeightSum(setup, |targets|, targets)) + TotalForgiven(setup, targets)
      && (setup.fraction == 0.0 && setup.grain == 0.0 ==> TotalForgiven(setup, targets) == 0.0)
  {
    var all := TargetsFrom(map[], equity, targets, |targets|, setup).quantities;
    forall s
      ensures s in targets ==> SizedAs(all, equity, setup, |targets|, s)
      ensures s in targets <==> s in all
    {
      AllSized(map[], equity, targets, |targets|, setup, s);
    }
    CostWithinWeights(all, equity, targets, |targets|, setup);
    if setup.fraction == 0.0 && setup.grain == 0.0 {
      NothingForgiven(setup, targets);
    }
  }

  // ---------- From the setup's own figures ----------

  /** What a position is valued at: a trend strategy's at its mark, another's at the price it can be executed
      at, if there is one. */
  function ValuedAt(setup: Setup, s: string): real {
    if !setup.trend && s in setup.fills && setup.fills[s] > 0.0 then setup.fills[s]
    else if s in setup.marks then setup.marks[s]
    else 0.0
  }

  function PositionsWorth(sizes: map<string, real>, order: seq<string>, setup: Setup): real
    requires forall s :: s in order ==> s in sizes
  {
    if order == [] then 0.0
    else sizes[order[0]] * ValuedAt(setup, order[0]) + PositionsWorth(sizes, order[1..], setup)
  }

  /** Decision equity is cash and every size at its valuation price; there is none exactly when some position
      has no price. */
  lemma {:induction false} EquityIsCashAndPositions(cash: real, sizes: map<string, real>, order: seq<string>,
                                                    setup: Setup)
    requires forall s :: s in order ==> s in sizes
    ensures EquityFrom(cash, sizes, order, setup).Equity? <==> forall s :: s in order ==> ValuedAt(setup, s) > 0.0
    ensures EquityFrom(cash, sizes, order, setup).Equity? ==>
      EquityFrom(cash, sizes, order, setup).value == cash + PositionsWorth(sizes, order, setup)
    decreases |order|
  {
    if order != [] {
      assert Valuation(setup, order[0]) == ValuedAt(setup, order[0]);
      EquityIsCashAndPositions(cash + Worth(sizes[order[0]], Valuation(setup, order[0])), sizes, order[1..], setup);
      assert forall s :: s in order <==> s == order[0] || s in order[1..];
    }
  }

  /** The price a target would be bought at without slippage. */
  function PlainPrice(setup: Setup, s: string): real {
    if setup.trend then PriceIn(setup.marks, s) else PriceIn(setup.fills, s)
  }

  lemma RaisedByFactor(price: real, a: real, b: real)
    requires price >= 0.0 && a >= 0.0 && b >= 0.0
    ensures price * (1.0 + a) * (1.0 + b) >= price
  {
    ProductIsNonNegative(price, a);
    assert price * (1.0 + a) == price + price * a;
    ProductIsNonNegative(price * (1.0 + a), b);
    assert price * (1.0 + a) * (1.0 + b) == price * (1.0 + a) + price * (1.0 + a) * b;
  }

  /** The price with slippage and gap reserve. */
  function WithSlippage(setup: Setup, s: string): real {
    PlainPrice(setup, s) * (1.0 + setup.slippageBps / 10_000.0) * (1.0 + setup.gapReserve)
  }

  /** A unit costs the adverse price and the fee on it. The adverse price is the slipped one, which is not
      below the plain price, or less than a tick above it on a tick, forgiving part of one. */
  lemma UnitCostIsAdverse(setup: Setup, s: string) returns (adverse: real)
    requires LimitsOf(setup, s).Some?
    ensures UnitCostOf(setup, s) == adverse * (1.0 + setup.feeBps / 10_000.0)
    ensures WithSlippage(setup, s) >= PlainPrice(setup, s)
    ensures var tick := LimitsOf(setup, s).value.tick;
      if tick.Some? && tick.value > 0.0 then
        var forgiven := Times(setup.fraction, tick.value);
        WithSlippage(setup, s) - forgiven <= adverse < WithSlippage(setup, s) - forgiven + tick.value
      else adverse == WithSlippage(setup, s)
  {
    hide RoundedUp, Times, WithSlippage, PlainPrice;
    var limits := LimitsOf(setup, s).value;
    adverse := Adverse(setup, s, limits);
    SlippageRaises(setup, s);
    AdverseIsRoundedUp(setup, s, limits);
    if limits.tick.Some? && limits.tick.value > 0.0 {
      RoundedUpMeaning(WithSlippage(setup, s), limits.tick.value, setup.fraction);
    } else {
      Unrounded(WithSlippage(setup, s), limits.tick, setup.fraction);
    }
  }

  lemma SlippageRaises(setup: Setup, s: string)
    ensures WithSlippage(setup, s) >= PlainPrice(setup, s)
  {
    RaisedByFactor(PlainPrice(setup, s), setup.slippageBps / 10_000.0, setup.gapReserve);
  }

  lemma AdverseIsRoundedUp(setup: Setup, s: string, limits: Limits)
    ensures Adverse(setup, s, limits) == RoundedUp(WithSlippage(setup, s), limits.tick, setup.fraction)
  {
    assert Slipped(PlainPrice(setup, s), setup) == WithSlippage(setup, s);
  }

  lemma Unrounded(price: real, tick: Option<real>, fraction: real)
    requires tick.None? || tick.value <= 0.0
    ensures RoundedUp(price, tick, fraction) == price
  {
  }

  lemma {:induction false} EqualWeights(setup: Setup, count: nat, targets: seq<string>)
    requires setup.weights.None? && count > 0
    ensures WeightSum(setup, count, targets) == |targets| as real * (setup.gross / count as real)
  {
    if targets != [] {
      EqualWeights(setup, count, targets[1..]);
      var n, w := |targets[1..]| as real, setup.gross / count as real;
      assert (n + 1.0) * w == n * w + w;
    }
  }

  /** Without weights of their own the targets share the gross exposure. */
  lemma EqualWeightsShareGross(setup: Setup, targets: seq<string>)
    requires setup.weights.None? && targets != []
    ensures WeightSum(setup, |targets|, targets) == setup.gross
  {
    EqualWeights(setup, |targets|, targets);
    Cancel(setup.gross, |targets| as real);
  }
}
