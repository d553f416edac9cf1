/** From selected rows to a plan: the weights the rows are given, the quantities those weights buy, and
    what the whole plan can cost. */
module Allocation {
  import opened RealMath
  import opened FiniteSums
  import opened MarketData
  import opened Sizing
  import Rebalance
  import Redistribution

  lemma {:induction false} WeightsAlong(setup: Setup, count: nat, targets: seq<string>, weights: map<string, real>)
    requires setup.weights == Some(weights) && forall s :: s in targets ==> s in weights
    ensures WeightSum(setup, count, targets) == SumAlong(targets, weights, Redistribution.Value)
  {
    if targets != [] {
      WeightsAlong(setup, count, targets[1..], weights);
    }
  }

  lemma AllowanceGrows(equity: real, a: real, b: real)
    requires equity >= 0.0 && a <= b
    ensures Allowance(equity, a) <= Allowance(equity, b)
  {
    assert 0.0 <= equity * (b - a);
  }

  /** The weights given to the rows a strategy selects. */
  ghost function WeightsFor(rows: seq<Redistribution.Row>, floor: Positive, sized: bool, plan: Redistribution.Plan)
    : map<string, real>
  {
    var raw := Redistribution.RawWeights(rows, floor, sized);
    Redistribution.SelectedRowsAreAllocated(rows, floor, sized, plan);
    Redistribution.Allocate(raw, Redistribution.RowTotal(rows, floor, sized), plan)
  }

  /** A plan for the selected rows costs at most decision equity times the target exposure, and at most
      equity times n caps, adverse prices and fees included; the roundings add no more than their
      forgiven parts. */
  lemma PlanMeetsCaps(rows: seq<Redistribution.Row>, floor: Positive, sized: bool, plan: Redistribution.Plan,
                      cash: real, sizes: map<string, real>, held: seq<string>, targets: seq<string>, setup: Setup,
                      terms: Rebalance.Terms)
    requires setup.weights == Some(WeightsFor(rows, floor, sized, plan))
    requires Enumerates(targets, setup.weights.value)
    requires forall s :: s in held ==> s in sizes
    requires Rebalance.PlanOf(cash, sizes, held, targets, setup, terms).Planned?
    ensures EquityFrom(cash, sizes, held, setup).Equity?
    ensures var quantities := Rebalance.PlanOf(cash, sizes, held, targets, setup, terms).order.targets;
      var equity, n := EquityFrom(cash, sizes, held, setup).value, |setup.weights.value|;
      && (forall s :: s in targets <==> s in quantities)
      && (equity >= 0.0 ==>
            TotalCost(quantities, setup, targets)
            <= Allowance(equity, Min(plan.target, Copies(n, plan.cap))) + TotalForgiven(setup, targets))
  {
    var weights := setup.weights.value;
    var equity := EquityFrom(cash, sizes, held, setup).value;
    Redistribution.SelectedRowsAreAllocated(rows, floor, sized, plan);
    TargetsAreAffordable(equity, targets, setup);
    WeightsAlong(setup, |targets|, targets, weights);
    SumAlongIsSumOver(targets, weights, Redistribution.Value);
    if equity >= 0.0 {
      SameSize(weights, Redistribution.RawWeights(rows, floor, sized));
      AllowanceGrows(equity, WeightSum(setup, |targets|, targets), Min(plan.target, Copies(|weights|, plan.cap)));
    }
  }
}
