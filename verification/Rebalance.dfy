/** The rebalance: reductions first, then additions, each trimmed to what is left of the turnover
    budget. The broker may fill any part of a request, or fail. */
module Rebalance {
  import opened Orders
  import opened RealMath
  import opened MarketData
  import opened Sizing

  /** A submitted delta, with the holding and target it was computed from. */
  datatype Request = Request(symbol: string, side: Side, mandatory: bool, held: real, target: real, quantity: real,
                             notional: real)
  datatype Reply = Reply(filled: real, ok: bool)

  /** threshold: deltas at or below it are ignored; grid: grain of a trimmed quantity; dust: holdings
      at or below it are deleted. */
  datatype Grain = Grain(threshold: NonNegative, grid: Positive, dust: NonNegative)

  datatype Order = Order(marks: map<string, NonNegative>, targets: map<string, real>, mandatory: set<string>,
                         minimum: real, grain: Grain)

  /** budget: what is left of the turnover budget, if there is one. */
  datatype State = State(sizes: map<string, real>, log: seq<Request>, budget: Option<real>, ok: bool)

  type Broker = seq<Request> -> Reply

  function Held(sizes: map<string, real>, symbol: string): real {
    if symbol in sizes then sizes[symbol] else 0.0
  }

  // ---------- One request ----------

  /** The quantity worth the budget, on the grid. */
  function Trimmed(budget: real, mark: Positive, grid: Positive): real {
    Multiple((budget / mark / grid).Floor, grid)
  }

  /** A delta cut to the budget; None when nothing can be afforded at a missing mark. */
  function Affordable(delta: real, mark: NonNegative, budget: Option<real>, grid: Positive): Option<real> {
    if budget.None? || Worth(delta, mark) <= budget.value then Some(delta)
    else if mark > 0.0 then Some(Trimmed(budget.value, mark, grid))
    else None
  }

  function SellRequest(st: State, symbol: string, order: Order): Option<Request> {
    var held, target, mark := Held(st.sizes, symbol), Held(order.targets, symbol), PriceIn(order.marks, symbol);
    var mandatory := symbol in order.mandatory;
    if held - target <= order.grain.threshold then None
    else if !mandatory && Worth(held - target, mark) < order.minimum then None
    else
      var delta :=
        if mandatory then Some(held - target) else Affordable(held - target, mark, st.budget, order.grain.grid);
      if delta.None? || delta.value <= order.grain.threshold then None
      else Some(Request(symbol, Sell, mandatory, held, target, delta.value, Worth(delta.value, mark)))
  }

  function BuyRequest(st: State, symbol: string, order: Order): Option<Request> {
    var held, target, mark := Held(st.sizes, symbol), Held(order.targets, symbol), PriceIn(order.marks, symbol);
    if target - held <= order.grain.threshold then None
    else if Worth(target - held, mark) < order.minimum then None
    else
      var delta := Affordable(target - held, mark, st.budget, order.grain.grid);
      if delta.None? || delta.value <= order.grain.threshold then None
      else Some(Request(symbol, Buy, false, held, target, delta.value, Worth(delta.value, mark)))
  }

  function Settled(sizes: map<string, real>, r: Request, filled: real, dust: real): map<string, real> {
    var left := if r.side.Sell? then Held(sizes, r.symbol) - filled else Held(sizes, r.symbol) + filled;
    if r.side.Sell? && left <= dust then sizes - {r.symbol} else sizes[r.symbol := left]
  }

  function Spent(budget: Option<real>, r: Request): Option<real> {
    if budget.None? || r.mandatory then budget else Some(budget.value - r.notional)
  }

  function Submitted(st: State, r: Request, order: Order, broker: Broker): State {
    var log := st.log + [r];
    State(Settled(st.sizes, r, broker(log).filled, order.grain.dust), log, Spent(st.budget, r), broker(log).ok)
  }

  // ---------- The two phases ----------

  function Step(st: State, r: Option<Request>, order: Order, broker: Broker): State {
    if r.None? then st else Submitted(st, r.value, order, broker)
  }

  function SellAll(st: State, symbols: seq<string>, order: Order, broker: Broker): State
    decreases |symbols|
  {
    if symbols == [] || !st.ok then st
    else SellAll(Step(st, SellRequest(st, symbols[0], order), order, broker), symbols[1..], order, broker)
  }

  function BuyAll(st: State, symbols: seq<string>, order: Order, broker: Broker): State
    decreases |symbols|
  {
    if symbols == [] || !st.ok then st
    else BuyAll(Step(st, BuyRequest(st, symbols[0], order), order, broker), symbols[1..], order, broker)
  }

  function Opening(sizes: map<string, real>, budget: Option<real>): State {
    State(sizes, [], budget, true)
  }

  function RebalanceAll(sizes: map<string, real>, budget: Option<real>, sells: seq<string>, buys: seq<string>,
                        order: Order, broker: Broker): State
  {
    BuyAll(SellAll(Opening(sizes, budget), sells, order, broker), buys, order, broker)
  }

  // ---------- The whole plan ----------

  /** skip and turnover are fractions of decision equity; mandatory lists the forced exits. */
  datatype Terms = Terms(skip: real, turnover: Option<real>, mandatory: set<string>, grain: Grain)
  datatype Plan = Unplanned(error: SizingError) | Planned(order: Order, budget: Option<real>)
  datatype Outcome = Unsized(error: SizingError) | Stopped | Finished

  function PlanOf(cash: real, sizes: map<string, real>, held: seq<string>, targets: seq<string>, setup: Setup,
                  terms: Terms): Plan
    requires forall s :: s in held ==> s in sizes
  {
    match EquityFrom(cash, sizes, held, setup)
    case NoEquity(error) => Unplanned(error)
    case Equity(equity) =>
      match TargetsFrom(map[], equity, targets, |targets|, setup)
      case NoTargets(error) => Unplanned(error)
      case Targets(quantities) =>
        Planned(Order(setup.marks, quantities, terms.mandatory, Allowance(equity, terms.skip), terms.grain),
                if terms.turnover.Some? then Some(Allowance(equity, terms.turnover.value)) else None)
  }

  // ---------- As the program runs it ----------

  /** The holdings a rebalance works on, and the requests it has made. */
  class Desk {
    const broker: Broker
    var sizes: map<string, real>
    var log: seq<Request>

    constructor (sizes: map<string, real>, broker: Broker)
      ensures this.broker == broker && this.sizes == sizes && log == []
    {
      this.broker, this.sizes, log := broker, sizes, [];
    }

    ghost function Current(budget: Option<real>, ok: bool): State
      reads this
    {
      State(sizes, log, budget, ok)
    }

    /** Sends a request and books what is filled. */
    method Submit(r: Request, dust: real) returns (ok: bool)
      modifies this
      ensures log == old(log) + [r] && ok == broker(log).ok
      ensures sizes == Settled(old(sizes), r, broker(log).filled, dust)
    {
      log := log + [r];
      var reply := broker(log);
      var held := Held(sizes, r.symbol);
      if r.side.Buy? {
        sizes := sizes[r.symbol := held + reply.filled];
      } else if held - reply.filled <= dust {
        sizes := sizes - {r.symbol};
      } else {
        sizes := sizes[r.symbol := held - reply.filled];
      }
      ok := reply.ok;
    }

    /** One reduction, if there is one to make. */
    method Reduce(symbol: string, order: Order, budget: Option<real>) returns (remaining: Option<real>, ok: bool)
      modifies this
      ensures Current(remaining, ok) ==
              Step(old(Current(budget, true)), SellRequest(old(Current(budget, true)), symbol, order), order, broker)
    {
      remaining, ok := budget, true;
      var current, desired, mark := Held(sizes, symbol), Held(order.targets, symbol), PriceIn(order.marks, symbol);
      var mandatory := symbol in order.mandatory;
      if current - desired > order.grain.threshold {
        var delta := current - desired;
        var notional := Worth(delta, mark);
        if !mandatory && notional < order.minimum {
          return;
        }
        if !mandatory && budget.Some? && notional > budget.value {
          if mark == 0.0 {
            return;
          }
          delta := Trimmed(budget.value, mark, order.grain.grid);
          notional := Worth(delta, mark);
        }
        if delta <= order.grain.threshold {
          return;
        }
        ok := Submit(Request(symbol, Sell, mandatory, current, desired, delta, notional), order.grain.dust);
        if !mandatory && budget.Some? {
          remaining := Some(budget.value - notional);
        }
      }
    }

    /** One addition, if there is one to make. */
    method Add(symbol: string, order: Order, budget: Option<real>) returns (remaining: Option<real>, ok: bool)
      modifies this
      ensures Current(remaining, ok) ==
              Step(old(Current(budget, true)), BuyRequest(old(Current(budget, true)), symbol, order), order, broker)
    {
      remaining, ok := budget, true;
      var current, target, mark := Held(sizes, symbol), Held(order.targets, symbol), PriceIn(order.marks, symbol);
      if target - current > order.grain.threshold {
        var delta := target - current;
        var notional := Worth(delta, mark);
        if notional < order.minimum {
          return;
        }
        if budget.Some? && notional > budget.value {
          if mark == 0.0 {
            return;
          }
          delta := Trimmed(budget.value, mark, order.grain.grid);
          notional := Worth(delta, mark);
        }
        if delta <= order.grain.threshold {
          return;
        }
        ok := Submit(Request(symbol, Buy, false, current, target, delta, notional), order.grain.dust);
        if budget.Some? {
          remaining := Some(budget.value - notional);
        }
      }
    }

    /** Reductions, then additions, stopping at the first failure. sells lists the held symbols and
        buys the targets, each in the program's identity order. */
    method Run(sells: seq<string>, buys: seq<string>, order: Order, budget: Option<real>) returns (ok: bool)
      modifies this
      ensures var end := BuyAll(SellAll(old(Current(budget, true)), sells, order, broker), buys, order, broker);
        sizes == end.sizes && log == end.log && ok == end.ok
    {
      var remaining := budget;
      ok := true;
      ghost var afterSells := SellAll(Current(budget, true), sells, order, broker);
      for i := 0 to |sells|
        invariant ok && SellAll(Current(remaining, true), sells[i..], order, broker) == afterSells
      {
        assert sells[i..][1..] == sells[i + 1..];
        remaining, ok := Reduce(sells[i], order, remaining);
        if !ok {
          return;
        }
      }
      ghost var end := BuyAll(afterSells, buys, order, broker);
      for i := 0 to |buys|
        invariant ok && BuyAll(Current(remaining, true), buys[i..], order, broker) == end
      {
        assert buys[i..][1..] == buys[i + 1..];
        remaining, ok := Add(buys[i], order, remaining);
        if !ok {
          return;
        }
      }
    }

    /** rebalance: sizes the targets from decision equity and runs both phases. held lists the positions
        and buys the targets, each in the program's identity order. */
    method RebalanceTo(cash: real, held: seq<string>, targets: seq<string>, buys: seq<string>, setup: Setup,
                       terms: Terms)
      returns (r: Outcome)
      requires forall s :: s in held ==> s in sizes
      modifies this
      ensures match PlanOf(cash, old(sizes), held, targets, setup, terms)
        case Unplanned(error) => r == Unsized(error) && sizes == old(sizes) && log == old(log)
        case Planned(order, budget) =>
          var end := BuyAll(SellAll(old(Current(budget, true)), held, order, broker), buys, order, broker);
          sizes == end.sizes && log == end.log && r == if end.ok then Finished else Stopped
    {
      var equity := DecisionEquity(cash, sizes, held, setup);
      if equity.NoEquity? {
        return Unsized(equity.error);
      }
      var quantities := TargetQuantities(equity.value, targets, setup);
      if quantities.NoTargets? {
        return Unsized(quantities.error);
      }
      var order := Order(setup.marks, quantities.quantities, terms.mandatory, Allowance(equity.value, terms.skip),
                         terms.grain);
      var budget := if terms.turnover.Some? then Some(Allowance(equity.value, terms.turnover.value)) else None;
      var ok := Run(held, buys, order, budget);
      r := if ok then Finished else Stopped;
    }
  }

  // ---------- What every rebalance keeps ----------

  /** A broker fills between nothing and the whole of what was asked. */
  ghost predicate FillsWithin(broker: Broker) {
    forall log: seq<Request> :: log != [] ==> 0.0 <= broker(log).filled <= log[|log| - 1].quantity
  }

  /** A request moves toward its target and not past it. A discretionary one is worth making; a
      mandatory one asks for everything above the target. */
  predicate Disciplined(r: Request, order: Order) {
    && r.target == Held(order.targets, r.symbol) && r.quantity > order.grain.threshold
    && r.notional == Worth(r.quantity, PriceIn(order.marks, r.symbol)) && r.notional >= 0.0
    && (r.mandatory <==> r.side.Sell? && r.symbol in order.mandatory)
    && var gap := if r.side.Sell? then r.held - r.target else r.target - r.held;
    && r.quantity <= gap && (r.mandatory ==> r.quantity == gap)
    && (!r.mandatory ==> Worth(gap, PriceIn(order.marks, r.symbol)) >= order.minimum)
  }

  function DiscretionaryTotal(log: seq<Request>): real {
    if log == [] then 0.0
    else
      var last := log[|log| - 1];
      DiscretionaryTotal(log[..|log| - 1]) + if last.mandatory then 0.0 else last.notional
  }

  lemma WorthSign(quantity: real, mark: NonNegative)
    requires quantity >= 0.0
    ensures Worth(quantity, mark) >= 0.0
  {
  }

  lemma TrimmedWithin(delta: real, mark: Positive, budget: real, grid: Positive)
    requires Worth(delta, mark) > budget
    ensures Trimmed(budget, mark, grid) <= delta && Worth(Trimmed(budget, mark, grid), mark) <= budget
  {
    var units := budget / mark;
    WholeLotsMeaning(units, grid, 0.0);
    assert Trimmed(budget, mark, grid) == WholeLots(units, grid, 0.0);
    assert Times(0.0, grid) == 0.0;
    Cancel(budget, mark);
    TimesMonotone(Trimmed(budget, mark, grid), units, mark);
    if delta < units {
      TimesMonotone(delta, units, mark);
    }
  }

  lemma AffordableWithin(delta: real, mark: NonNegative, budget: Option<real>, grid: Positive)
    requires Affordable(delta, mark, budget, grid).Some?
    ensures var q := Affordable(delta, mark, budget, grid).value;
      q <= delta && (budget.Some? ==> Worth(q, mark) <= budget.value)
  {
    if budget.Some? && Worth(delta, mark) > budget.value {
      TrimmedWithin(delta, mark, budget.value, grid);
    }
  }

  /** Discretionary requests never ask for more than the budget has left. */
  predicate WithinBudget(r: Request, budget: Option<real>) {
    !r.mandatory && budget.Some? ==> r.notional <= budget.value
  }

  lemma RequestIsDisciplined(st: State, symbol: string, order: Order, r: Request)
    requires SellRequest(st, symbol, order) == Some(r) || BuyRequest(st, symbol, order) == Some(r)
    ensures Disciplined(r, order) && WithinBudget(r, st.budget) && r.held == Held(st.sizes, r.symbol)
    ensures r.side.Sell? <==> SellRequest(st, symbol, order) == Some(r)
  {
    var mark := PriceIn(order.marks, symbol);
    var gap := if r.side.Sell? then r.held - r.target else r.target - r.held;
    WorthSign(r.quantity, mark);
    if !r.mandatory {
      AffordableWithin(gap, mark, st.budget, order.grain.grid);
    }
  }

  /** Holdings once some requests have been filled, from those before them. */
  function SizesAfter(sizes: map<string, real>, log: seq<Request>, order: Order, broker: Broker): map<string, real> {
    if log == [] then sizes
    else
      var last := log[|log| - 1];
      Settled(SizesAfter(sizes, log[..|log| - 1], order, broker), last, broker(log).filled, order.grain.dust)
  }

  /** Request i is disciplined and was measured against what was held when it was made. */
  predicate Measured(sizes: map<string, real>, log: seq<Request>, i: nat, order: Order, broker: Broker)
    requires i < |log|
  {
    Disciplined(log[i], order) && log[i].held == Held(SizesAfter(sizes, log[..i], order, broker), log[i].symbol)
  }

  /** What holds after any number of requests from some sizes: each was disciplined, and what the
      discretionary ones asked for is what the budget lost, which is nothing when it started below zero. */
  ghost predicate Kept(st: State, order: Order, budget: Option<real>, sizes: map<string, real>, broker: Broker) {
    && st.sizes == SizesAfter(sizes, st.log, order, broker)
    && (forall i :: 0 <= i < |st.log| ==> Measured(sizes, st.log, i, order, broker))
    && (st.budget.Some? <==> budget.Some?)
    && (budget.Some? ==>
          DiscretionaryTotal(st.log) == budget.value - st.budget.value && st.budget.value >= Min(0.0, budget.value))
  }

  lemma StepKeeps(st: State, symbol: string, order: Order, broker: Broker, budget: Option<real>, r: Request,
                  sizes: map<string, real>)
    requires Kept(st, order, budget, sizes, broker)
    requires SellRequest(st, symbol, order) == Some(r) || BuyRequest(st, symbol, order) == Some(r)
    ensures Kept(Submitted(st, r, order, broker), order, budget, sizes, broker)
  {
    RequestIsDisciplined(st, symbol, order, r);
    var longer := st.log + [r];
    assert longer[..|st.log|] == st.log;
    forall i | 0 <= i < |longer| ensures Measured(sizes, longer, i, order, broker) {
      assert i < |st.log| ==> longer[..i] == st.log[..i] && Measured(sizes, st.log, i, order, broker);
    }
  }

  ghost predicate All(log: seq<Request>, side: Side) {
    forall i :: 0 <= i < |log| ==> log[i].side == side
  }

  lemma {:induction false} SellAllKeeps(st: State, symbols: seq<string>, order: Order, broker: Broker,
                                        budget: Option<real>, sizes: map<string, real>)
    requires Kept(st, order, budget, sizes, broker) && All(st.log, Sell)
    ensures var end := SellAll(st, symbols, order, broker);
      Kept(end, order, budget, sizes, broker) && All(end.log, Sell)
    decreases |symbols|
  {
    if symbols != [] && st.ok {
      var r := SellRequest(st, symbols[0], order);
      if r.Some? {
        StepKeeps(st, symbols[0], order, broker, budget, r.value, sizes);
      }
      SellAllKeeps(Step(st, r, order, broker), symbols[1..], order, broker, budget, sizes);
    }
  }

  ghost predicate SellsFirst(log: seq<Request>) {
    forall i, j :: 0 <= i < j < |log| && log[j].side.Sell? ==> log[i].side.Sell?
  }

  lemma {:induction false} BuyAllKeeps(st: State, symbols: seq<string>, order: Order, broker: Broker,
                                       budget: Option<real>, sizes: map<string, real>)
    requires Kept(st, order, budget, sizes, broker) && SellsFirst(st.log)
    ensures var end := BuyAll(st, symbols, order, broker);
      Kept(end, order, budget, sizes, broker) && SellsFirst(end.log)
    decreases |symbols|
  {
    if symbols != [] && st.ok {
      var r := BuyRequest(st, symbols[0], order);
      if r.Some? {
        StepKeeps(st, symbols[0], order, broker, budget, r.value, sizes);
      }
      BuyAllKeeps(Step(st, r, order, broker), symbols[1..], order, broker, budget, sizes);
    }
  }

  /** Whatever the broker does: every sell comes before every buy, each request is measured against what is
      held by then and does not go past its target, the discretionary requests ask for no more than the
      turnover budget, and the holdings end as the fills leave them. */
  lemma RequestsAreDisciplined(sizes: map<string, real>, budget: Option<real>, sells: seq<string>, buys: seq<string>,
                               order: Order, broker: Broker)
    ensures var end := RebalanceAll(sizes, budget, sells, buys, order, broker);
      var log := end.log;
      && SellsFirst(log) && end.sizes == SizesAfter(sizes, log, order, broker)
      && (forall i :: 0 <= i < |log| ==> Measured(sizes, log, i, order, broker))
      && (budget.Some? ==> DiscretionaryTotal(log) <= Max(0.0, budget.value))
  {
    var start := Opening(sizes, budget);
    SellAllKeeps(start, sells, order, broker, budget, sizes);
    BuyAllKeeps(SellAll(start, sells, order, broker), buys, order, broker, budget, sizes);
  }

  // ---------- Where holdings end ----------

  /** Between two amounts, give or take dust below. */
  predicate Between(first: real, x: real, second: real, dust: real) {
    Min(first, second) - dust <= x <= Max(first, second)
  }

  lemma StepStaysBetween(st: State, symbol: string, order: Order, broker: Broker, r: Request, first: real, s: string)
    requires SellRequest(st, symbol, order) == Some(r) || BuyRequest(st, symbol, order) == Some(r)
    requires FillsWithin(broker) && first >= 0.0
    requires Between(first, Held(st.sizes, s), Held(order.targets, s), order.grain.dust)
    ensures Between(first, Held(Submitted(st, r, order, broker).sizes, s), Held(order.targets, s), order.grain.dust)
  {
    RequestIsDisciplined(st, symbol, order, r);
    var log := st.log + [r];
    assert log[|log| - 1] == r;
    assert 0.0 <= broker(log).filled <= r.quantity;
  }

  lemma {:induction false} PhasesStayBetween(st: State, symbols: seq<string>, order: Order, broker: Broker, first: real,
                                             s: string)
    requires FillsWithin(broker) && first >= 0.0
    requires Between(first, Held(st.sizes, s), Held(order.targets, s), order.grain.dust)
    ensures Between(first, Held(SellAll(st, symbols, order, broker).sizes, s), Held(order.targets, s), order.grain.dust)
    ensures Between(first, Held(BuyAll(st, symbols, order, broker).sizes, s), Held(order.targets, s), order.grain.dust)
    decreases |symbols|
  {
    if symbols != [] && st.ok {
      var sell, buy := SellRequest(st, symbols[0], order), BuyRequest(st, symbols[0], order);
      if sell.Some? {
        StepStaysBetween(st, symbols[0], order, broker, sell.value, first, s);
      }
      if buy.Some? {
        StepStaysBetween(st, symbols[0], order, broker, buy.value, first, s);
      }
      PhasesStayBetween(Step(st, sell, order, broker), symbols[1..], order, broker, first, s);
      PhasesStayBetween(Step(st, buy, order, broker), symbols[1..], order, broker, first, s);
    }
  }

  /** Every holding ends between where it started and its target, up to deleted dust. */
  lemma HoldingsMoveTowardTargets(sizes: map<string, real>, budget: Option<real>, sells: seq<string>,
                                  buys: seq<string>, order: Order, broker: Broker, s: string)
    requires FillsWithin(broker) && Held(sizes, s) >= 0.0
    ensures var end := RebalanceAll(sizes, budget, sells, buys, order, broker);
      Between(Held(sizes, s), Held(end.sizes, s), Held(order.targets, s), order.grain.dust)
  {
    var start := Opening(sizes, budget);
    PhasesStayBetween(start, sells, order, broker, Held(sizes, s), s);
    PhasesStayBetween(SellAll(start, sells, order, broker), buys, order, broker, Held(sizes, s), s);
  }

  /** The whole rebalance: the requests it adds keep to the discipline, with the turnover budget taken
      from decision equity. */
  lemma PlannedBudgetHolds(cash: real, sizes: map<string, real>, held: seq<string>, targets: seq<string>,
                           buys: seq<string>, setup: Setup, terms: Terms, broker: Broker)
    requires forall s :: s in held ==> s in sizes
    requires PlanOf(cash, sizes, held, targets, setup, terms).Planned?
    ensures var plan := PlanOf(cash, sizes, held, targets, setup, terms);
      var equity := EquityFrom(cash, sizes, held, setup);
      var log := RebalanceAll(sizes, plan.budget, held, buys, plan.order, broker).log;
      && equity.Equity?
      && (terms.turnover.Some? ==>
            DiscretionaryTotal(log) <= Max(0.0, Allowance(equity.value, terms.turnover.value)))
      && (forall s :: s in targets ==> s in plan.order.targets)
      && TotalCost(plan.order.targets, setup, targets)
         <= Allowance(equity.value, WeightSum(setup, |targets|, targets)) + TotalForgiven(setup, targets)
  {
    var plan := PlanOf(cash, sizes, held, targets, setup, terms);
    RequestsAreDisciplined(sizes, plan.budget, held, buys, plan.order, broker);
    TargetsAreAffordable(EquityFrom(cash, sizes, held, setup).value, targets, setup);
  }
}
