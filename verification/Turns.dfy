/** Which requests a rebalance makes: exactly when a symbol is asked for and how much, told from the
    holdings, the targets and the requests before it; and where the holdings end when all are filled. */
module Turns {
  import opened MarketData
  import opened Orders
  import opened RealMath
  import opened Rebalance
  import opened Sizing

  // ---------- One turn ----------

  /** The most of a grid that an amount of money pays for. */
  ghost predicate IsTrimmed(quantity: real, money: real, mark: real, grid: Positive) {
    mark > 0.0 && exists k: int :: IsMost(k, quantity, money, mark, grid)
  }

  predicate IsMost(k: int, quantity: real, money: real, mark: real, grid: Positive) {
    quantity == k as real * grid && k as real * grid * mark <= money < (k + 1) as real * grid * mark
  }

  /** How far a holding is from its target, on the side that a request would close it from. */
  function Gap(side: Side, held: real, target: real): real {
    if side.Sell? then held - target else target - held
  }

  /** The quantity that is asked for: the whole gap, or of a discretionary one what the money left pays for. */
  ghost predicate AskedFor(quantity: real, gap: real, mandatory: bool, money: Option<real>, mark: real, order: Order) {
    if mandatory || money.None? || gap * mark <= money.value then quantity == gap
    else IsTrimmed(quantity, money.value, mark, order.grain.grid)
  }

  /** A gap is worth a request when it is above the threshold and, unless it is mandatory, worth the minimum. */
  predicate Worthwhile(gap: real, mandatory: bool, mark: real, order: Order) {
    gap > order.grain.threshold && (mandatory || gap * mark >= order.minimum)
  }

  /** One turn: with the holding and the money left after the requests so far, the symbol is asked for when its
      gap is worth a request and the quantity is above the threshold, and otherwise passed over. */
  ghost predicate IsTurn(side: Side, symbol: string, held: real, money: Option<real>, order: Order,
                         made: Option<Request>)
  {
    var target, mark := Held(order.targets, symbol), PriceIn(order.marks, symbol);
    var gap, mandatory := Gap(side, held, target), side.Sell? && symbol in order.mandatory;
    match made
    case None =>
      || !Worthwhile(gap, mandatory, mark, order)
      || forall q :: AskedFor(q, gap, mandatory, money, mark, order) ==> q <= order.grain.threshold
    case Some(r) =>
      && Worthwhile(gap, mandatory, mark, order) && AskedFor(r.quantity, gap, mandatory, money, mark, order)
      && r.quantity > order.grain.threshold
      && r == Request(symbol, side, mandatory, held, target, r.quantity, r.quantity * mark)
  }

  lemma TrimmedIsMost(money: real, mark: Positive, grid: Positive)
    ensures IsTrimmed(Trimmed(money, mark, grid), money, mark, grid)
  {
    var units := money / mark;
    var k := (units / grid).Floor;
    WholeLotsMeaning(units, grid, 0.0);
    assert Times(0.0, grid) == 0.0 && Trimmed(money, mark, grid) == Multiple(k, grid);
    Spread(k as real, 1.0, grid);
    One(grid);
    Cancel(money, mark);
    ScaleUpWeak(Multiple(k, grid), units, mark);
    ScaleUp(units, Multiple(k + 1, grid), mark);
    assert IsMost(k, Multiple(k, grid), money, mark, grid);
  }

  lemma MostIsUnique(a: int, b: int, money: real, mark: Positive, grid: Positive)
    requires IsMost(a, a as real * grid, money, mark, grid) && IsMost(b, b as real * grid, money, mark, grid)
    ensures a == b
  {
    if a < b {
      NotBelow(a, b, mark, grid);
    } else if b < a {
      NotBelow(b, a, mark, grid);
    }
  }

  lemma NotBelow(a: int, b: int, mark: Positive, grid: Positive)
    requires a < b
    ensures (a + 1) as real * grid * mark <= b as real * grid * mark
  {
    ScaleUpWeak((a + 1) as real, b as real, grid);
    ScaleUpWeak((a + 1) as real * grid, b as real * grid, mark);
  }

  lemma TrimmedIsUnique(a: real, b: real, money: real, mark: real, grid: Positive)
    requires IsTrimmed(a, money, mark, grid) && IsTrimmed(b, money, mark, grid)
    ensures a == b
  {
    var j: int :| IsMost(j, a, money, mark, grid);
    var k: int :| IsMost(k, b, money, mark, grid);
    MostIsUnique(j, k, money, mark, grid);
  }

  /** What the program works out to ask for is what is asked for. */
  lemma AffordableIsAskedFor(gap: real, mandatory: bool, money: Option<real>, mark: NonNegative, order: Order)
    ensures var delta := if mandatory then Some(gap) else Affordable(gap, mark, money, order.grain.grid);
      && (delta.Some? ==> AskedFor(delta.value, gap, mandatory, money, mark, order))
      && (forall q :: AskedFor(q, gap, mandatory, money, mark, order) ==> delta == Some(q))
  {
    if !mandatory && money.Some? && gap * mark > money.value && mark > 0.0 {
      var trimmed := Trimmed(money.value, mark, order.grain.grid);
      TrimmedIsMost(money.value, mark, order.grain.grid);
      forall q | IsTrimmed(q, money.value, mark, order.grain.grid) ensures q == trimmed {
        TrimmedIsUnique(q, trimmed, money.value, mark, order.grain.grid);
      }
    }
  }

  lemma SellIsTurn(st: State, symbol: string, order: Order)
    ensures IsTurn(Sell, symbol, Held(st.sizes, symbol), st.budget, order, SellRequest(st, symbol, order))
  {
    hide AskedFor, Affordable;
    var gap := Held(st.sizes, symbol) - Held(order.targets, symbol);
    AffordableIsAskedFor(gap, symbol in order.mandatory, st.budget, PriceIn(order.marks, symbol), order);
  }

  lemma BuyIsTurn(st: State, symbol: string, order: Order)
    ensures IsTurn(Buy, symbol, Held(st.sizes, symbol), st.budget, order, BuyRequest(st, symbol, order))
  {
    hide AskedFor, Affordable;
    var gap := Held(order.targets, symbol) - Held(st.sizes, symbol);
    AffordableIsAskedFor(gap, false, st.budget, PriceIn(order.marks, symbol), order);
  }

  // ---------- All turns ----------

  /** Money left of a budget after some requests; mandatory ones take none of it. */
  function MoneyLeft(budget: Option<real>, log: seq<Request>): Option<real> {
    if budget.None? then None else Some(budget.value - DiscretionaryTotal(log))
  }

  /** From one length of the log to another every symbol has its turn, in order, each with what is held and
      left after the requests before it. */
  ghost predicate TurnsTaken(side: Side, symbols: seq<string>, log: seq<Request>, from: nat, to: nat,
                             sizes: map<string, real>, budget: Option<real>, order: Order, broker: Broker)
    requires from <= to <= |log|
    decreases |symbols|
  {
    if symbols == [] then from == to
    else
      var held := Held(SizesAfter(sizes, log[..from], order, broker), symbols[0]);
      var money := MoneyLeft(budget, log[..from]);
      || (&& IsTurn(side, symbols[0], held, money, order, None)
          && TurnsTaken(side, symbols[1..], log, from, to, sizes, budget, order, broker))
      || (&& from < to && IsTurn(side, symbols[0], held, money, order, Some(log[from]))
          && TurnsTaken(side, symbols[1..], log, from + 1, to, sizes, budget, order, broker))
  }

  /** A state is what its log has made of the sizes and the budget. */
  ghost predicate Follows(st: State, sizes: map<string, real>, budget: Option<real>, order: Order, broker: Broker) {
    st.sizes == SizesAfter(sizes, st.log, order, broker) && st.budget == MoneyLeft(budget, st.log)
  }

  lemma StepFollows(st: State, r: Option<Request>, sizes: map<string, real>, budget: Option<real>, order: Order,
                    broker: Broker)
    requires Follows(st, sizes, budget, order, broker)
    ensures Follows(Step(st, r, order, broker), sizes, budget, order, broker)
    ensures st.log <= Step(st, r, order, broker).log
    ensures r.None? ==> Step(st, r, order, broker) == st
    ensures r.Some? ==> Step(st, r, order, broker).log == st.log + [r.value]
  {
    if r.Some? {
      assert (st.log + [r.value])[..|st.log|] == st.log;
    }
  }

  lemma {:induction false} SellTurns(st: State, symbols: seq<string>, sizes: map<string, real>, budget: Option<real>,
                                     order: Order, broker: Broker)
    requires Follows(st, sizes, budget, order, broker) && SellAll(st, symbols, order, broker).ok
    ensures var end := SellAll(st, symbols, order, broker);
      && Follows(end, sizes, budget, order, broker) && st.log <= end.log
      && TurnsTaken(Sell, symbols, end.log, |st.log|, |end.log|, sizes, budget, order, broker)
    decreases |symbols|
  {
    hide IsTurn, SellRequest, Step, SizesAfter, MoneyLeft;
    if symbols != [] {
      StillOk(st, symbols, order, broker);
      var r, end := SellRequest(st, symbols[0], order), SellAll(st, symbols, order, broker);
      SellIsTurn(st, symbols[0], order);
      StepFollows(st, r, sizes, budget, order, broker);
      SellTurns(Step(st, r, order, broker), symbols[1..], sizes, budget, order, broker);
      assert end.log[..|st.log|] == st.log;
      assert r.Some? ==> end.log[|st.log|] == r.value;
    }
  }

  lemma {:induction false} BuyTurns(st: State, symbols: seq<string>, sizes: map<string, real>, budget: Option<real>,
                                    order: Order, broker: Broker)
    requires Follows(st, sizes, budget, order, broker) && BuyAll(st, symbols, order, broker).ok
    ensures var end := BuyAll(st, symbols, order, broker);
      && Follows(end, sizes, budget, order, broker) && st.log <= end.log
      && TurnsTaken(Buy, symbols, end.log, |st.log|, |end.log|, sizes, budget, order, broker)
    decreases |symbols|
  {
    hide IsTurn, BuyRequest, Step, SizesAfter, MoneyLeft;
    if symbols != [] {
      StillOk(st, symbols, order, broker);
      var r, end := BuyRequest(st, symbols[0], order), BuyAll(st, symbols, order, broker);
      BuyIsTurn(st, symbols[0], order);
      StepFollows(st, r, sizes, budget, order, broker);
      BuyTurns(Step(st, r, order, broker), symbols[1..], sizes, budget, order, broker);
      assert end.log[..|st.log|] == st.log;
      assert r.Some? ==> end.log[|st.log|] == r.value;
    }
  }

  /** A phase that ends well began well. */
  lemma StillOk(st: State, symbols: seq<string>, order: Order, broker: Broker)
    ensures SellAll(st, symbols, order, broker).ok ==> st.ok
    ensures BuyAll(st, symbols, order, broker).ok ==> st.ok
    decreases |symbols|
  {
  }

  lemma {:induction false} TurnsInPrefix(side: Side, symbols: seq<string>, log: seq<Request>, more: seq<Request>,
                                         from: nat, to: nat, sizes: map<string, real>, budget: Option<real>,
                                         order: Order, broker: Broker)
    requires from <= to <= |log|
    requires TurnsTaken(side, symbols, log, from, to, sizes, budget, order, broker)
    ensures TurnsTaken(side, symbols, log + more, from, to, sizes, budget, order, broker)
    decreases |symbols|
  {
    hide IsTurn, SizesAfter, MoneyLeft;
    assert (log + more)[..from] == log[..from];
    if symbols != [] {
      if from < to && TurnsTaken(side, symbols[1..], log, from + 1, to, sizes, budget, order, broker) {
        TurnsInPrefix(side, symbols[1..], log, more, from + 1, to, sizes, budget, order, broker);
      }
      if TurnsTaken(side, symbols[1..], log, from, to, sizes, budget, order, broker) {
        TurnsInPrefix(side, symbols[1..], log, more, from, to, sizes, budget, order, broker);
      }
    }
  }

  /** The requests of a rebalance that does not stop are those of one turn for each held symbol and then one
      for each target, and no others. */
  lemma RequestsAreTurns(sizes: map<string, real>, budget: Option<real>, sells: seq<string>, buys: seq<string>,
                         order: Order, broker: Broker)
    returns (cut: nat)
    requires RebalanceAll(sizes, budget, sells, buys, order, broker).ok
    ensures var log := RebalanceAll(sizes, budget, sells, buys, order, broker).log;
      && cut <= |log|
      && TurnsTaken(Sell, sells, log, 0, cut, sizes, budget, order, broker)
      && TurnsTaken(Buy, buys, log, cut, |log|, sizes, budget, order, broker)
  {
    hide IsTurn, TurnsTaken;
    var start := Opening(sizes, budget);
    var mid := SellAll(start, sells, order, broker);
    StillOk(mid, buys, order, broker);
    SellTurns(start, sells, sizes, budget, order, broker);
    BuyTurns(mid, buys, sizes, budget, order, broker);
    cut := |mid.log|;
    var end := BuyAll(mid, buys, order, broker);
    TurnsInPrefix(Sell, sells, mid.log, end.log[cut..], 0, cut, sizes, budget, order, broker);
    assert end.log == mid.log + end.log[cut..];
  }

  /** What a plan is made of: the marks and forced exits as given, the minimum and the budget as parts of
      decision equity. */
  lemma PlanIsMadeOf(cash: real, sizes: map<string, real>, held: seq<string>, targets: seq<string>, setup: Setup,
                     terms: Terms)
    requires forall s :: s in held ==> s in sizes
    requires PlanOf(cash, sizes, held, targets, setup, terms).Planned?
    ensures var plan := PlanOf(cash, sizes, held, targets, setup, terms);
      var equity := cash + PositionsWorth(sizes, held, setup);
      && plan.order.marks == setup.marks && plan.order.mandatory == terms.mandatory && plan.order.grain == terms.grain
      && plan.order.minimum == equity * terms.skip
      && (plan.budget.Some? <==> terms.turnover.Some?)
      && (plan.budget.Some? ==> plan.budget.value == equity * terms.turnover.value)
      && (forall s :: s in targets <==> s in plan.order.targets)
  {
    hide EquityFrom, TargetsFrom, PositionsWorth, TotalCost, TotalForgiven, WeightSum;
    EquityIsCashAndPositions(cash, sizes, held, setup);
    TargetsAreAffordable(EquityFrom(cash, sizes, held, setup).value, targets, setup);
  }

  // ---------- Mandatory exits ----------

  lemma OthersKeepHolding(st: State, r: Request, order: Order, broker: Broker, s: string)
    requires r.symbol != s
    ensures Held(Submitted(st, r, order, broker).sizes, s) == Held(st.sizes, s)
  {
  }

  lemma {:induction false} MandatoryIsSent(st: State, symbols: seq<string>, order: Order, broker: Broker, s: string)
    returns (i: nat)
    requires s in symbols && s in order.mandatory && SellAll(st, symbols, order, broker).ok
    requires Held(st.sizes, s) - Held(order.targets, s) > order.grain.threshold
    ensures var log, gap := SellAll(st, symbols, order, broker).log, Held(st.sizes, s) - Held(order.targets, s);
      && st.log <= log && i < |log|
      && log[i].symbol == s && log[i].side.Sell? && log[i].mandatory && log[i].quantity == gap
    decreases |symbols|
  {
    StillOk(st, symbols, order, broker);
    var r := SellRequest(st, symbols[0], order);
    var next := Step(st, r, order, broker);
    if symbols[0] == s {
      i := |st.log|;
      LogGrows(next, symbols[1..], order, broker);
      assert next.log[i] == r.value;
    } else {
      if r.Some? {
        OthersKeepHolding(st, r.value, order, broker, s);
      }
      i := MandatoryIsSent(next, symbols[1..], order, broker, s);
    }
  }

  lemma LogGrows(st: State, symbols: seq<string>, order: Order, broker: Broker)
    ensures st.log <= SellAll(st, symbols, order, broker).log
    ensures st.log <= BuyAll(st, symbols, order, broker).log
    decreases |symbols|
  {
  }

  /** In a rebalance that does not stop every held symbol that must be left is asked for in full, whatever the
      budget and the minimum. */
  lemma MandatoryExitsAreSent(sizes: map<string, real>, budget: Option<real>, sells: seq<string>,
                              buys: seq<string>, order: Order, broker: Broker, s: string)
    returns (i: nat)
    requires RebalanceAll(sizes, budget, sells, buys, order, broker).ok
    requires s in sells && s in order.mandatory
    requires Held(sizes, s) - Held(order.targets, s) > order.grain.threshold
    ensures var log := RebalanceAll(sizes, budget, sells, buys, order, broker).log;
      && i < |log| && log[i].symbol == s && log[i].side.Sell? && log[i].mandatory
      && log[i].quantity == Held(sizes, s) - Held(order.targets, s)
  {
    var start := Opening(sizes, budget);
    var mid := SellAll(start, sells, order, broker);
    StillOk(mid, buys, order, broker);
    i := MandatoryIsSent(start, sells, order, broker, s);
    LogGrows(mid, buys, order, broker);
  }

  // ---------- When everything is filled ----------

  /** A broker that fills all it is asked for. */
  ghost predicate FillsAll(broker: Broker) {
    forall log: seq<Request> :: log != [] ==> broker(log) == Reply(log[|log| - 1].quantity, true)
  }

  /** What a sell leaves: the target, or nothing when that is dust. */
  function Reduced(held: real, target: real, grain: Grain): real {
    if held - target <= grain.threshold then held else if target <= grain.dust then 0.0 else target
  }

  function Raised(held: real, target: real, grain: Grain): real {
    if target - held <= grain.threshold then held else target
  }

  predicate Unlimited(st: State, order: Order) {
    st.ok && st.budget.None? && order.minimum <= 0.0
  }

  lemma WorthOfGap(gap: real, mark: NonNegative)
    requires gap >= 0.0
    ensures gap * mark >= 0.0
  {
  }

  lemma SellStepReaches(st: State, symbol: string, order: Order, broker: Broker, s: string)
    requires FillsAll(broker) && Unlimited(st, order)
    ensures var next := Step(st, SellRequest(st, symbol, order), order, broker);
      && Unlimited(next, order)
      && Held(next.sizes, s)
         == if s == symbol then Reduced(Held(st.sizes, s), Held(order.targets, s), order.grain) else Held(st.sizes, s)
  {
    var gap := Held(st.sizes, symbol) - Held(order.targets, symbol);
    if gap > order.grain.threshold {
      WorthOfGap(gap, PriceIn(order.marks, symbol));
      var r := SellRequest(st, symbol, order);
      assert r.Some? && r.value.quantity == gap;
      assert (st.log + [r.value])[|st.log|] == r.value;
    }
  }

  lemma BuyStepReaches(st: State, symbol: string, order: Order, broker: Broker, s: string)
    requires FillsAll(broker) && Unlimited(st, order)
    ensures var next := Step(st, BuyRequest(st, symbol, order), order, broker);
      && Unlimited(next, order)
      && Held(next.sizes, s)
         == if s == symbol then Raised(Held(st.sizes, s), Held(order.targets, s), order.grain) else Held(st.sizes, s)
  {
    var gap := Held(order.targets, symbol) - Held(st.sizes, symbol);
    if gap > order.grain.threshold {
      WorthOfGap(gap, PriceIn(order.marks, symbol));
      var r := BuyRequest(st, symbol, order);
      assert r.Some? && r.value.quantity == gap;
      assert (st.log + [r.value])[|st.log|] == r.value;
    }
  }

  lemma {:induction false} SellAllReaches(st: State, symbols: seq<string>, order: Order, broker: Broker, s: string)
    requires FillsAll(broker) && Unlimited(st, order)
    ensures var end := SellAll(st, symbols, order, broker);
      && Unlimited(end, order)
      && Held(end.sizes, s)
         == if s in symbols then Reduced(Held(st.sizes, s), Held(order.targets, s), order.grain) else Held(st.sizes, s)
    decreases |symbols|
  {
    hide FillsAll, Step, SellRequest, Held;
    if symbols != [] {
      SellStepReaches(st, symbols[0], order, broker, s);
      SellAllReaches(Step(st, SellRequest(st, symbols[0], order), order, broker), symbols[1..], order, broker, s);
    }
  }

  lemma {:induction false} BuyAllReaches(st: State, symbols: seq<string>, order: Order, broker: Broker, s: string)
    requires FillsAll(broker) && Unlimited(st, order)
    ensures var end := BuyAll(st, symbols, order, broker);
      && Unlimited(end, order)
      && Held(end.sizes, s)
         == if s in symbols then Raised(Held(st.sizes, s), Held(order.targets, s), order.grain) else Held(st.sizes, s)
    decreases |symbols|
  {
    hide FillsAll, Step, BuyRequest, Held;
    if symbols != [] {
      BuyStepReaches(st, symbols[0], order, broker, s);
      BuyAllReaches(Step(st, BuyRequest(st, symbols[0], order), order, broker), symbols[1..], order, broker, s);
    }
  }

  /** Without a budget and a minimum, and with a broker that fills everything, a rebalance does not stop and
      every holding ends at its target, up to threshold and dust. */
  lemma FilledRebalanceReachesTargets(sizes: map<string, real>, sells: seq<string>, buys: seq<string>, order: Order,
                                      broker: Broker, s: string)
    requires FillsAll(broker) && order.minimum <= 0.0
    requires Held(sizes, s) > Held(order.targets, s) ==> s in sells
    requires Held(order.targets, s) > 0.0 ==> s in buys
    requires Held(sizes, s) >= 0.0 && Held(order.targets, s) >= 0.0
    ensures var end := RebalanceAll(sizes, None, sells, buys, order, broker);
      && end.ok
      && RealAbs(Held(end.sizes, s) - Held(order.targets, s)) <= Max(order.grain.threshold, order.grain.dust)
  {
    var start := Opening(sizes, None);
    SellAllReaches(start, sells, order, broker, s);
    BuyAllReaches(SellAll(start, sells, order, broker), buys, order, broker, s);
  }
}
