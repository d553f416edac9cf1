/** When an outcome is recorded, and what the commit then does: the dry run accepts exactly the
    outcomes that are complete, resolve every approved intent once and can be paid for, and the
    commit ends where the dry run did. */
module Atomicity {
  import opened RealMath
  import opened FiniteSums
  import opened Ledger
  import opened Orders

  // ---------- What the dry run checks ----------

  function ActionsFor(intent: Intent, fills: seq<Fill>): seq<Action> {
    if fills == [] then [] else [Action(intent, fills[0])] + ActionsFor(intent, fills[1..])
  }

  /** All fills of the approved orders among the accepted ones, in the order they are applied. */
  function ActionsOf(intents: map<string, Intent>, orders: seq<AcceptedOrder>): seq<Action> {
    if orders == [] then []
    else if orders[0].orderId !in intents then ActionsOf(intents, orders[1..])
    else ActionsFor(intents[orders[0].orderId], orders[0].fills) + ActionsOf(intents, orders[1..])
  }

  function OrderIds(orders: seq<AcceptedOrder>): seq<string> {
    if orders == [] then [] else [orders[0].orderId] + OrderIds(orders[1..])
  }

  datatype Funds = Short(error: RecordError) | Enough(cash: real, sizes: map<string, real>)

  /** Cash and sizes after all actions, or the first shortage. */
  function Fund(cash: real, sizes: map<string, real>, actions: seq<Action>, tol: Tolerances): Funds
    decreases |actions|
  {
    if actions == [] then Enough(cash, sizes)
    else
      match DryFill(Dry(cash, sizes, {}, []), actions[0].intent, actions[0].fill, tol)
      case Refused(error) => Short(error)
      case Ready(d) => Fund(d.cash, d.sizes, actions[1..], tol)
  }

  lemma {:induction false} FundAppend(cash: real, sizes: map<string, real>, a: seq<Action>, b: seq<Action>,
                                      tol: Tolerances)
    ensures Fund(cash, sizes, a + b, tol)
         == match Fund(cash, sizes, a, tol)
            case Short(error) => Short(error)
            case Enough(c, s) => Fund(c, s, b, tol)
    decreases |a|
  {
    if a == [] {
      assert a + b == b;
    } else {
      assert (a + b)[0] == a[0] && (a + b)[1..] == a[1..] + b;
      var d := DryFill(Dry(cash, sizes, {}, []), a[0].intent, a[0].fill, tol);
      if d.Ready? {
        FundAppend(d.dry.cash, d.dry.sizes, a[1..], b, tol);
      }
    }
  }

  /** Balances of a dry run do not depend on what it has seen and queued. */
  lemma DryFillOnBalances(d: Dry, intent: Intent, fill: Fill, tol: Tolerances)
    ensures DryFill(d, intent, fill, tol)
         == match DryFill(Dry(d.cash, d.sizes, {}, []), intent, fill, tol)
            case Refused(error) => Refused(error)
            case Ready(e) => Ready(Dry(e.cash, e.sizes, d.seen, d.actions + [Action(intent, fill)]))
  {
  }

  /** What taking some actions does to a dry run. */
  function Taking(d: Dry, actions: seq<Action>, tol: Tolerances): DryResult {
    match Fund(d.cash, d.sizes, actions, tol)
    case Short(error) => Refused(error)
    case Enough(c, s) => Ready(Dry(c, s, d.seen, d.actions + actions))
  }

  lemma TakingStep(d: Dry, intent: Intent, fill: Fill, rest: seq<Action>, tol: Tolerances)
    ensures Taking(d, [Action(intent, fill)] + rest, tol)
         == match DryFill(d, intent, fill, tol)
            case Refused(error) => Refused(error)
            case Ready(next) => Taking(next, rest, tol)
  {
    DryFillOnBalances(d, intent, fill, tol);
    var actions := [Action(intent, fill)] + rest;
    assert actions[1..] == rest;
    assert d.actions + actions == d.actions + [Action(intent, fill)] + rest;
  }

  lemma {:induction false} DryFillsIsFund(d: Dry, intent: Intent, fills: seq<Fill>, tol: Tolerances)
    ensures DryFills(d, intent, fills, tol) == Taking(d, ActionsFor(intent, fills), tol)
    decreases |fills|
  {
    if fills == [] {
      assert d.actions + [] == d.actions;
    } else {
      TakingStep(d, intent, fills[0], ActionsFor(intent, fills[1..]), tol);
      var step := DryFill(d, intent, fills[0], tol);
      if step.Ready? {
        DryFillsIsFund(step.dry, intent, fills[1..], tol);
      }
    }
  }

  /** ids are approved, distinct, and none of them was seen before. */
  ghost predicate FreshIds(ids: seq<string>, seen: set<string>, intents: map<string, Intent>) {
    Distinct(ids) && forall id :: id in ids ==> id in intents && id !in seen
  }

  ghost function AsSet(ids: seq<string>): set<string> {
    set id | id in ids
  }

  lemma FreshIdsStep(ids: seq<string>, seen: set<string>, intents: map<string, Intent>)
    requires ids != []
    ensures FreshIds(ids, seen, intents)
       <==> ids[0] in intents && ids[0] !in seen && FreshIds(ids[1..], seen + {ids[0]}, intents)
    ensures seen + AsSet(ids) == seen + {ids[0]} + AsSet(ids[1..])
  {
    assert ids == [ids[0]] + ids[1..];
    if FreshIds(ids, seen, intents) {
      assert forall id :: id in ids[1..] ==> id in ids && id != ids[0];
    }
    if ids[0] in intents && ids[0] !in seen && FreshIds(ids[1..], seen + {ids[0]}, intents) {
      forall i, j | 0 <= i < j < |ids| ensures ids[i] != ids[j] {
        if i == 0 {
          assert ids[1..][j - 1] in ids[1..];
        } else {
          assert ids[1..][i - 1] != ids[1..][j - 1];
        }
      }
    }
  }

  lemma {:induction false} DryOrdersNeedFreshIds(d: Dry, intents: map<string, Intent>, orders: seq<AcceptedOrder>,
                                                 tol: Tolerances)
    requires DryOrders(d, intents, orders, tol).Ready?
    ensures FreshIds(OrderIds(orders), d.seen, intents)
    decreases |orders|
  {
    if orders != [] {
      var ids := OrderIds(orders);
      assert ids[1..] == OrderIds(orders[1..]);
      FreshIdsStep(ids, d.seen, intents);
      var seen := d.seen + {orders[0].orderId};
      DryFillsIsFund(d.(seen := seen), intents[orders[0].orderId], orders[0].fills, tol);
      DryOrdersNeedFreshIds(DryOrder(d, intents, orders[0], tol).dry, intents, orders[1..], tol);
    }
  }

  /** The result of taking all orders: a shortage, or the balances after their fills. */
  function AfterOrders(d: Dry, intents: map<string, Intent>, orders: seq<AcceptedOrder>, tol: Tolerances): DryResult {
    var actions := ActionsOf(intents, orders);
    match Fund(d.cash, d.sizes, actions, tol)
    case Short(error) => Refused(error)
    case Enough(c, s) => Ready(Dry(c, s, d.seen + (set id | id in OrderIds(orders)), d.actions + actions))
  }

  lemma {:induction false} DryOrdersIsFund(d: Dry, intents: map<string, Intent>, orders: seq<AcceptedOrder>,
                                           tol: Tolerances)
    requires FreshIds(OrderIds(orders), d.seen, intents)
    ensures DryOrders(d, intents, orders, tol) == AfterOrders(d, intents, orders, tol)
    decreases |orders|
  {
    if orders == [] {
      assert d.seen + AsSet([]) == d.seen;
      assert d.actions + [] == d.actions;
    } else {
      var ids := OrderIds(orders);
      assert ids[1..] == OrderIds(orders[1..]);
      FreshIdsStep(ids, d.seen, intents);
      var intent := intents[orders[0].orderId];
      var first, others := ActionsFor(intent, orders[0].fills), ActionsOf(intents, orders[1..]);
      DryFillsIsFund(d.(seen := d.seen + {orders[0].orderId}), intent, orders[0].fills, tol);
      FundAppend(d.cash, d.sizes, first, others, tol);
      assert d.actions + first + others == d.actions + (first + others);
      var step := DryOrder(d, intents, orders[0], tol);
      if step.Ready? {
        DryOrdersIsFund(step.dry, intents, orders[1..], tol);
      }
    }
  }

  lemma {:induction false} DryRejectionsExact(d: Dry, intents: map<string, Intent>, rejected: seq<string>)
    ensures DryRejections(d, intents, rejected)
         == if FreshIds(rejected, d.seen, intents) then Ready(d.(seen := d.seen + AsSet(rejected)))
            else Refused(InvalidRejection)
    decreases |rejected|
  {
    if rejected == [] {
      assert d.seen + AsSet([]) == d.seen;
    } else {
      FreshIdsStep(rejected, d.seen, intents);
      DryRejectionsExact(d.(seen := d.seen + {rejected[0]}), intents, rejected[1..]);
    }
  }

  /** Every approved intent is accepted or rejected exactly once, and nothing else is. */
  ghost predicate ResolvesExactlyOnce(outcome: Outcome, intents: map<string, Intent>) {
    var ids := OrderIds(outcome.accepted) + outcome.rejected;
    Distinct(ids) && forall id :: id in ids <==> id in intents
  }

  lemma DistinctConcat(a: seq<string>, r: seq<string>)
    ensures Distinct(a + r) <==> Distinct(a) && Distinct(r) && forall id :: id in r ==> id !in a
  {
    var ids := a + r;
    assert forall i :: 0 <= i < |a| ==> a[i] == ids[i];
    assert forall i :: 0 <= i < |r| ==> r[i] == ids[|a| + i];
    if Distinct(ids) {
      forall i, j | 0 <= i < |a| && 0 <= j < |r| ensures a[i] != r[j] {
        assert ids[i] != ids[|a| + j];
      }
    }
    if Distinct(a) && Distinct(r) && forall id :: id in r ==> id !in a {
      forall i, j | 0 <= i < j < |ids| ensures ids[i] != ids[j] {
        if i < |a| <= j {
          assert r[j - |a|] in r && a[i] in a;
        }
      }
    }
  }

  lemma ResolvedIffAllSeen(outcome: Outcome, intents: map<string, Intent>)
    ensures ResolvesExactlyOnce(outcome, intents) <==>
      && FreshIds(OrderIds(outcome.accepted), {}, intents)
      && FreshIds(outcome.rejected, AsSet(OrderIds(outcome.accepted)), intents)
      && |AsSet(OrderIds(outcome.accepted)) + AsSet(outcome.rejected)| == |intents|
  {
    var a, r := OrderIds(outcome.accepted), outcome.rejected;
    DistinctConcat(a, r);
    var seen := AsSet(a) + AsSet(r);
    assert |intents| == |intents.Keys|;
    assert forall id :: id in a + r <==> id in seen;
    if seen <= intents.Keys {
      SubsetOfEqualSize(seen, intents.Keys);
    }
    assert (forall id :: id in a + r <==> id in intents) <==> seen == intents.Keys;
    assert FreshIds(a, {}, intents) && FreshIds(r, AsSet(a), intents) <==>
      Distinct(a + r) && seen <= intents.Keys;
  }

  /** The outcomes the dry run accepts, exactly: complete, every approved intent resolved once and
      only once, and every fill affordable when taken in order. */
  lemma DryRunExact(b: Book, approved: seq<Intent>, outcome: Outcome, tol: Tolerances)
    ensures var intents := IntentMap(approved);
      DryRun(b, approved, outcome, tol).Ready? <==>
        && outcome.complete
        && ResolvesExactlyOnce(outcome, intents)
        && Fund(b.cash, SizesOf(b.positions), ActionsOf(intents, outcome.accepted), tol).Enough?
    ensures var intents := IntentMap(approved);
      DryRun(b, approved, outcome, tol).Ready? ==>
        var dry := DryRun(b, approved, outcome, tol).dry;
        && dry.actions == ActionsOf(intents, outcome.accepted)
        && Fund(b.cash, SizesOf(b.positions), dry.actions, tol) == Enough(dry.cash, dry.sizes)
  {
    var intents := IntentMap(approved);
    var ids := OrderIds(outcome.accepted);
    ResolvedIffAllSeen(outcome, intents);
    var start := DryStart(b);
    var orders := DryOrders(start, intents, outcome.accepted, tol);
    if orders.Ready? {
      DryOrdersNeedFreshIds(start, intents, outcome.accepted, tol);
    }
    if FreshIds(ids, {}, intents) {
      DryOrdersIsFund(start, intents, outcome.accepted, tol);
      assert {} + AsSet(ids) == AsSet(ids);
      assert [] + ActionsOf(intents, outcome.accepted) == ActionsOf(intents, outcome.accepted);
    }
    if orders.Ready? {
      DryRejectionsExact(orders.dry, intents, outcome.rejected);
    }
  }

  // ---------- The commit follows the dry run ----------

  /** x and y differ by at most slack. */
  predicate Within(x: real, y: real, slack: real) {
    x - y <= slack && y - x <= slack
  }

  function SizeAt(b: Book, symbol: string): real {
    if symbol in b.positions then b.positions[symbol].size else 0.0
  }

  /** A sell that deletes the position it meets. */
  predicate Closes(b: Book, a: Action, dust: NonNegative) {
    a.intent.side.Sell? && a.fill.symbol in b.positions
    && b.positions[a.fill.symbol].size - a.fill.quantity <= dust
  }

  /** Each buy leaves cash that is not overdrawn beyond the tolerance. */
  ghost predicate BuysCovered(b: Book, actions: seq<Action>, tol: Tolerances)
    decreases |actions|
  {
    actions == [] ||
    (var next := CommitOne(b, actions[0], tol.size).book;
     && (actions[0].intent.side.Buy? ==> next.cash + tol.cash >= 0.0)
     && BuysCovered(next, actions[1..], tol))
  }

  // ---------- Live sizes, without committing anything ----------

  /** What an action does to the size held of one symbol. */
  function Moved(size: real, a: Action, symbol: string, dust: NonNegative): real {
    if a.fill.symbol != symbol then size
    else if a.intent.side.Buy? then size + a.fill.quantity
    else if size - a.fill.quantity <= dust then 0.0
    else size - a.fill.quantity
  }

  /** The size held of a symbol after some actions, from its size before them and nothing else. */
  function LiveSize(size: real, actions: seq<Action>, symbol: string, dust: NonNegative): real
    decreases |actions|
  {
    if actions == [] then size else LiveSize(Moved(size, actions[0], symbol, dust), actions[1..], symbol, dust)
  }

  /** The size action j finds of its own symbol. */
  function SizeFound(b: Book, actions: seq<Action>, j: nat, dust: NonNegative): real
    requires j < |actions|
  {
    LiveSize(SizeAt(b, actions[j].fill.symbol), actions[..j], actions[j].fill.symbol, dust)
  }

  /** Action j sells a symbol of which nothing is held by then. */
  predicate FindsNothing(b: Book, actions: seq<Action>, j: nat, dust: NonNegative) {
    j < |actions| && actions[j].intent.side.Sell? && SizeFound(b, actions, j, dust) == 0.0
  }

  /** Action j sells more than is held by then, beyond dust, or sells where nothing is held. */
  predicate Oversells(b: Book, actions: seq<Action>, j: nat, dust: NonNegative) {
    && j < |actions| && actions[j].intent.side.Sell?
    && (SizeFound(b, actions, j, dust) == 0.0 || actions[j].fill.quantity > SizeFound(b, actions, j, dust) + dust)
  }

  /** Every sell finds something held. */
  ghost predicate FindsPositions(b: Book, actions: seq<Action>, dust: NonNegative) {
    forall j: nat :: !FindsNothing(b, actions, j, dust)
  }

  /** Every sell finds enough held, up to dust. */
  ghost predicate SellsCovered(b: Book, actions: seq<Action>, dust: NonNegative) {
    forall j: nat :: !Oversells(b, actions, j, dust)
  }

  /** What one action does to each symbol's size. */
  lemma SizeAfter(b: Book, a: Action, dust: NonNegative, t: string)
    requires CommitOne(b, a, dust).Done?
    ensures SizeAt(CommitOne(b, a, dust).book, t) == Moved(SizeAt(b, t), a, t, dust)
  {
  }

  lemma SizeFoundLater(b: Book, actions: seq<Action>, j: nat, dust: NonNegative)
    requires j + 1 < |actions| && CommitOne(b, actions[0], dust).Done?
    ensures SizeFound(b, actions, j + 1, dust) == SizeFound(CommitOne(b, actions[0], dust).book, actions[1..], j, dust)
  {
    assert actions[..j + 1][1..] == actions[1..][..j];
    SizeAfter(b, actions[0], dust, actions[j + 1].fill.symbol);
  }

  /** The first action, and then the rest from the book it leaves. */
  lemma SellsStep(b: Book, actions: seq<Action>, dust: NonNegative)
    requires actions != [] && CommitOne(b, actions[0], dust).Done?
    ensures var next := CommitOne(b, actions[0], dust).book;
      && (FindsPositions(b, actions, dust) <==> FindsPositions(next, actions[1..], dust))
      && (SellsCovered(b, actions, dust) <==>
            !Oversells(b, actions, 0, dust) && SellsCovered(next, actions[1..], dust))
  {
    var next := CommitOne(b, actions[0], dust).book;
    forall j: nat
      ensures FindsNothing(b, actions, j + 1, dust) <==> FindsNothing(next, actions[1..], j, dust)
      ensures Oversells(b, actions, j + 1, dust) <==> Oversells(next, actions[1..], j, dust)
    {
      if j + 1 < |actions| {
        SizeFoundLater(b, actions, j, dust);
      }
    }
    assert !FindsNothing(b, actions, 0, dust);
    if FindsPositions(next, actions[1..], dust) {
      forall j: nat ensures !FindsNothing(b, actions, j, dust) {
        assert j > 0 ==> !FindsNothing(next, actions[1..], j - 1, dust);
      }
    }
    if !Oversells(b, actions, 0, dust) && SellsCovered(next, actions[1..], dust) {
      forall j: nat ensures !Oversells(b, actions, j, dust) {
        assert j > 0 ==> !Oversells(next, actions[1..], j - 1, dust);
      }
    }
  }

  /** The commit meets a missing position exactly when some sell finds nothing held. */
  lemma {:induction false} CommitStopsExactly(b: Book, actions: seq<Action>, dust: NonNegative)
    ensures Commit(b, actions, dust).NilPosition? <==> exists j: nat :: FindsNothing(b, actions, j, dust)
    decreases |actions|
  {
    if actions != [] {
      if CommitOne(b, actions[0], dust).NilPosition? {
        assert FindsNothing(b, actions, 0, dust);
      } else {
        SellsStep(b, actions, dust);
        CommitStopsExactly(CommitOne(b, actions[0], dust).book, actions[1..], dust);
        assert (exists j: nat :: FindsNothing(b, actions, j, dust)) <==> !FindsPositions(b, actions, dust);
      }
    }
  }

  /** One action, if it sells, finds enough held, up to dust. */
  predicate Covers(b: Book, a: Action, dust: NonNegative) {
    a.intent.side.Sell? ==>
      a.fill.symbol in b.positions && a.fill.quantity <= b.positions[a.fill.symbol].size + dust
  }

  lemma CoveredMeets(b: Book, actions: seq<Action>, dust: NonNegative)
    requires actions != []
    ensures Oversells(b, actions, 0, dust) <==> !Covers(b, actions[0], dust)
    ensures Covers(b, actions[0], dust) ==> CommitOne(b, actions[0], dust).Done?
  {
    assert SizeFound(b, actions, 0, dust) == SizeAt(b, actions[0].fill.symbol);
  }

  lemma CoveredCommits(b: Book, actions: seq<Action>, dust: NonNegative)
    requires SellsCovered(b, actions, dust)
    ensures FindsPositions(b, actions, dust) && Commit(b, actions, dust).Done?
  {
    forall j: nat ensures !FindsNothing(b, actions, j, dust) {
      assert !Oversells(b, actions, j, dust);
    }
    CommitStopsExactly(b, actions, dust);
  }

  // ---------- How far scratch sizes and live sizes drift apart ----------

  function CountOf(counts: map<string, nat>, symbol: string): nat {
    if symbol in counts then counts[symbol] else 0
  }

  /** How often each symbol has been closed, once a is done. */
  function NextClosings(b: Book, a: Action, closings: map<string, nat>, dust: NonNegative): map<string, nat> {
    if Closes(b, a, dust) then closings[a.fill.symbol := CountOf(closings, a.fill.symbol) + 1] else closings
  }

  function ClosingsAfter(b: Book, actions: seq<Action>, closings: map<string, nat>, dust: NonNegative): map<string, nat>
    decreases |actions|
  {
    if actions == [] then closings
    else
      ClosingsAfter(CommitOne(b, actions[0], dust).book, actions[1..], NextClosings(b, actions[0], closings, dust),
                    dust)
  }

  /** A scratch size is ahead by at most dust per closing, and behind by at most dust if there was one. */
  predicate LagWithin(lag: real, n: nat, dust: NonNegative) {
    if n == 0 then lag == 0.0 else lag + dust >= 0.0 && lag <= Copies(n, dust)
  }

  ghost predicate Agree(sizes: map<string, real>, b: Book, closings: map<string, nat>, dust: NonNegative) {
    forall s :: LagWithin(Get(sizes, s) - SizeAt(b, s), CountOf(closings, s), dust)
  }

  lemma DryFillEffect(cash: real, sizes: map<string, real>, a: Action, tol: Tolerances)
    requires DryFill(Dry(cash, sizes, {}, []), a.intent, a.fill, tol).Ready?
    ensures var d := DryFill(Dry(cash, sizes, {}, []), a.intent, a.fill, tol).dry;
      && (forall t :: Get(d.sizes, t) == Get(sizes, t)
           + if t != a.fill.symbol then 0.0
             else if a.intent.side.Buy? then a.fill.quantity
             else -(a.fill.quantity as real))
      && (a.intent.side.Sell? ==> a.fill.quantity <= Get(sizes, a.fill.symbol) + tol.size)
  {
  }

  lemma SameCash(b: Book, sizes: map<string, real>, a: Action, tol: Tolerances)
    requires DryFill(Dry(b.cash, sizes, {}, []), a.intent, a.fill, tol).Ready?
    requires CommitOne(b, a, tol.size).Done?
    ensures DryFill(Dry(b.cash, sizes, {}, []), a.intent, a.fill, tol).dry.cash == CommitOne(b, a, tol.size).book.cash
    ensures a.intent.side.Buy? ==> CommitOne(b, a, tol.size).book.cash + tol.cash >= 0.0
  {
  }

  lemma LagStep(scratch: real, live: real, n: nat, a: Action, dust: NonNegative)
    requires LagWithin(scratch - live, n, dust)
    requires a.intent.side.Sell? ==> a.fill.quantity <= scratch + dust
    ensures a.intent.side.Sell? ==> live - a.fill.quantity + Copies(n + 1, dust) >= 0.0
    ensures var q := a.fill.quantity;
      if a.intent.side.Buy? then LagWithin(scratch + q - (live + q), n, dust)
      else if live - q <= dust then LagWithin(scratch - q - 0.0, n + 1, dust)
      else LagWithin(scratch - q - (live - q), n, dust)
  {
    OneMore(n, dust);
  }

  lemma AgreeStep(sizes: map<string, real>, b: Book, a: Action, closings: map<string, nat>, tol: Tolerances)
    requires Agree(sizes, b, closings, tol.size)
    requires DryFill(Dry(b.cash, sizes, {}, []), a.intent, a.fill, tol).Ready? && CommitOne(b, a, tol.size).Done?
    ensures a.intent.side.Sell? ==>
      SizeAt(b, a.fill.symbol) - a.fill.quantity + Copies(CountOf(closings, a.fill.symbol) + 1, tol.size) >= 0.0
    ensures Agree(DryFill(Dry(b.cash, sizes, {}, []), a.intent, a.fill, tol).dry.sizes,
                  CommitOne(b, a, tol.size).book, NextClosings(b, a, closings, tol.size), tol.size)
  {
    DryFillEffect(b.cash, sizes, a, tol);
    var s := a.fill.symbol;
    LagStep(Get(sizes, s), SizeAt(b, s), CountOf(closings, s), a, tol.size);
    var d := DryFill(Dry(b.cash, sizes, {}, []), a.intent, a.fill, tol).dry;
    var after, next := CommitOne(b, a, tol.size).book, NextClosings(b, a, closings, tol.size);
    forall t ensures LagWithin(Get(d.sizes, t) - SizeAt(after, t), CountOf(next, t), tol.size) {
      assert LagWithin(Get(sizes, t) - SizeAt(b, t), CountOf(closings, t), tol.size);
      SizeAfter(b, a, tol.size, t);
    }
  }

  /** The next action of a funded and surviving list. */
  lemma FundedStep(b: Book, sizes: map<string, real>, actions: seq<Action>, closings: map<string, nat>, tol: Tolerances)
    returns (d: Dry)
    requires actions != [] && Agree(sizes, b, closings, tol.size)
    requires Fund(b.cash, sizes, actions, tol).Enough? && Commit(b, actions, tol.size).Done?
    ensures CommitOne(b, actions[0], tol.size).Done?
    ensures DryFill(Dry(b.cash, sizes, {}, []), actions[0].intent, actions[0].fill, tol) == Ready(d)
    ensures var next := CommitOne(b, actions[0], tol.size).book;
      && next.cash == d.cash && (actions[0].intent.side.Buy? ==> next.cash + tol.cash >= 0.0)
      && Agree(d.sizes, next, NextClosings(b, actions[0], closings, tol.size), tol.size)
      && Fund(next.cash, d.sizes, actions[1..], tol) == Fund(b.cash, sizes, actions, tol)
      && Commit(next, actions[1..], tol.size) == Commit(b, actions, tol.size)
  {
    d := DryFill(Dry(b.cash, sizes, {}, []), actions[0].intent, actions[0].fill, tol).dry;
    AgreeStep(sizes, b, actions[0], closings, tol);
    SameCash(b, sizes, actions[0], tol);
  }

  /** A commit that finds its positions ends with the dry run's cash, and with its sizes up to dust
      for each time a symbol was closed; without a dust threshold, with exactly its sizes. */
  lemma {:induction false} CommitFollowsFund(b: Book, sizes: map<string, real>, actions: seq<Action>,
                                             closings: map<string, nat>, tol: Tolerances)
    requires Agree(sizes, b, closings, tol.size)
    requires Fund(b.cash, sizes, actions, tol).Enough? && Commit(b, actions, tol.size).Done?
    ensures BuysCovered(b, actions, tol)
    ensures var after, funds := Commit(b, actions, tol.size).book, Fund(b.cash, sizes, actions, tol);
      && after.cash == funds.cash
      && Agree(funds.sizes, after, ClosingsAfter(b, actions, closings, tol.size), tol.size)
    decreases |actions|
  {
    if actions != [] {
      var d := FundedStep(b, sizes, actions, closings, tol);
      CommitFollowsFund(CommitOne(b, actions[0], tol.size).book, d.sizes, actions[1..],
                        NextClosings(b, actions[0], closings, tol.size), tol);
    }
  }

  /** Without a dust threshold every funded sell finds enough held. */
  lemma {:induction false} FundedIsCovered(b: Book, sizes: map<string, real>, actions: seq<Action>,
                                           closings: map<string, nat>, tol: Tolerances)
    requires tol.size == 0.0 && Agree(sizes, b, closings, 0.0) && Fund(b.cash, sizes, actions, tol).Enough?
    ensures SellsCovered(b, actions, 0.0)
    decreases |actions|
  {
    if actions != [] {
      var a := actions[0];
      var s := a.fill.symbol;
      DryFillEffect(b.cash, sizes, a, tol);
      assert LagWithin(Get(sizes, s) - SizeAt(b, s), CountOf(closings, s), 0.0);
      assert !Oversells(b, actions, 0, 0.0);
      CoveredMeets(b, actions, 0.0);
      AgreeStep(sizes, b, a, closings, tol);
      SameCash(b, sizes, a, tol);
      var d := DryFill(Dry(b.cash, sizes, {}, []), a.intent, a.fill, tol).dry;
      FundedIsCovered(CommitOne(b, a, 0.0).book, d.sizes, actions[1..], NextClosings(b, a, closings, 0.0), tol);
      SellsStep(b, actions, 0.0);
    }
  }

  lemma SizesAgreeAtStart(b: Book, dust: NonNegative)
    ensures Agree(SizesOf(b.positions), b, map[], dust)
  {
  }

  // ---------- The whole operation ----------

  /** Complete, every approved intent resolved once, and every fill affordable. */
  ghost predicate Acceptable(b: Book, approved: seq<Intent>, outcome: Outcome, tol: Tolerances) {
    var intents := IntentMap(approved);
    && outcome.complete && ResolvesExactlyOnce(outcome, intents)
    && Fund(b.cash, SizesOf(b.positions), ActionsOf(intents, outcome.accepted), tol).Enough?
  }

  /** The three ways an outcome can end, each with its exact condition. It is refused, with the book
      untouched, unless it is acceptable. An acceptable outcome stops the program at a missing position
      exactly when some sell finds nothing held by then, judged by the earlier fills alone. Otherwise it
      is recorded whole, with the cash of the dry run, and with its sizes up to dust per closing. */
  lemma RecordIsAtomic(b: Book, approved: seq<Intent>, outcome: Outcome, tol: Tolerances)
    ensures var actions := ActionsOf(IntentMap(approved), outcome.accepted);
      var funds := Fund(b.cash, SizesOf(b.positions), actions, tol);
      var (verdict, after) := Record(b, approved, outcome, tol);
      && (verdict.Failed? <==> !Acceptable(b, approved, outcome, tol))
      && (verdict.Panicked? <==>
            Acceptable(b, approved, outcome, tol) && exists j: nat :: FindsNothing(b, actions, j, tol.size))
      && (verdict.Recorded? <==> Acceptable(b, approved, outcome, tol) && FindsPositions(b, actions, tol.size))
      && (verdict.Failed? ==> after == b)
      && (verdict.Recorded? ==>
            && Commit(b, actions, tol.size) == Done(after) && BuysCovered(b, actions, tol)
            && after.cash == funds.cash
            && Agree(funds.sizes, after, ClosingsAfter(b, actions, map[], tol.size), tol.size))
  {
    DryRunExact(b, approved, outcome, tol);
    var actions := ActionsOf(IntentMap(approved), outcome.accepted);
    CommitStopsExactly(b, actions, tol.size);
    if DryRun(b, approved, outcome, tol).Ready? && Commit(b, actions, tol.size).Done? {
      SizesAgreeAtStart(b, tol.size);
      CommitFollowsFund(b, SizesOf(b.positions), actions, map[], tol);
    }
  }

  /** Without a dust threshold no outcome stops the program, and what is recorded is exactly what was
      checked: cash and every size. */
  lemma RecordIsExactWithoutDust(b: Book, approved: seq<Intent>, outcome: Outcome, tol: Tolerances)
    requires tol.size == 0.0
    ensures var actions := ActionsOf(IntentMap(approved), outcome.accepted);
      var funds := Fund(b.cash, SizesOf(b.positions), actions, tol);
      var (verdict, after) := Record(b, approved, outcome, tol);
      && (verdict.Recorded? <==> Acceptable(b, approved, outcome, tol)) && !verdict.Panicked?
      && (verdict.Recorded? ==>
            && SellsCovered(b, actions, 0.0) && after.cash == funds.cash
            && forall s :: Get(funds.sizes, s) == SizeAt(after, s))
  {
    RecordIsAtomic(b, approved, outcome, tol);
    if Acceptable(b, approved, outcome, tol) {
      var actions := ActionsOf(IntentMap(approved), outcome.accepted);
      SizesAgreeAtStart(b, tol.size);
      FundedIsCovered(b, SizesOf(b.positions), actions, map[], tol);
      CoveredCommits(b, actions, 0.0);
      var closings := ClosingsAfter(b, actions, map[], 0.0);
      forall s ensures Get(Fund(b.cash, SizesOf(b.positions), actions, tol).sizes, s)
                    == SizeAt(Record(b, approved, outcome, tol).1, s) {
        OneMore(CountOf(closings, s), 0.0);
      }
    }
  }

  // ---------- A promise brokers can make ----------

  /** Every sell is larger than the dust threshold. */
  ghost predicate SellsExceedDust(actions: seq<Action>, dust: NonNegative) {
    forall a :: a in actions && a.intent.side.Sell? ==> a.fill.quantity > dust
  }

  /** The symbols whose scratch size a sell has brought down to dust, once a is done. */
  function Closed(sizes: map<string, real>, a: Action, closed: set<string>, dust: NonNegative): set<string> {
    if a.intent.side.Sell? && Get(sizes, a.fill.symbol) - a.fill.quantity <= dust then closed + {a.fill.symbol}
    else closed
  }

  /** No symbol is sold again once a sell has brought its scratch size down to dust. */
  ghost predicate NoSellAfterClose(cash: real, sizes: map<string, real>, actions: seq<Action>, closed: set<string>,
                                   tol: Tolerances)
    decreases |actions|
  {
    actions == [] ||
    (var d := DryFill(Dry(cash, sizes, {}, []), actions[0].intent, actions[0].fill, tol);
     && (actions[0].intent.side.Sell? ==> actions[0].fill.symbol !in closed)
     && (d.Ready? ==> NoSellAfterClose(d.dry.cash, d.dry.sizes, actions[1..],
                                       Closed(sizes, actions[0], closed, tol.size), tol)))
  }

  /** Sells above dust, none of them of a symbol already closed, are all covered: partial sells of one
      symbol included. */
  lemma {:induction false} PromiseIsEnough(b: Book, sizes: map<string, real>, actions: seq<Action>, closed: set<string>,
                                           tol: Tolerances)
    requires Fund(b.cash, sizes, actions, tol).Enough? && SellsExceedDust(actions, tol.size)
    requires NoSellAfterClose(b.cash, sizes, actions, closed, tol)
    requires forall s :: s !in closed ==> Get(sizes, s) == SizeAt(b, s)
    ensures SellsCovered(b, actions, tol.size)
    decreases |actions|
  {
    if actions != [] {
      var a := actions[0];
      assert a in actions && forall c :: c in actions[1..] ==> c in actions;
      DryFillEffect(b.cash, sizes, a, tol);
      assert !Oversells(b, actions, 0, tol.size);
      CoveredMeets(b, actions, tol.size);
      SameCash(b, sizes, a, tol);
      var d := DryFill(Dry(b.cash, sizes, {}, []), a.intent, a.fill, tol).dry;
      var next, later := CommitOne(b, a, tol.size).book, Closed(sizes, a, closed, tol.size);
      forall s | s !in later ensures Get(d.sizes, s) == SizeAt(next, s) {
        SizeAfter(b, a, tol.size, s);
      }
      PromiseIsEnough(next, d.sizes, actions[1..], later, tol);
      SellsStep(b, actions, tol.size);
    }
  }

  // ---------- Where the two phases disagree ----------

  /** Sells above dust are not enough once there is dust: the dry run keeps a remainder that the
      commit deletes, so a second sell of the same symbol passes the check and finds no position. */
  lemma DustPanics(tol: Tolerances) returns (b: Book, approved: seq<Intent>, outcome: Outcome)
    requires tol.size > 0.0
    ensures SellsExceedDust(ActionsOf(IntentMap(approved), outcome.accepted), tol.size)
    ensures Record(b, approved, outcome, tol).0.Panicked?
  {
    var e: Positive := tol.size;
    var held := Position(1.0, e + e + e, 0.0, 0);
    b := Book(0.0, map["X" := held], [], [], 0.0);
    var intent := Intent("o", Sell, 1.0);
    approved := [intent];
    var first, second := Fill("1", "X", e + e, 1.0, 0.0, 0), Fill("2", "X", e + e, 1.0, 0.0, 0);
    outcome := Outcome(true, [AcceptedOrder("o", [first, second])], []);
    var intents := IntentMap(approved);
    assert IntentMap(approved[..0]) == map[];
    assert intents == map["o" := intent];
    var actions := [Action(intent, first), Action(intent, second)];
    assert ActionsFor(intent, [second]) == [Action(intent, second)];
    assert ActionsFor(intent, [first, second]) == actions;
    assert ActionsOf(intents, outcome.accepted) == actions + [];
    assert actions + [] == actions;
    assert ResolvesExactlyOnce(outcome, intents) by {
      assert OrderIds(outcome.accepted) == ["o"];
    }
    DustPanicsFunds(b, intent, first, second, tol);
    DryRunExact(b, approved, outcome, tol);
    var after := CommitOne(b, actions[0], tol.size).book;
    assert "X" !in after.positions;
    assert actions[1..][0] == actions[1];
    assert CommitOne(after, actions[1], tol.size).NilPosition?;
    assert Commit(after, actions[1..], tol.size).NilPosition?;
  }

  lemma DustPanicsFunds(b: Book, intent: Intent, first: Fill, second: Fill, tol: Tolerances)
    requires intent.side.Sell? && "X" in b.positions && first.symbol == second.symbol == "X"
    requires b.positions["X"].size == tol.size + tol.size + tol.size
    requires first.quantity == second.quantity == tol.size + tol.size
    ensures Fund(b.cash, SizesOf(b.positions), [Action(intent, first), Action(intent, second)], tol).Enough?
  {
    var actions := [Action(intent, first), Action(intent, second)];
    var d := DryFill(Dry(b.cash, SizesOf(b.positions), {}, []), intent, first, tol);
    assert d.Ready? && Get(d.dry.sizes, "X") == tol.size;
    var e := DryFill(Dry(d.dry.cash, d.dry.sizes, {}, []), intent, second, tol);
    assert e.Ready?;
    assert actions[1..] == [Action(intent, second)];
    assert actions[1..][1..] == [];
    assert Fund(e.dry.cash, e.dry.sizes, [], tol).Enough?;
  }

  /** Sells above dust alone keep every recorded outcome from panicking exactly when the threshold is
      zero. */
  lemma NeverPanicsIffNoDust(tol: Tolerances)
    ensures tol.size == 0.0 <==>
      forall b: Book, approved: seq<Intent>, outcome: Outcome
        {:trigger Record(b, approved, outcome, tol)} ::
        SellsExceedDust(ActionsOf(IntentMap(approved), outcome.accepted), tol.size) ==>
        !Record(b, approved, outcome, tol).0.Panicked?
  {
    hide Record, SellsExceedDust, ActionsOf, IntentMap, Fund, Acceptable, SellsCovered;
    if tol.size == 0.0 {
      forall b: Book, approved: seq<Intent>, outcome: Outcome
        | SellsExceedDust(ActionsOf(IntentMap(approved), outcome.accepted), tol.size)
        ensures !Record(b, approved, outcome, tol).0.Panicked?
      {
        RecordIsExactWithoutDust(b, approved, outcome, tol);
      }
    } else {
      var b, approved, outcome := DustPanics(tol);
    }
  }
}
