/** A history the ledger records and its own replay refuses: at any positive dust threshold the check and
    the live holdings can drift apart far enough for a sell to be recorded that was not covered. */
module UncoveredSells {
  import opened RealMath
  import opened FiniteSums
  import opened Ledger
  import opened Orders
  import opened MarketData
  import opened Atomicity
  import opened Runs
  import opened AuditLimits
  import opened Replay
  import opened Refinement

  function Trade(id: string, side: Side, quantity: Positive): Action {
    Action(Intent(id, side, 1.0), Fill(id, "X", quantity, 1.0, 0.0, 0))
  }

  /** Sell all but dust, buy again, and sell what was bought, twice dust included that is not there. */
  function Trades(e: Positive): (actions: seq<Action>)
    ensures |actions| == 3
  {
    [Trade("s", Sell, e + e), Trade("b", Buy, 5.0 * e), Trade("t", Sell, 7.0 * e)]
  }

  function OrderOf(a: Action): AcceptedOrder {
    AcceptedOrder(a.intent.id, [a.fill])
  }

  /** One outcome that fills each of three orders once. */
  function Filled(actions: seq<Action>): Step
    requires |actions| == 3
  {
    Submit([actions[0].intent, actions[1].intent, actions[2].intent],
           Outcome(true, [OrderOf(actions[0]), OrderOf(actions[1]), OrderOf(actions[2])], []))
  }

  lemma FilledResolves(e: Positive)
    ensures var step := Filled(Trades(e));
      && ActionsOf(IntentMap(step.approved), step.outcome.accepted) == Trades(e)
      && ResolvesExactlyOnce(step.outcome, IntentMap(step.approved))
  {
    var actions, step := Trades(e), Filled(Trades(e));
    var all, orders := step.approved, step.outcome.accepted;
    assert all[..2] == [all[0], all[1]] && all[..2][..1] == [all[0]] && all[..2][..1][..0] == [];
    assert IntentMap(all[..2][..1]) == map["s" := all[0]];
    assert IntentMap(all[..2]) == map["s" := all[0], "b" := all[1]];
    var intents := IntentMap(all);
    assert intents == map["s" := all[0], "b" := all[1], "t" := all[2]];
    assert orders[1..] == [orders[1], orders[2]] && orders[1..][1..] == [orders[2]] && orders[1..][1..][1..] == [];
    OneAction(actions[0], intents);
    OneAction(actions[1], intents);
    OneAction(actions[2], intents);
    assert ActionsOf(intents, orders[1..][1..]) == [actions[2]] + [];
    assert ActionsOf(intents, orders[1..]) == [actions[1]] + ([actions[2]] + []);
    assert OrderIds(orders[1..][1..]) == ["t"] + [];
    assert OrderIds(orders) + step.outcome.rejected == ["s", "b", "t"];
  }

  lemma OneAction(a: Action, intents: map<string, Intent>)
    requires a.intent.id in intents && intents[a.intent.id] == a.intent
    ensures ActionsFor(a.intent, [a.fill]) == [a]
  {
    assert [a.fill][1..] == [];
  }

  /** The check funds all three from a holding of three dusts. */
  lemma TradesAreFunded(b: Book, tol: Tolerances)
    requires tol.size > 0.0 && b.cash >= 3.0 * tol.size
    requires "X" in b.positions && b.positions["X"].size == 3.0 * tol.size
    ensures Fund(b.cash, SizesOf(b.positions), Trades(tol.size), tol).Enough?
  {
    var e, actions := tol.size, Trades(tol.size);
    var first := DryFill(Dry(b.cash, SizesOf(b.positions), {}, []), actions[0].intent, actions[0].fill, tol);
    assert first.Ready? && Ledger.Get(first.dry.sizes, "X") == e && first.dry.cash == b.cash + (e + e);
    var second := DryFill(Dry(first.dry.cash, first.dry.sizes, {}, []), actions[1].intent, actions[1].fill, tol);
    assert second.Ready? && Ledger.Get(second.dry.sizes, "X") == 6.0 * e;
    var third := DryFill(Dry(second.dry.cash, second.dry.sizes, {}, []), actions[2].intent, actions[2].fill, tol);
    assert third.Ready?;
    assert actions[1..] == [actions[1], actions[2]] && actions[1..][1..] == [actions[2]];
    assert actions[1..][1..][1..] == [];
    assert Fund(third.dry.cash, third.dry.sizes, [], tol).Enough?;
    assert Fund(second.dry.cash, second.dry.sizes, actions[1..][1..], tol).Enough?;
    assert Fund(first.dry.cash, first.dry.sizes, actions[1..], tol).Enough?;
  }

  /** Each sell finds something held, but the last one too little. */
  lemma TradesOversell(b: Book, tol: Tolerances)
    requires tol.size > 0.0 && "X" in b.positions && b.positions["X"].size == 3.0 * tol.size
    ensures FindsPositions(b, Trades(tol.size), tol.size) && Oversells(b, Trades(tol.size), 2, tol.size)
  {
    var e, actions := tol.size, Trades(tol.size);
    assert actions[..0] == [] && actions[..2] == [actions[0], actions[1]];
    assert actions[..2][1..] == [actions[1]] && actions[..2][1..][1..] == [];
    assert SizeFound(b, actions, 0, e) == 3.0 * e;
    assert Moved(3.0 * e, actions[0], "X", e) == 0.0;
    assert LiveSize(0.0, actions[..2][1..], "X", e) == LiveSize(5.0 * e, [], "X", e);
    assert SizeFound(b, actions, 2, e) == 5.0 * e;
    forall j: nat ensures !FindsNothing(b, actions, j, e) {
      assert j < 3 ==> j == 0 || j == 1 || j == 2;
    }
  }

  function FirstBuy(e: Positive): Step {
    var a := Trade("o", Buy, 3.0 * e);
    OneOrder(a.intent, a.fill)
  }

  predicate IsPlain(e: Event, id: string) {
    && e.fillId == id && e.symbol == "X" && e.at == 0 && e.quantity > 0.0 && e.price == 1.0 && e.fee == 0.0
    && e.reference == 1.0
  }

  /** A book after the first buy. */
  ghost predicate Bought(b: Book, e: Positive) {
    && "X" in b.positions && b.positions["X"].size == 3.0 * e && b.cash == 3.0 * e
    && |b.events| == 1 && IsPlain(b.events[0], "o")
  }

  lemma FirstStep(env: Setting)
    requires env.tol.size > 0.0
    ensures var b, e := OpeningBook(6.0 * env.tol.size), env.tol.size;
      Legal(b, FirstBuy(e), env) && Bought(Advance(b, FirstBuy(e), env), e)
  {
    hide Legal, Advance, CommitBuy;
    var b, a := OpeningBook(6.0 * env.tol.size), Trade("o", Buy, 3.0 * env.tol.size);
    OneOrderCommits(b, a.intent, a.fill, env);
    FirstBought(env.tol.size);
  }

  lemma FirstBought(e: Positive)
    ensures Bought(CommitBuy(OpeningBook(6.0 * e), Trade("o", Buy, 3.0 * e)), e)
  {
    var b, a := OpeningBook(6.0 * e), Trade("o", Buy, 3.0 * e);
    assert CommitBuy(b, a).events == [EventOf(a, CommitBuy(b, a).cash)];
  }

  lemma SecondStep(mid: Book, env: Setting)
    requires env.tol.size > 0.0 && Bought(mid, env.tol.size)
    ensures var step, actions := Filled(Trades(env.tol.size)), Trades(env.tol.size);
      && Legal(mid, step, env) && StepActions(mid, step, env) == actions
      && Commit(mid, actions, env.tol.size) == Done(Advance(mid, step, env))
      && !SellsCovered(mid, actions, env.tol.size)
  {
    hide FindsPositions, Fund, ResolvesExactlyOnce, ActionsOf, IntentMap;
    var step := Filled(Trades(env.tol.size));
    FilledResolves(env.tol.size);
    TradesAreFunded(mid, env.tol);
    TradesOversell(mid, env.tol);
    RecordIsAtomic(mid, step.approved, step.outcome, env.tol);
  }

  /** The log of the trades. */
  lemma TradeEvents(mid: Book, e: Positive)
    requires Bought(mid, e) && Commit(mid, Trades(e), e).Done?
    ensures var events := Commit(mid, Trades(e), e).book.events;
      && |events| == 4 && IsPlain(events[0], "o") && IsPlain(events[1], "s") && IsPlain(events[2], "b")
      && IsPlain(events[3], "t")
  {
    var actions := Trades(e);
    assert actions[1..] == [actions[1], actions[2]] && actions[1..][1..] == [actions[2]];
    assert actions[1..][1..][1..] == [];
    EventAdded(mid, actions[0], e);
    var one := CommitOne(mid, actions[0], e).book;
    EventAdded(one, actions[1], e);
    var two := CommitOne(one, actions[1], e).book;
    EventAdded(two, actions[2], e);
    LastOfCommit(mid, actions, one, two, e);
  }

  lemma LastOfCommit(b: Book, actions: seq<Action>, one: Book, two: Book, e: Positive)
    requires |actions| == 3 && CommitOne(b, actions[0], e) == Done(one) && CommitOne(one, actions[1], e) == Done(two)
    ensures Commit(b, actions, e) == CommitOne(two, actions[2], e)
  {
    assert actions[1..] == [actions[1], actions[2]] && actions[1..][1..] == [actions[2]];
    assert actions[1..][1..][1..] == [];
    var last := CommitOne(two, actions[2], e);
    assert last.Done? ==> Commit(last.book, [], e) == last;
    assert Commit(two, actions[1..][1..], e) == last;
    assert Commit(one, actions[1..], e) == last;
  }

  lemma EventAdded(b: Book, a: Action, e: Positive)
    ensures CommitOne(b, a, e).Done? ==>
      CommitOne(b, a, e).book.events == b.events + [EventOf(a, CommitOne(b, a, e).book.cash)]
    ensures a.intent.side.Buy? ==> CommitOne(b, a, e).Done?
  {
  }

  function History(e: Positive): seq<Step> {
    [FirstBuy(e), Filled(Trades(e))]
  }

  lemma HistoryIsRecorded(env: Setting)
    requires env.tol.size > 0.0
    ensures var b, e := OpeningBook(6.0 * env.tol.size), env.tol.size;
      && LegalRun(b, History(e), env) && NoRenames(History(e)) && !CoveredRun(b, History(e), env)
      && var events := Play(b, History(e), env).events;
      && |events| == 4 && IsPlain(events[0], "o") && IsPlain(events[1], "s") && IsPlain(events[2], "b")
      && IsPlain(events[3], "t")
  {
    hide Legal, Bought, Advance, SellsCovered, StepActions, IsPlain, FirstBuy, Filled, Trades;
    var b, e := OpeningBook(6.0 * env.tol.size), env.tol.size;
    var mid := Advance(b, FirstBuy(e), env);
    FirstStep(env);
    SecondStep(mid, env);
    TradeEvents(mid, e);
    TwoSteps(b, FirstBuy(e), Filled(Trades(e)), env);
    SubmitsOnly(e);
    assert History(e)[1..] == [Filled(Trades(e))];
    assert !CoveredRun(mid, History(e)[1..], env);
  }

  lemma SubmitsOnly(e: Positive)
    ensures NoRenames(History(e))
  {
  }

  /** Refinement needs covered sells: for every positive threshold there is a history the ledger records
      from start to end, with good evidence for every fill, whose replay refuses it. */
  lemma RecordedYetRefused(env: Setting, near: NonNegative)
    returns (capital: real, steps: seq<Step>, ctx: Context)
    requires env.tol.size > 0.0
    ensures capital > 0.0 && LegalRun(OpeningBook(capital), steps, env) && NoRenames(steps)
    ensures ctx.ledger == env.tol && ctx.trades == Play(OpeningBook(capital), steps, env).trades
    ensures GoodEvidence(ProjectAll(Play(OpeningBook(capital), steps, env).events), ctx)
    ensures var b := Play(OpeningBook(capital), steps, env);
      ReplayAll(ProjectAll(b.events), MetricsOf(b, capital), capital, ctx).Denied?
  {
    hide LegalRun, CoveredRun, NoRenames, Play, GoodEvidence, ReplayAll, History, IsPlain, MetricsOf;
    var e: Positive := env.tol.size;
    capital, steps := 6.0 * e, History(e);
    HistoryIsRecorded(env);
    var b := Play(OpeningBook(capital), steps, env);
    ctx := Context(Plain, map["X" := [MINUTE]], b.trades, env.tol, near);
    PlainEvidence(b.events, ctx);
    ReplayRefinesLedger(capital, steps, env, ctx);
  }

  lemma PlainEvidence(events: seq<Event>, ctx: Context)
    requires |events| == 4 && IsPlain(events[0], "o") && IsPlain(events[1], "s") && IsPlain(events[2], "b")
    requires IsPlain(events[3], "t") && ctx.policy.Plain? && ctx.execution == map["X" := [MINUTE]]
    ensures GoodEvidence(ProjectAll(events), ctx)
  {
    var fills := ProjectAll(events);
    MinuteIsFound(ctx.execution);
    forall i | 0 <= i < 4 ensures Supported(fills[i], {}, ctx) && fills[i].at == 0 {
      assert i == 0 || i == 1 || i == 2 || i == 3;
    }
    assert fills[0].fillId == "o" && fills[1].fillId == "s" && fills[2].fillId == "b" && fills[3].fillId == "t";
  }

  const MINUTE := Bar(0, 1.0, 1.0, 1.0, 1.0, 1.0, 59_999)

  lemma MinuteIsFound(execution: Series)
    requires execution == map["X" := [MINUTE]]
    ensures BarAt(MarketData.Get(execution, "X"), 0) == Some(MINUTE)
  {
    assert ClosesAfter([MINUTE], 0)(0);
    assert FirstOpenFrom([MINUTE], Instant(Millis(0))) == 0;
  }
}
