/** Conservation of money over every ledger history: cash plus the cost of what is held, less the
    profit already booked, stays at the initial balance. The only leak is the cost of a remainder
    small enough to be deleted, and it is bounded. */
module Conservation {
  import opened RealMath
  import opened FiniteSums
  import opened Ledger
  import opened Atomicity
  import opened Renames
  import opened Runs

  function BasisOf(s: string, p: Position): real {
    p.size * p.entryPrice + p.entryFee
  }

  function TotalPnl(trades: seq<Trade>): real {
    if trades == [] then 0.0 else TotalPnl(trades[..|trades| - 1]) + trades[|trades| - 1].pnl
  }

  /** Cash and cost basis, net of booked profit. */
  ghost function Invested(b: Book): real {
    b.cash + SumOver(b.positions, BasisOf) - TotalPnl(b.trades)
  }

  /** Cost per unit of a position, entry fee included. */
  function UnitCost(p: Position): real {
    p.entryPrice + p.entryFee / p.size
  }

  /** Cost of the remainder a closing sell throws away; negative if it sold slightly too much. */
  function StepDrift(b: Book, a: Action, dust: NonNegative): real {
    if Closes(b, a, dust) then
      var p := b.positions[a.fill.symbol];
      (p.size - a.fill.quantity) * UnitCost(p)
    else 0.0
  }

  /** Dust times unit cost for a closing sell, and as much again for each earlier closing of the symbol
      in the same outcome. */
  function StepDriftBound(b: Book, a: Action, n: nat, dust: NonNegative): real {
    if Closes(b, a, dust) then Copies(n + 1, dust) * UnitCost(b.positions[a.fill.symbol]) else 0.0
  }

  lemma AveragedBasis(p: Position, f: Fill, s: string)
    ensures BasisOf(s, Averaged(p, f)) == BasisOf(s, p) + f.quantity * f.price + f.fee
  {
    var total := p.size + f.quantity;
    Cancel(p.entryPrice * p.size + f.price * f.quantity, total);
  }

  /** A buy adds its cost to the basis of its symbol. */
  lemma BoughtBasis(b: Book, a: Action)
    requires a.intent.side.Buy?
    ensures var s, after := a.fill.symbol, CommitBuy(b, a);
      && after.trades == b.trades && after.cash == b.cash - (a.fill.quantity * a.fill.price + a.fill.fee)
      && s in after.positions && after.positions == b.positions[s := after.positions[s]]
      && BasisOf(s, after.positions[s]) - (if s in b.positions then BasisOf(s, b.positions[s]) else 0.0)
         == a.fill.quantity * a.fill.price + a.fill.fee
  {
    if a.fill.symbol in b.positions {
      AveragedBasis(b.positions[a.fill.symbol], a.fill, a.fill.symbol);
    }
  }

  lemma BuyConserves(b: Book, a: Action)
    requires a.intent.side.Buy?
    ensures Invested(CommitBuy(b, a)) == Invested(b)
  {
    hide BasisOf, CommitBuy;
    var after := CommitBuy(b, a);
    BoughtBasis(b, a);
    SumPut(b.positions, BasisOf, a.fill.symbol, after.positions[a.fill.symbol]);
  }

  /** Basis a sell of quantity takes out, and what it leaves. */
  lemma SellBasis(p: Position, q: real, s: string)
    ensures BasisOf(s, p) - (q * p.entryPrice + ReleasedFee(p, q)) == (p.size - q) * UnitCost(p)
    ensures p.size - q > 0.0 ==>
      BasisOf(s, p.(size := p.size - q, entryFee := p.entryFee - ReleasedFee(p, q))) == (p.size - q) * UnitCost(p)
  {
    var perUnit := p.entryFee / p.size;
    Cancel(p.entryFee, p.size);
    assert ReleasedFee(p, q) == perUnit * q by {
      assert p.entryFee * q / p.size == perUnit * q;
    }
    assert (p.size - q) * perUnit == p.entryFee - perUnit * q;
  }

  /** A sell books its profit and takes its basis out, together with what a deleted remainder cost. */
  lemma SoldBasis(b: Book, a: Action, dust: NonNegative)
    requires a.intent.side.Sell? && a.fill.symbol in b.positions
    ensures var s, p, after := a.fill.symbol, b.positions[a.fill.symbol], CommitSell(b, a, dust);
      && after.trades == b.trades + [TradeOf(p, a.fill)]
      && (if Closes(b, a, dust) then after.positions == b.positions - {s}
          else s in after.positions && after.positions == b.positions[s := after.positions[s]])
      && after.cash - b.cash - TradeOf(p, a.fill).pnl
         == BasisOf(s, p) - (if Closes(b, a, dust) then 0.0 else BasisOf(s, after.positions[s])) - StepDrift(b, a, dust)
  {
    var f := a.fill;
    var p := b.positions[f.symbol];
    SellBasis(p, f.quantity, f.symbol);
    ProfitOf(p, f);
  }

  lemma ProfitOf(p: Position, f: Fill)
    ensures f.quantity * f.price - f.fee - TradeOf(p, f).pnl == f.quantity * p.entryPrice + ReleasedFee(p, f.quantity)
  {
  }

  lemma SellConserves(b: Book, a: Action, dust: NonNegative)
    requires a.intent.side.Sell? && a.fill.symbol in b.positions
    ensures Invested(CommitSell(b, a, dust)) == Invested(b) - StepDrift(b, a, dust)
  {
    hide BasisOf, CommitSell, StepDrift, Closes, TradeOf;
    var after := CommitSell(b, a, dust);
    SoldBasis(b, a, dust);
    assert after.trades[..|b.trades|] == b.trades;
    SumTakeOut(b.positions, BasisOf, a.fill.symbol);
    if !Closes(b, a, dust) {
      SumPut(b.positions, BasisOf, a.fill.symbol, after.positions[a.fill.symbol]);
    }
  }

  /** No held position carries a negative fee. */
  ghost predicate FeesSound(b: Book) {
    forall s :: s in b.positions ==> b.positions[s].entryFee >= 0.0
  }

  lemma ProductWithin(x: real, y: real, c: real)
    requires -y <= x <= y && c >= 0.0
    ensures Within(x * c, 0.0, y * c)
  {
  }

  lemma ClosingWithin(remainder: real, n: nat, dust: NonNegative)
    requires remainder <= dust && remainder + Copies(n + 1, dust) >= 0.0
    ensures -Copies(n + 1, dust) <= remainder <= Copies(n + 1, dust)
  {
    OneMore(n, dust);
  }

  lemma UnitCostSign(p: Position)
    requires p.entryFee >= 0.0
    ensures UnitCost(p) >= 0.0
  {
    QuotientIsNonNegative(p.entryFee, p.size);
  }

  lemma StepDriftBounded(b: Book, a: Action, n: nat, dust: NonNegative)
    requires FeesSound(b)
    requires a.intent.side.Sell? ==> SizeAt(b, a.fill.symbol) - a.fill.quantity + Copies(n + 1, dust) >= 0.0
    ensures Within(StepDrift(b, a, dust), 0.0, StepDriftBound(b, a, n, dust))
  {
    hide Copies, UnitCost;
    if Closes(b, a, dust) {
      var p := b.positions[a.fill.symbol];
      ClosingWithin(p.size - a.fill.quantity, n, dust);
      UnitCostSign(p);
      ProductWithin(p.size - a.fill.quantity, Copies(n + 1, dust), UnitCost(p));
    }
  }

  lemma FeesStaySound(b: Book, a: Action, dust: NonNegative)
    requires FeesSound(b) && a.fill.fee >= 0.0 && CommitOne(b, a, dust).Done?
    ensures FeesSound(CommitOne(b, a, dust).book)
  {
    hide ReleasedFee;
    if a.intent.side.Sell? && !Closes(b, a, dust) {
      RestKeepsFee(b.positions[a.fill.symbol], a.fill.quantity);
    }
  }

  lemma RestKeepsFee(p: Position, q: real)
    requires p.entryFee >= 0.0 && q <= p.size
    ensures ReleasedFee(p, q) <= p.entryFee
  {
    QuotientIsNonNegative(p.entryFee, p.size);
    Cancel(p.entryFee, p.size);
    ProductIsNonNegative(p.entryFee / p.size, p.size - q);
    assert p.entryFee - ReleasedFee(p, q) == p.entryFee / p.size * (p.size - q);
  }

  // ---------- Over a commit, and over a history ----------

  function CommitDrift(b: Book, actions: seq<Action>, dust: NonNegative): real
    decreases |actions|
  {
    if actions == [] then 0.0
    else StepDrift(b, actions[0], dust) + CommitDrift(CommitOne(b, actions[0], dust).book, actions[1..], dust)
  }

  function CommitDriftBound(b: Book, actions: seq<Action>, closings: map<string, nat>, dust: NonNegative): real
    decreases |actions|
  {
    if actions == [] then 0.0
    else
      StepDriftBound(b, actions[0], CountOf(closings, actions[0].fill.symbol), dust)
      + CommitDriftBound(CommitOne(b, actions[0], dust).book, actions[1..],
                         NextClosings(b, actions[0], closings, dust), dust)
  }

  lemma OneConserves(b: Book, a: Action, dust: NonNegative)
    requires CommitOne(b, a, dust).Done?
    ensures Invested(CommitOne(b, a, dust).book) == Invested(b) - StepDrift(b, a, dust)
  {
    if a.intent.side.Buy? {
      BuyConserves(b, a);
    } else {
      SellConserves(b, a, dust);
    }
  }

  /** Whatever a funded commit buys and sells, the money changes by its drift and by nothing else. */
  lemma {:induction false} CommitConserves(b: Book, sizes: map<string, real>, actions: seq<Action>,
                                           closings: map<string, nat>, tol: Tolerances)
    requires Agree(sizes, b, closings, tol.size) && FeesSound(b) && FeesNonNegative(actions)
    requires Fund(b.cash, sizes, actions, tol).Enough? && Commit(b, actions, tol.size).Done?
    ensures var after := Commit(b, actions, tol.size).book;
      && FeesSound(after)
      && Invested(after) == Invested(b) - CommitDrift(b, actions, tol.size)
      && Within(CommitDrift(b, actions, tol.size), 0.0, CommitDriftBound(b, actions, closings, tol.size))
    decreases |actions|
  {
    if actions != [] {
      var a, next := actions[0], CommitOne(b, actions[0], tol.size).book;
      assert a in actions && forall c :: c in actions[1..] ==> c in actions;
      var d := FundedStep(b, sizes, actions, closings, tol);
      AgreeStep(sizes, b, a, closings, tol);
      StepDriftBounded(b, a, CountOf(closings, a.fill.symbol), tol.size);
      FeesStaySound(b, a, tol.size);
      OneConserves(b, a, tol.size);
      CommitConserves(next, d.sizes, actions[1..], NextClosings(b, a, closings, tol.size), tol);
    }
  }

  /** When every sell is covered, one dust per closing sell is bound enough. */
  lemma {:induction false} CoveredDriftBounded(b: Book, actions: seq<Action>, dust: NonNegative)
    requires SellsCovered(b, actions, dust) && FeesSound(b) && FeesNonNegative(actions)
    ensures Within(CommitDrift(b, actions, dust), 0.0, DustCost(b, actions, dust))
    decreases |actions|
  {
    if actions != [] {
      assert actions[0] in actions && forall c :: c in actions[1..] ==> c in actions;
      CoveredMeets(b, actions, dust);
      SellsStep(b, actions, dust);
      OneMore(0, dust);
      StepDriftBounded(b, actions[0], 0, dust);
      FeesStaySound(b, actions[0], dust);
      CoveredDriftBounded(CommitOne(b, actions[0], dust).book, actions[1..], dust);
    }
  }

  /** Dust times unit cost, summed over the closing sells of a commit. */
  function DustCost(b: Book, actions: seq<Action>, dust: NonNegative): real
    decreases |actions|
  {
    if actions == [] then 0.0
    else StepDriftBound(b, actions[0], 0, dust) + DustCost(CommitOne(b, actions[0], dust).book, actions[1..], dust)
  }

  // ---------- Over a history ----------

  function RunDrift(b: Book, steps: seq<Step>, env: Setting): real
    decreases |steps|
  {
    if steps == [] then 0.0
    else
      CommitDrift(b, StepActions(b, steps[0], env), env.tol.size)
      + RunDrift(Advance(b, steps[0], env), steps[1..], env)
  }

  /** The bounds of all commits together. */
  function RunDriftBound(b: Book, steps: seq<Step>, env: Setting): real
    decreases |steps|
  {
    if steps == [] then 0.0
    else
      CommitDriftBound(b, StepActions(b, steps[0], env), map[], env.tol.size)
      + RunDriftBound(Advance(b, steps[0], env), steps[1..], env)
  }

  /** Dust times unit cost, summed over all closing sells. */
  function RunDustCost(b: Book, steps: seq<Step>, env: Setting): real
    decreases |steps|
  {
    if steps == [] then 0.0
    else
      DustCost(b, StepActions(b, steps[0], env), env.tol.size)
      + RunDustCost(Advance(b, steps[0], env), steps[1..], env)
  }

  lemma {:induction false} RenameAllKeepsFees(positions: map<string, Position>, order: seq<string>,
                                              candidates: seq<string>,
                                              ids: Identities)
    requires forall s :: s in positions ==> positions[s].entryFee >= 0.0
    ensures forall s :: s in RenameAll(positions, order, candidates, ids) ==>
      RenameAll(positions, order, candidates, ids)[s].entryFee >= 0.0
    decreases |order|
  {
    if order != [] {
      RenameAllKeepsFees(RenameOne(positions, order[0], candidates, ids), order[1..], candidates, ids);
    }
  }

  lemma StepConserves(b: Book, step: Step, env: Setting)
    requires Legal(b, step, env) && FeesSound(b)
    ensures var after, actions := Advance(b, step, env), StepActions(b, step, env);
      && FeesSound(after)
      && Invested(after) == Invested(b) - CommitDrift(b, actions, env.tol.size)
      && Within(CommitDrift(b, actions, env.tol.size), 0.0, CommitDriftBound(b, actions, map[], env.tol.size))
      && (SellsCovered(b, actions, env.tol.size) ==>
            Within(CommitDrift(b, actions, env.tol.size), 0.0, DustCost(b, actions, env.tol.size)))
  {
    match step
    case Submit(_, _) =>
      SubmitCommits(b, step, env);
      SizesAgreeAtStart(b, env.tol.size);
      CommitConserves(b, SizesOf(b.positions), StepActions(b, step, env), map[], env.tol);
      if SellsCovered(b, StepActions(b, step, env), env.tol.size) {
        CoveredDriftBounded(b, StepActions(b, step, env), env.tol.size);
      }
    case Rename(order, candidates) =>
      RenameAllKeeps(b.positions, order, candidates, env.ids, BasisOf);
      RenameAllKeepsFees(b.positions, order, candidates, env.ids);
  }

  lemma {:induction false} RunConserves(b: Book, steps: seq<Step>, env: Setting)
    requires LegalRun(b, steps, env) && FeesSound(b)
    ensures var after := Play(b, steps, env);
      && FeesSound(after)
      && Invested(after) == Invested(b) - RunDrift(b, steps, env)
      && Within(RunDrift(b, steps, env), 0.0, RunDriftBound(b, steps, env))
      && (CoveredRun(b, steps, env) ==> Within(RunDrift(b, steps, env), 0.0, RunDustCost(b, steps, env)))
    decreases |steps|
  {
    if steps != [] {
      StepConserves(b, steps[0], env);
      RunConserves(Advance(b, steps[0], env), steps[1..], env);
    }
  }

  lemma NoDustNoBound(b: Book, actions: seq<Action>, closings: map<string, nat>)
    ensures CommitDriftBound(b, actions, closings, 0.0) == 0.0
    decreases |actions|
  {
    if actions != [] {
      NoDustNoBound(CommitOne(b, actions[0], 0.0).book, actions[1..], NextClosings(b, actions[0], closings, 0.0));
    }
  }

  lemma {:induction false} NoDustNoRunBound(b: Book, steps: seq<Step>, env: Setting)
    requires env.tol.size == 0.0
    ensures RunDriftBound(b, steps, env) == 0.0
    decreases |steps|
  {
    if steps != [] {
      NoDustNoBound(b, StepActions(b, steps[0], env), map[]);
      NoDustNoRunBound(Advance(b, steps[0], env), steps[1..], env);
    }
  }

  /** From the opening balance, after any history the program survives: cash plus what the open
      positions cost, less all booked profit, is the initial balance less the drift of the closing
      sells. The drift is bounded by dust times unit cost per closing sell, and as much again for each
      earlier closing of the same symbol in the same outcome; by the plain sum when every sell is
      covered; and it is zero without a dust threshold. */
  lemma MoneyIsConserved(initial: real, steps: seq<Step>, env: Setting)
    requires LegalRun(OpeningBook(initial), steps, env)
    ensures var b := Play(OpeningBook(initial), steps, env);
      var total := b.cash + SumOver(b.positions, BasisOf) - TotalPnl(b.trades);
      && total == initial - RunDrift(OpeningBook(initial), steps, env)
      && Within(total, initial, RunDriftBound(OpeningBook(initial), steps, env))
      && (CoveredRun(OpeningBook(initial), steps, env) ==>
            Within(total, initial, RunDustCost(OpeningBook(initial), steps, env)))
      && (env.tol.size == 0.0 ==> total == initial)
  {
    RunConserves(OpeningBook(initial), steps, env);
    if env.tol.size == 0.0 {
      NoDustNoRunBound(OpeningBook(initial), steps, env);
    }
  }

  // ---------- Turnover ----------

  function EventNotional(events: seq<Event>): real {
    if events == [] then 0.0
    else EventNotional(events[..|events| - 1]) + events[|events| - 1].quantity * events[|events| - 1].price
  }

  lemma {:induction false} CommitTurnover(b: Book, actions: seq<Action>, dust: NonNegative)
    requires Commit(b, actions, dust).Done?
    ensures var after := Commit(b, actions, dust).book;
      after.turnover - EventNotional(after.events) == b.turnover - EventNotional(b.events)
    decreases |actions|
  {
    if actions != [] {
      OneTurnover(b, actions[0], dust);
      CommitTurnover(CommitOne(b, actions[0], dust).book, actions[1..], dust);
    }
  }

  lemma OneTurnover(b: Book, a: Action, dust: NonNegative)
    requires CommitOne(b, a, dust).Done?
    ensures var next := CommitOne(b, a, dust).book;
      next.turnover - EventNotional(next.events) == b.turnover - EventNotional(b.events)
  {
    var next := CommitOne(b, a, dust).book;
    LoggedOnce(b.events, EventOf(a, next.cash));
  }

  lemma LoggedOnce(events: seq<Event>, e: Event)
    ensures EventNotional(events + [e]) == EventNotional(events) + e.quantity * e.price
  {
    assert (events + [e])[..|events|] == events;
  }

  lemma {:induction false} RunTurnover(b: Book, steps: seq<Step>, env: Setting)
    requires LegalRun(b, steps, env)
    ensures var after := Play(b, steps, env);
      after.turnover - EventNotional(after.events) == b.turnover - EventNotional(b.events)
    decreases |steps|
  {
    if steps != [] {
      if steps[0].Submit? {
        SubmitCommits(b, steps[0], env);
        CommitTurnover(b, StepActions(b, steps[0], env), env.tol.size);
      }
      RunTurnover(Advance(b, steps[0], env), steps[1..], env);
    }
  }

  /** The ledger's turnover is the notional of its log, after any history the program survives. */
  lemma TurnoverIsLogged(initial: real, steps: seq<Step>, env: Setting)
    requires LegalRun(OpeningBook(initial), steps, env)
    ensures var b := Play(OpeningBook(initial), steps, env); b.turnover == EventNotional(b.events)
  {
    RunTurnover(OpeningBook(initial), steps, env);
  }
}
