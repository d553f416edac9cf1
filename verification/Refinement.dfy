/** The replay audit refines the ledger: on the artifacts of any rename-free history whose sells were
    covered, and of no other, it accepts every fill, consumes the closed trades in order, and ends with
    the ledger's cash and positions. */
module Refinement {
  import opened RealMath
  import opened FiniteSums
  import opened Sequences
  import opened Ledger
  import opened Orders
  import opened MarketData
  import opened Atomicity
  import opened Renames
  import opened Runs
  import opened Replay

  // ---------- The artifacts of a ledger ----------

  function SideText(side: Side): string {
    if side.Buy? then "buy" else "sell"
  }

  function Project(e: Event): FillArtifact {
    FillArtifact(e.fillId, e.orderId, e.symbol, SideText(e.side), true, e.quantity, e.price, e.fee, e.reference, e.at)
  }

  function ProjectAll(events: seq<Event>): (fills: seq<FillArtifact>)
    ensures |fills| == |events|
    ensures forall i :: 0 <= i < |events| ==> fills[i] == Project(events[i])
  {
    seq(|events|, i requires 0 <= i < |events| => Project(events[i]))
  }

  /** The fill artifacts, and the cash each ledger artifact records. */
  method BuildArtifacts(events: seq<Event>) returns (fills: seq<FillArtifact>, cashAfter: seq<real>)
    ensures fills == ProjectAll(events)
    ensures |cashAfter| == |events| && forall i :: 0 <= i < |events| ==> cashAfter[i] == events[i].cashAfter
  {
    fills, cashAfter := [], [];
    for i := 0 to |events|
      invariant |fills| == i && |cashAfter| == i
      invariant forall k :: 0 <= k < i ==> fills[k] == Project(events[k]) && cashAfter[k] == events[k].cashAfter
    {
      fills := fills + [Project(events[i])];
      cashAfter := cashAfter + [events[i].cashAfter];
    }
  }

  // ---------- Totals of any accepted replay ----------

  function Amount(f: FillArtifact): real {
    f.quantity * f.price
  }

  function TotalNotional(fills: seq<FillArtifact>): real {
    if fills == [] then 0.0 else Amount(fills[0]) + TotalNotional(fills[1..])
  }

  function TotalFees(fills: seq<FillArtifact>): real {
    if fills == [] then 0.0 else fills[0].fee + TotalFees(fills[1..])
  }

  /** How far two prices are apart. */
  function Apart(a: real, b: real): real {
    if a >= b then a - b else b - a
  }

  /** What a fill lost to its reference price. */
  function Slipped(f: FillArtifact): real {
    f.quantity * Apart(f.price, f.reference)
  }

  function TotalSlippage(fills: seq<FillArtifact>): real {
    if fills == [] then 0.0 else Slipped(fills[0]) + TotalSlippage(fills[1..])
  }

  function SellIds(fills: seq<FillArtifact>): seq<string> {
    if fills == [] then [] else SellId(fills[0]) + SellIds(fills[1..])
  }

  function ExitIds(trades: seq<TradePrimitive>): (ids: seq<string>)
    ensures |ids| == |trades| && forall k :: 0 <= k < |ids| ==> ids[k] == trades[k].exitFillId
  {
    seq(|trades|, k requires 0 <= k < |trades| => trades[k].exitFillId)
  }

  /** Closed trades are consumed in order, each with its own booked profit. */
  ghost predicate TradesInOrder(trades: seq<TradePrimitive>, closed: seq<Trade>) {
    && |trades| <= |closed|
    && forall k :: 0 <= k < |trades| ==> trades[k].net == closed[k].pnl && trades[k].symbol == closed[k].symbol
  }

  lemma ReplayOneTotals(st: State, f: FillArtifact, ctx: Context)
    requires ReplayOne(st, f, ctx).Next?
    ensures var next := ReplayOne(st, f, ctx).state;
      && next.turnover == st.turnover + Amount(f)
      && next.fees == st.fees + f.fee
      && next.slippage == st.slippage + Slipped(f)
      && |next.fills| == |st.fills| + 1
  {
    hide Enter, Exit, Admit;
    AdmitTotals(st, f, ctx);
    PositionsOnly(Admit(st, f, ctx).state, f, ctx);
  }

  lemma SlippedIsSlippage(f: FillArtifact)
    ensures SlippageOf(f) == Slipped(f) && Notional(f) == Amount(f)
  {
  }

  lemma AdmitTotals(st: State, f: FillArtifact, ctx: Context)
    requires Admit(st, f, ctx).Next?
    ensures var next := Admit(st, f, ctx).state;
      && next.turnover == st.turnover + Amount(f) && next.fees == st.fees + f.fee
      && next.slippage == st.slippage + Slipped(f) && |next.fills| == |st.fills| + 1 && f.quantity > 0.0
      && FillBar(ctx, f).Some?
  {
    hide Notional, Amount, SlippageOf, Slipped;
    SlippedIsSlippage(f);
  }

  /** Taking an admitted fill leaves the totals alone. */
  lemma PositionsOnly(st: State, f: FillArtifact, ctx: Context)
    requires f.quantity > 0.0
    ensures forall liquidity :: Enter(st, f, liquidity, ctx).Next? ==>
              SameTotals(Enter(st, f, liquidity, ctx).state, st)
    ensures Exit(st, f, ctx).Next? ==> SameTotals(Exit(st, f, ctx).state, st)
  {
  }

  predicate SameTotals(a: State, b: State) {
    a.turnover == b.turnover && a.fees == b.fees && a.slippage == b.slippage && a.fills == b.fills
  }

  /** Whatever fills a replay accepts, its totals are their sums. */
  lemma {:induction false} ReplayTotals(st: State, fills: seq<FillArtifact>, ctx: Context)
    requires ReplayFrom(st, fills, ctx).Next?
    ensures var end := ReplayFrom(st, fills, ctx).state;
      && end.turnover == st.turnover + TotalNotional(fills)
      && end.fees == st.fees + TotalFees(fills)
      && end.slippage == st.slippage + TotalSlippage(fills)
      && |end.fills| == |st.fills| + |fills|
    decreases |fills|
  {
    hide ReplayOne, Amount, Slipped;
    if fills != [] {
      ReplayOneTotals(st, fills[0], ctx);
      ReplayTotals(ReplayOne(st, fills[0], ctx).state, fills[1..], ctx);
    }
  }

  function SellId(f: FillArtifact): seq<string> {
    if f.side == "buy" then [] else [f.fillId]
  }

  lemma ReplayOneTrades(st: State, f: FillArtifact, ctx: Context)
    requires ReplayOne(st, f, ctx).Next? && TradesInOrder(st.trades, ctx.trades)
    ensures TradesInOrder(ReplayOne(st, f, ctx).state.trades, ctx.trades)
    ensures ExitIds(ReplayOne(st, f, ctx).state.trades) == ExitIds(st.trades) + SellId(f)
  {
    assert Admit(st, f, ctx).state.trades == st.trades;
  }

  /** Whatever fills a replay accepts, its k-th closed trade is the k-th sell paired with the k-th
      recorded trade. */
  lemma {:induction false} ReplayPairsTrades(st: State, fills: seq<FillArtifact>, ctx: Context)
    requires ReplayFrom(st, fills, ctx).Next? && TradesInOrder(st.trades, ctx.trades)
    ensures var end := ReplayFrom(st, fills, ctx).state;
      TradesInOrder(end.trades, ctx.trades) && ExitIds(end.trades) == ExitIds(st.trades) + SellIds(fills)
    decreases |fills|
  {
    if fills != [] {
      ReplayOneTrades(st, fills[0], ctx);
      ReplayPairsTrades(ReplayOne(st, fills[0], ctx).state, fills[1..], ctx);
      Assoc(ExitIds(st.trades), SellId(fills[0]), SellIds(fills[1..]));
    }
  }

  // ---------- Evidence for the fills ----------

  datatype Log = Log(seen: set<string>, lastAt: int, orders: set<string>)

  function LogOf(st: State): Log {
    Log(st.seen, st.lastAt, st.filledOrders)
  }

  function NextLog(log: Log, f: FillArtifact, ctx: Context): Log {
    Log(log.seen + {f.fillId}, f.at, if ctx.policy.V4? then log.orders + {f.orderId} else log.orders)
  }

  /** What a single fill's evidence must be, given the orders filled before it. */
  predicate Supported(f: FillArtifact, orders: set<string>, ctx: Context) {
    && WellFormed(f)
    && FillBar(ctx, f).Some? && FillBar(ctx, f).value.volume > 0.0
    && (ctx.policy.V4? ==> ctx.policy.admits(orders, f, FillBar(ctx, f).value))
  }

  predicate Evidenced(log: Log, fills: seq<FillArtifact>, ctx: Context)
    decreases |fills|
  {
    fills == [] ||
    (var f := fills[0];
     && Supported(f, log.orders, ctx) && f.fillId !in log.seen && (log.lastAt != ZERO_INSTANT ==> f.at >= log.lastAt)
     && Evidenced(NextLog(log, f, ctx), fills[1..], ctx))
  }

  function FillIds(fills: seq<FillArtifact>): set<string> {
    set f | f in fills :: f.fillId
  }

  function OrderIdsOf(fills: seq<FillArtifact>): set<string> {
    set f | f in fills :: f.orderId
  }

  /** Unique fill ids, times that do not run back, and for each fill a traded bar, a positive
      reference price and, under v4, a binding to its order. */
  ghost predicate GoodEvidence(fills: seq<FillArtifact>, ctx: Context) {
    && (forall i, j :: 0 <= i < j < |fills| ==> fills[i].fillId != fills[j].fillId && fills[i].at <= fills[j].at)
    && (forall i :: 0 <= i < |fills| ==>
          Supported(fills[i], if ctx.policy.V4? then OrderIdsOf(fills[..i]) else {}, ctx))
  }

  function LogAt(fills: seq<FillArtifact>, k: nat, ctx: Context): Log
    requires k <= |fills|
  {
    Log(FillIds(fills[..k]), if k == 0 then ZERO_INSTANT else fills[k - 1].at,
        if ctx.policy.V4? then OrderIdsOf(fills[..k]) else {})
  }

  lemma {:induction false} GoodIsEvidenced(fills: seq<FillArtifact>, k: nat, ctx: Context)
    requires GoodEvidence(fills, ctx) && k <= |fills|
    ensures Evidenced(LogAt(fills, k, ctx), fills[k..], ctx)
    decreases |fills| - k
  {
    hide Supported, FillIds, OrderIdsOf;
    if k < |fills| {
      GoodIsEvidenced(fills, k + 1, ctx);
      GoodIsNext(fills, k, ctx);
      assert fills[k..][0] == fills[k] && fills[k..][1..] == fills[k + 1..];
    }
  }

  lemma GoodIsNext(fills: seq<FillArtifact>, k: nat, ctx: Context)
    requires GoodEvidence(fills, ctx) && k < |fills|
    ensures NextLog(LogAt(fills, k, ctx), fills[k], ctx) == LogAt(fills, k + 1, ctx)
    ensures var log := LogAt(fills, k, ctx);
      && Supported(fills[k], log.orders, ctx) && fills[k].fillId !in log.seen
      && (log.lastAt != ZERO_INSTANT ==> fills[k].at >= log.lastAt)
  {
    hide Supported;
    assert fills[..k + 1] == fills[..k] + [fills[k]];
    forall f | f in fills[..k] ensures f.fillId != fills[k].fillId {
      var i :| 0 <= i < k && fills[..k][i] == f;
    }
  }

  // ---------- Step by step ----------

  predicate SameHolding(p: Position, h: Holding) {
    h.quantity == p.size && h.entryPrice == p.entryPrice && h.entryFee == p.entryFee && h.entryAt == p.entryAt
  }

  /** The replay state mirrors the book. */
  ghost predicate Tracks(b: Book, st: State) {
    && st.cash == b.cash
    && st.positions.Keys == b.positions.Keys
    && (forall s :: s in b.positions ==> SameHolding(b.positions[s], st.positions[s]))
    && |st.trades| == |b.trades|
  }

  lemma NearSelf(x: real, near: NonNegative)
    ensures Near(x, x, near)
  {
    assert near * Max(1.0, Max(RealAbs(x), RealAbs(x))) >= 0.0;
  }

  lemma MergedTracks(p: Position, h: Holding, f: Fill, e: Event)
    requires SameHolding(p, h) && e.quantity == f.quantity && e.price == f.price && e.fee == f.fee
    requires e.quantity > 0.0
    ensures SameHolding(Averaged(p, f), Merged(h, Project(e)))
  {
    assert f.price * f.quantity == f.quantity * f.price;
  }

  lemma TradeTracks(p: Position, h: Holding, f: Fill, e: Event, near: NonNegative)
    requires SameHolding(p, h)
    requires e.quantity == f.quantity && e.price == f.price && e.fee == f.fee && e.symbol == f.symbol && e.at == f.at
    ensures TradeMatches(TradeOf(p, f), h, Project(e), near)
  {
    assert Pnl(h, Project(e)) == TradeOf(p, f).pnl;
    NearSelf(f.quantity, near);
    NearSelf(p.entryPrice, near);
    NearSelf(f.price, near);
    NearSelf(TradeOf(p, f).pnl, near);
  }

  lemma ReducedTracks(p: Position, h: Holding, q: real, size: Positive)
    requires SameHolding(p, h) && q < h.quantity && size == p.size - q
    ensures SameHolding(p.(size := size, entryFee := p.entryFee - ReleasedFee(p, q)), Reduced(h, q))
  {
  }

  lemma AdmittedCounts(st: State, f: FillArtifact, ctx: Context)
    requires Evidenced(LogOf(st), [f], ctx)
    ensures Admit(st, f, ctx) == Next(Count(st, f, FillBar(ctx, f).value, ctx))
  {
  }

  lemma EnterTracks(b: Book, st: State, a: Action, liquidity: real, ctx: Context)
    requires a.intent.side.Buy? && Tracks(b, st)
    requires CommitBuy(b, a).cash + ctx.ledger.cash >= 0.0
    ensures var r := Enter(st, Project(EventOf(a, CommitBuy(b, a).cash)), liquidity, ctx);
      r.Next? && Tracks(CommitBuy(b, a), r.state) && LogOf(r.state) == LogOf(st)
  {
    var s, after := a.fill.symbol, CommitBuy(b, a);
    var e := EventOf(a, after.cash);
    var f := Project(e);
    assert st.cash - (Notional(f) + f.fee) == after.cash;
    var end := Enter(st, f, liquidity, ctx).state;
    assert SameHolding(after.positions[s], end.positions[s]) by {
      if s in b.positions {
        MergedTracks(b.positions[s], st.positions[s], a.fill, e);
      }
    }
  }

  lemma BuyTracks(b: Book, st: State, a: Action, ctx: Context)
    requires a.intent.side.Buy? && Tracks(b, st)
    requires CommitBuy(b, a).cash + ctx.ledger.cash >= 0.0
    requires Evidenced(LogOf(st), [Project(EventOf(a, CommitBuy(b, a).cash))], ctx)
    ensures var f := Project(EventOf(a, CommitBuy(b, a).cash));
      && ReplayOne(st, f, ctx).Next?
      && Tracks(CommitBuy(b, a), ReplayOne(st, f, ctx).state)
      && LogOf(ReplayOne(st, f, ctx).state) == NextLog(LogOf(st), f, ctx)
  {
    var f := Project(EventOf(a, CommitBuy(b, a).cash));
    AdmittedCounts(st, f, ctx);
    var bar := FillBar(ctx, f).value;
    EnterTracks(b, Count(st, f, bar, ctx), a, Liquidity(bar, f), ctx);
  }

  lemma ExitTracks(b: Book, st: State, a: Action, ctx: Context)
    requires a.intent.side.Sell? && Tracks(b, st)
    requires Covers(b, a, ctx.ledger.size)
    requires |b.trades| < |ctx.trades| && ctx.trades[|b.trades|] == TradeOf(b.positions[a.fill.symbol], a.fill)
    ensures var after := CommitSell(b, a, ctx.ledger.size);
      var r := Exit(st, Project(EventOf(a, after.cash)), ctx);
      r.Next? && Tracks(after, r.state) && LogOf(r.state) == LogOf(st)
  {
    var after := CommitSell(b, a, ctx.ledger.size);
    var e := EventOf(a, after.cash);
    var p, h := b.positions[a.fill.symbol], st.positions[a.fill.symbol];
    assert SameHolding(p, h);
    assert st.cash + (Notional(Project(e)) - e.fee) == after.cash;
    TradeTracks(p, h, a.fill, e, ctx.near);
    if p.size - a.fill.quantity > ctx.ledger.size {
      ReducedTracks(p, h, a.fill.quantity, p.size - a.fill.quantity);
    }
  }

  lemma SellTracks(b: Book, st: State, a: Action, ctx: Context)
    requires a.intent.side.Sell? && Tracks(b, st)
    requires Covers(b, a, ctx.ledger.size)
    requires |b.trades| < |ctx.trades| && ctx.trades[|b.trades|] == TradeOf(b.positions[a.fill.symbol], a.fill)
    requires Evidenced(LogOf(st), [Project(EventOf(a, CommitSell(b, a, ctx.ledger.size).cash))], ctx)
    ensures var after := CommitSell(b, a, ctx.ledger.size);
      var f := Project(EventOf(a, after.cash));
      && ReplayOne(st, f, ctx).Next?
      && Tracks(after, ReplayOne(st, f, ctx).state)
      && LogOf(ReplayOne(st, f, ctx).state) == NextLog(LogOf(st), f, ctx)
  {
    var f := Project(EventOf(a, CommitSell(b, a, ctx.ledger.size).cash));
    AdmittedCounts(st, f, ctx);
    ExitTracks(b, Count(st, f, FillBar(ctx, f).value, ctx), a, ctx);
  }

  /** The replay refuses a sell that is not covered, whatever the ledger did with it. */
  lemma UncoveredIsRefused(b: Book, st: State, a: Action, ctx: Context)
    requires a.intent.side.Sell? && Tracks(b, st) && a.fill.symbol in b.positions && !Covers(b, a, ctx.ledger.size)
    requires Evidenced(LogOf(st), [Project(EventOf(a, CommitSell(b, a, ctx.ledger.size).cash))], ctx)
    ensures ReplayOne(st, Project(EventOf(a, CommitSell(b, a, ctx.ledger.size).cash)), ctx).Denied?
  {
    var f := Project(EventOf(a, CommitSell(b, a, ctx.ledger.size).cash));
    AdmittedCounts(st, f, ctx);
    assert SameHolding(b.positions[a.fill.symbol], st.positions[a.fill.symbol]);
    assert Exit(Count(st, f, FillBar(ctx, f).value, ctx), f, ctx).Denied?;
  }

  // ---------- Whole histories ----------

  lemma {:induction false} CommitExtends(b: Book, actions: seq<Action>, dust: NonNegative)
    requires Commit(b, actions, dust).Done?
    ensures b.trades <= Commit(b, actions, dust).book.trades
    ensures b.events <= Commit(b, actions, dust).book.events
    decreases |actions|
  {
    if actions != [] {
      CommitExtends(CommitOne(b, actions[0], dust).book, actions[1..], dust);
    }
  }

  /** The events committed after b. */
  function NewFills(b: Book, end: Book): seq<FillArtifact>
    requires b.events <= end.events
  {
    ProjectAll(end.events[|b.events|..])
  }

  lemma NewFillsStep(b: Book, next: Book, end: Book, e: Event)
    requires next.events == b.events + [e] && next.events <= end.events
    ensures NewFills(b, end) == [Project(e)] + NewFills(next, end)
    ensures NewFills(b, end)[1..] == NewFills(next, end)
  {
    assert end.events[|b.events|..] == [e] + end.events[|next.events|..];
  }

  /** One committed action: the replay takes it if it is covered, and refuses it otherwise. */
  lemma StepTracks(b: Book, st: State, a: Action, ctx: Context)
    requires Tracks(b, st) && CommitOne(b, a, ctx.ledger.size).Done?
    requires a.intent.side.Buy? ==> CommitBuy(b, a).cash + ctx.ledger.cash >= 0.0
    requires CommitOne(b, a, ctx.ledger.size).book.trades <= ctx.trades
    requires Evidenced(LogOf(st), [Project(EventOf(a, CommitOne(b, a, ctx.ledger.size).book.cash))], ctx)
    ensures var next := CommitOne(b, a, ctx.ledger.size).book;
      var r := ReplayOne(st, Project(EventOf(a, next.cash)), ctx);
      && (r.Next? <==> Covers(b, a, ctx.ledger.size))
      && (r.Next? ==>
            Tracks(next, r.state) && LogOf(r.state) == NextLog(LogOf(st), Project(EventOf(a, next.cash)), ctx))
  {
    if a.intent.side.Buy? {
      BuyTracks(b, st, a, ctx);
    } else if Covers(b, a, ctx.ledger.size) {
      var next := CommitOne(b, a, ctx.ledger.size).book;
      assert next.trades[|b.trades|] == ctx.trades[|b.trades|];
      SellTracks(b, st, a, ctx);
    } else {
      UncoveredIsRefused(b, st, a, ctx);
    }
  }

  lemma FirstEvidenced(log: Log, fills: seq<FillArtifact>, ctx: Context)
    requires fills != [] && Evidenced(log, fills, ctx)
    ensures Evidenced(log, [fills[0]], ctx) && Evidenced(NextLog(log, fills[0], ctx), fills[1..], ctx)
  {
    assert [fills[0]][1..] == [];
  }

  lemma CommitStep(b: Book, actions: seq<Action>, dust: NonNegative)
    requires actions != [] && Commit(b, actions, dust).Done?
    ensures var next, end := CommitOne(b, actions[0], dust).book, Commit(b, actions, dust).book;
      && Commit(next, actions[1..], dust) == Done(end)
      && next.trades <= end.trades && b.events <= next.events <= end.events
      && NewFills(b, end) == [Project(EventOf(actions[0], next.cash))] + NewFills(next, end)
  {
    var next := CommitOne(b, actions[0], dust).book;
    CommitExtends(next, actions[1..], dust);
    NewFillsStep(b, next, Commit(b, actions, dust).book, EventOf(actions[0], next.cash));
  }

  /** From any mirrored state, the replay accepts the artifacts of a commit exactly when every sell of it
      was covered, and then ends mirrored. */
  lemma {:induction false} ReplayFollows(b: Book, st: State, actions: seq<Action>, ctx: Context, end: Book)
    requires Tracks(b, st) && BuysCovered(b, actions, ctx.ledger)
    requires Commit(b, actions, ctx.ledger.size) == Done(end) && b.events <= end.events && ctx.trades == end.trades
    requires Evidenced(LogOf(st), NewFills(b, end), ctx)
    ensures ReplayFrom(st, NewFills(b, end), ctx).Next? <==> SellsCovered(b, actions, ctx.ledger.size)
    ensures ReplayFrom(st, NewFills(b, end), ctx).Next? ==> Tracks(end, ReplayFrom(st, NewFills(b, end), ctx).state)
    decreases |actions|
  {
    if actions == [] {
      assert NewFills(b, end) == [];
    } else {
      var next := CommitOne(b, actions[0], ctx.ledger.size).book;
      var fills := NewFills(b, end);
      CommitStep(b, actions, ctx.ledger.size);
      assert fills[0] == Project(EventOf(actions[0], next.cash)) && fills[1..] == NewFills(next, end);
      FirstEvidenced(LogOf(st), fills, ctx);
      StepTracks(b, st, actions[0], ctx);
      SellsStep(b, actions, ctx.ledger.size);
      CoveredMeets(b, actions, ctx.ledger.size);
      if ReplayOne(st, fills[0], ctx).Next? {
        ReplayFollows(next, ReplayOne(st, fills[0], ctx).state, actions[1..], ctx, end);
      }
    }
  }

  // ---------- A rename-free history is one long commit ----------

  ghost predicate NoRenames(steps: seq<Step>) {
    forall i :: 0 <= i < |steps| ==> steps[i].Submit?
  }

  lemma {:induction false} CommitAppend(b: Book, first: seq<Action>, second: seq<Action>, tol: Tolerances)
    requires Commit(b, first, tol.size).Done? && BuysCovered(b, first, tol)
    requires BuysCovered(Commit(b, first, tol.size).book, second, tol)
    ensures BuysCovered(b, first + second, tol)
    ensures Commit(b, first + second, tol.size) == Commit(Commit(b, first, tol.size).book, second, tol.size)
    ensures SellsCovered(b, first + second, tol.size) <==>
            SellsCovered(b, first, tol.size) && SellsCovered(Commit(b, first, tol.size).book, second, tol.size)
    decreases |first|
  {
    if first == [] {
      assert first + second == second;
    } else {
      assert (first + second)[0] == first[0] && (first + second)[1..] == first[1..] + second;
      CommitAppend(CommitOne(b, first[0], tol.size).book, first[1..], second, tol);
      SellsStep(b, first, tol.size);
      SellsStep(b, first + second, tol.size);
      CoveredMeets(b, first, tol.size);
      CoveredMeets(b, first + second, tol.size);
    }
  }

  lemma {:induction false} RunIsOneCommit(b: Book, steps: seq<Step>, env: Setting) returns (actions: seq<Action>)
    requires LegalRun(b, steps, env) && NoRenames(steps)
    ensures Commit(b, actions, env.tol.size) == Done(Play(b, steps, env)) && BuysCovered(b, actions, env.tol)
    ensures SellsCovered(b, actions, env.tol.size) <==> CoveredRun(b, steps, env)
    decreases |steps|
  {
    if steps == [] {
      actions := [];
    } else {
      SubmitCommits(b, steps[0], env);
      var second := RunIsOneCommit(Advance(b, steps[0], env), steps[1..], env);
      CommitAppend(b, StepActions(b, steps[0], env), second, env.tol);
      actions := StepActions(b, steps[0], env) + second;
    }
  }

  /** The totals the program reports for a ledger. */
  function MetricsOf(b: Book, capital: real): Metrics
    requires capital != 0.0
  {
    var fills := ProjectAll(b.events);
    Metrics(TotalNotional(fills) / capital, TotalNotional(fills), TotalFees(fills), TotalSlippage(fills),
            |b.events|, |b.trades|)
  }

  /** Refinement: for every rename-free history the program survives, with good evidence, the independent
      replay of its artifacts accepts exactly when every sell was covered by what the ledger held, up to
      dust. It then reports the ledger's cash and positions, and pairs the k-th sell with the k-th
      trade. Without a dust threshold it always accepts. */
  lemma ReplayRefinesLedger(capital: real, steps: seq<Step>, env: Setting, ctx: Context)
    requires capital != 0.0 && LegalRun(OpeningBook(capital), steps, env) && NoRenames(steps)
    requires ctx.ledger == env.tol
    requires ctx.trades == Play(OpeningBook(capital), steps, env).trades
    requires GoodEvidence(ProjectAll(Play(OpeningBook(capital), steps, env).events), ctx)
    ensures var b := Play(OpeningBook(capital), steps, env);
      var fills := ProjectAll(b.events);
      var r := ReplayAll(fills, MetricsOf(b, capital), capital, ctx);
      && (r.Next? <==> CoveredRun(OpeningBook(capital), steps, env))
      && (env.tol.size == 0.0 ==> r.Next?)
      && (r.Next? ==>
            && Tracks(b, r.state)
            && ExitIds(r.state.trades) == SellIds(fills)
            && TradesInOrder(r.state.trades, b.trades))
  {
    var start, b := OpeningBook(capital), Play(OpeningBook(capital), steps, env);
    var actions := RunIsOneCommit(start, steps, env);
    var fills := ProjectAll(b.events);
    assert b.events[0..] == b.events;
    GoodIsEvidenced(fills, 0, ctx);
    assert fills[0..] == fills && fills[..0] == [];
    assert LogAt(fills, 0, ctx) == LogOf(Opening(capital));
    ReplayFollows(start, Opening(capital), actions, ctx, b);
    if ReplayFrom(Opening(capital), fills, ctx).Next? {
      AcceptedReplay(capital, b, ctx);
    }
    if env.tol.size == 0.0 {
      ExactRunIsCovered(start, steps, env);
    }
  }

  /** A replay of a ledger's artifacts that takes every fill also passes the closing comparisons. */
  lemma AcceptedReplay(capital: real, b: Book, ctx: Context)
    requires capital != 0.0 && ctx.trades == b.trades
    requires ReplayFrom(Opening(capital), ProjectAll(b.events), ctx).Next?
    requires Tracks(b, ReplayFrom(Opening(capital), ProjectAll(b.events), ctx).state)
    ensures var fills := ProjectAll(b.events);
      var st := ReplayFrom(Opening(capital), fills, ctx).state;
      && ReplayAll(fills, MetricsOf(b, capital), capital, ctx) == Next(st)
      && ExitIds(st.trades) == SellIds(fills)
      && TradesInOrder(st.trades, b.trades)
  {
    var fills := ProjectAll(b.events);
    ReplayTotals(Opening(capital), fills, ctx);
    ReplayPairsTrades(Opening(capital), fills, ctx);
    assert ExitIds([]) + SellIds(fills) == SellIds(fills);
    NearTotals(TotalNotional(fills), TotalFees(fills), TotalSlippage(fills), capital, ctx.near);
  }

  lemma NearTotals(turnover: real, fees: real, slippage: real, capital: real, near: NonNegative)
    requires capital != 0.0
    ensures Near(turnover / capital, turnover / capital, near) && Near(turnover, turnover, near)
    ensures Near(fees, fees, near) && Near(slippage, slippage, near)
  {
    NearSelf(turnover / capital, near);
    NearSelf(turnover, near);
    NearSelf(fees, near);
    NearSelf(slippage, near);
  }
}
