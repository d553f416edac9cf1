/** What an accepted replay hands on, worked out from the fills' own fields and not from the replay's
    holdings: a primitive for each fill, and for each closed trade the entries behind it and its cost. */
module Primitives {
  import opened MarketData
  import opened RealMath
  import opened Refinement
  import opened Replay
  import Ledger

  // ---------- What is carried of a symbol ----------

  /** What is open of a symbol: quantity, the fees and slippage still to be placed, and the entries. */
  datatype Carried = Carried(quantity: real, fee: real, slippage: real, openedAt: int, liquidity: real,
                             fillIds: seq<string>)

  const NOTHING := Carried(0.0, 0.0, 0.0, ZERO_INSTANT, 0.0, [])

  /** What could be traded on a fill's bar, at the fill's price. */
  function Tradable(f: FillArtifact, ctx: Context): real {
    var bar := FillBar(ctx, f);
    if bar.Some? then bar.value.volume * f.price else 0.0
  }

  /** The part of an amount that goes with quantity out of what is carried. */
  function PartOf(amount: real, quantity: real, carried: real): real {
    if carried == 0.0 then 0.0 else amount * quantity / carried
  }

  function Bought(c: Carried, f: FillArtifact, ctx: Context): Carried {
    if c.fillIds == [] then Carried(f.quantity, f.fee, Slipped(f), f.at, Tradable(f, ctx), [f.fillId])
    else c.(quantity := c.quantity + f.quantity, fee := c.fee + f.fee, slippage := c.slippage + Slipped(f),
            fillIds := c.fillIds + [f.fillId])
  }

  function Sold(c: Carried, f: FillArtifact, dust: real): Carried {
    if c.quantity - f.quantity <= dust then NOTHING
    else c.(quantity := c.quantity - f.quantity, fee := c.fee - PartOf(c.fee, f.quantity, c.quantity),
            slippage := c.slippage - PartOf(c.slippage, f.quantity, c.quantity))
  }

  /** What is carried of a symbol after some fills. */
  function CarriedAfter(fills: seq<FillArtifact>, symbol: string, ctx: Context): Carried {
    if fills == [] then NOTHING
    else
      var before, f := CarriedAfter(fills[..|fills| - 1], symbol, ctx), fills[|fills| - 1];
      if f.symbol != symbol then before
      else if f.side == "buy" then Bought(before, f, ctx)
      else Sold(before, f, ctx.ledger.size)
  }

  function SellCount(fills: seq<FillArtifact>): nat {
    if fills == [] then 0
    else SellCount(fills[..|fills| - 1]) + if fills[|fills| - 1].side == "buy" then 0 else 1
  }

  // ---------- What each primitive is ----------

  /** A fill primitive repeats its fill, with its notional and what its bar could have traded. */
  predicate FillCarries(p: FillPrimitive, f: FillArtifact, ctx: Context) {
    && p.id == f.fillId && p.orderId == (if ctx.policy.Plain? then "" else f.orderId)
    && p.symbol == f.symbol && p.side == f.side && p.at == f.at
    && p.notional == f.quantity * f.price && p.liquidity == Tradable(f, ctx) && p.notional > 0.0 && p.liquidity > 0.0
  }

  /** What a sell costs: its share of the carried fees and slippage, its own fee and its own slippage. */
  function CostFrom(c: Carried, f: FillArtifact): real {
    PartOf(c.fee, f.quantity, c.quantity) + f.fee + PartOf(c.slippage, f.quantity, c.quantity) + Slipped(f)
  }

  /** A trade primitive joins the recorded trade with the entries carried up to its sell. */
  predicate TradeCarries(p: TradePrimitive, c: Carried, t: Ledger.Trade, f: FillArtifact, near: real) {
    && c.quantity > 0.0 && p.entryFillIds == c.fillIds && p.exitFillId == f.fillId
    && p.symbol == t.symbol == f.symbol && p.openedAt == t.entryAt == c.openedAt && p.closedAt == t.exitAt == f.at
    && p.notional == Apart(t.entryPrice * t.size, 0.0) && p.liquidity == c.liquidity
    && p.cost == CostFrom(c, f) && p.net == t.pnl && p.gross == t.pnl + p.cost
    && Near(t.size, f.quantity, near) && Near(t.exitPrice, f.price, near)
  }

  ghost predicate FillsCarried(fills: seq<FillArtifact>, primitives: seq<FillPrimitive>, ctx: Context) {
    && |primitives| == |fills|
    && forall i :: 0 <= i < |fills| ==> FillCarries(primitives[i], fills[i], ctx)
  }

  /** Sell i of the fills closes the trade it comes to in turn. */
  ghost predicate SellCarried(fills: seq<FillArtifact>, i: nat, trades: seq<TradePrimitive>, ctx: Context)
    requires i < |fills|
  {
    var k := SellCount(fills[..i]);
    && k < |trades| && k < |ctx.trades|
    && TradeCarries(trades[k], CarriedAfter(fills[..i], fills[i].symbol, ctx), ctx.trades[k], fills[i], ctx.near)
  }

  ghost predicate TradesCarried(fills: seq<FillArtifact>, trades: seq<TradePrimitive>, ctx: Context) {
    && |trades| == SellCount(fills)
    && forall i :: 0 <= i < |fills| && fills[i].side != "buy" ==> SellCarried(fills, i, trades, ctx)
  }

  // ---------- Every accepted replay ----------

  predicate HoldsCarried(positions: map<string, Holding>, symbol: string, c: Carried) {
    && (symbol in positions <==> c.fillIds != [])
    && (symbol in positions ==>
          var h := positions[symbol];
          c == Carried(h.quantity, h.entryFee, h.entrySlippage, h.entryAt, h.entryLiquidity, h.entryFillIds))
    && (symbol !in positions ==> c == NOTHING)
  }

  ghost predicate AllCarried(st: State, fills: seq<FillArtifact>, ctx: Context) {
    forall s :: HoldsCarried(st.positions, s, CarriedAfter(fills, s, ctx))
  }

  lemma CarriedMore(fills: seq<FillArtifact>, f: FillArtifact, symbol: string, ctx: Context)
    ensures var c := CarriedAfter(fills, symbol, ctx);
      CarriedAfter(fills + [f], symbol, ctx)
      == if f.symbol != symbol then c else if f.side == "buy" then Bought(c, f, ctx) else Sold(c, f, ctx.ledger.size)
    ensures SellCount(fills + [f]) == SellCount(fills) + if f.side == "buy" then 0 else 1
  {
    assert (fills + [f])[..|fills|] == fills;
  }

  lemma LiquidityIsTradable(f: FillArtifact, ctx: Context)
    requires FillBar(ctx, f).Some?
    ensures Liquidity(FillBar(ctx, f).value, f) == Tradable(f, ctx)
  {
  }

  lemma BuyCarries(st: State, f: FillArtifact, ctx: Context, c: Carried)
    requires f.quantity > 0.0 && HoldsCarried(st.positions, f.symbol, c)
    requires Enter(st, f, Tradable(f, ctx), ctx).Next?
    ensures var next := Enter(st, f, Tradable(f, ctx), ctx).state;
      && HoldsCarried(next.positions, f.symbol, Bought(c, f, ctx))
      && next.trades == st.trades && next.fills == st.fills
      && forall s :: s != f.symbol ==>
           (s in next.positions <==> s in st.positions) && (s in st.positions ==> next.positions[s] == st.positions[s])
  {
    SlippedIsSlippage(f);
  }

  lemma SellCarries(st: State, f: FillArtifact, ctx: Context, c: Carried)
    requires HoldsCarried(st.positions, f.symbol, c) && Exit(st, f, ctx).Next?
    ensures var next := Exit(st, f, ctx).state;
      && |st.trades| < |ctx.trades| && next.fills == st.fills
      && HoldsCarried(next.positions, f.symbol, Sold(c, f, ctx.ledger.size))
      && |next.trades| == |st.trades| + 1 && next.trades[..|st.trades|] == st.trades
      && TradeCarries(next.trades[|st.trades|], c, ctx.trades[|st.trades|], f, ctx.near)
      && forall s :: s != f.symbol ==>
           (s in next.positions <==> s in st.positions) && (s in st.positions ==> next.positions[s] == st.positions[s])
  {
    SlippedIsSlippage(f);
  }

  /** Admission adds one fill primitive and leaves the rest alone. */
  lemma AdmitCarries(st: State, f: FillArtifact, ctx: Context)
    requires Admit(st, f, ctx).Next?
    ensures var next := Admit(st, f, ctx).state;
      && next.positions == st.positions && next.trades == st.trades
      && |next.fills| == |st.fills| + 1 && next.fills[..|st.fills|] == st.fills
      && FillCarries(next.fills[|st.fills|], f, ctx) && f.quantity > 0.0
      && FillBar(ctx, f).Some?
  {
    Positive(f.quantity, f.price);
    SlippedIsSlippage(f);
    Positive(FillBar(ctx, f).value.volume, f.price);
  }

  lemma Positive(a: real, b: real)
    requires a > 0.0 && b > 0.0
    ensures a * b > 0.0
  {
  }

  lemma FillsMore(fills: seq<FillArtifact>, f: FillArtifact, primitives: seq<FillPrimitive>, p: FillPrimitive,
                  ctx: Context)
    requires FillsCarried(fills, primitives, ctx) && FillCarries(p, f, ctx)
    ensures FillsCarried(fills + [f], primitives + [p], ctx)
  {
  }

  lemma TradesStay(fills: seq<FillArtifact>, f: FillArtifact, i: nat, trades: seq<TradePrimitive>,
                   more: seq<TradePrimitive>, ctx: Context)
    requires i < |fills| && SellCarried(fills, i, trades, ctx)
    ensures SellCarried(fills + [f], i, trades + more, ctx)
  {
    assert (fills + [f])[..i] == fills[..i];
  }

  lemma TradesMore(fills: seq<FillArtifact>, f: FillArtifact, trades: seq<TradePrimitive>, more: seq<TradePrimitive>,
                   ctx: Context)
    requires TradesCarried(fills, trades, ctx)
    requires if f.side == "buy" then more == [] else
      && |more| == 1 && |trades| < |ctx.trades|
      && TradeCarries(more[0], CarriedAfter(fills, f.symbol, ctx), ctx.trades[|trades|], f, ctx.near)
    ensures TradesCarried(fills + [f], trades + more, ctx)
  {
    var longer := fills + [f];
    CarriedMore(fills, f, f.symbol, ctx);
    assert longer[..|fills|] == fills && longer[|fills|] == f;
    forall i | 0 <= i < |longer| && longer[i].side != "buy" ensures SellCarried(longer, i, trades + more, ctx) {
      if i < |fills| {
        TradesStay(fills, f, i, trades, more, ctx);
      }
    }
  }

  ghost predicate HandsOn(st: State, fills: seq<FillArtifact>, ctx: Context) {
    AllCarried(st, fills, ctx) && FillsCarried(fills, st.fills, ctx) && TradesCarried(fills, st.trades, ctx)
  }

  lemma PositionsMore(before: map<string, Holding>, after: map<string, Holding>, fills: seq<FillArtifact>,
                      f: FillArtifact, ctx: Context)
    requires forall s :: HoldsCarried(before, s, CarriedAfter(fills, s, ctx))
    requires forall s :: s != f.symbol ==>
      (s in after <==> s in before) && (s in before ==> after[s] == before[s])
    requires var c := CarriedAfter(fills, f.symbol, ctx);
      HoldsCarried(after, f.symbol, if f.side == "buy" then Bought(c, f, ctx) else Sold(c, f, ctx.ledger.size))
    ensures forall s :: HoldsCarried(after, s, CarriedAfter(fills + [f], s, ctx))
  {
    hide CarriedAfter, Bought, Sold;
    forall s ensures HoldsCarried(after, s, CarriedAfter(fills + [f], s, ctx)) {
      CarriedMore(fills, f, s, ctx);
      assert HoldsCarried(before, s, CarriedAfter(fills, s, ctx));
    }
  }

  lemma StepHandsOn(st: State, fills: seq<FillArtifact>, f: FillArtifact, ctx: Context)
    requires HandsOn(st, fills, ctx) && ReplayOne(st, f, ctx).Next?
    ensures HandsOn(ReplayOne(st, f, ctx).state, fills + [f], ctx)
  {
    hide CarriedAfter, Bought, Sold, Admit, Enter, Exit, FillCarries, TradeCarries, HoldsCarried, Tradable;
    var counted, next := Admit(st, f, ctx).state, ReplayOne(st, f, ctx).state;
    var c := CarriedAfter(fills, f.symbol, ctx);
    AdmitCarries(st, f, ctx);
    LiquidityIsTradable(f, ctx);
    assert HoldsCarried(st.positions, f.symbol, c);
    if f.side == "buy" {
      BuyCarries(counted, f, ctx, c);
    } else {
      SellCarries(counted, f, ctx, c);
    }
    PositionsMore(st.positions, next.positions, fills, f, ctx);
    FillsMore(fills, f, st.fills, next.fills[|st.fills|], ctx);
    TradesMore(fills, f, st.trades, next.trades[|st.trades|..], ctx);
    assert next.fills == st.fills + [next.fills[|st.fills|]];
    assert next.trades == st.trades + next.trades[|st.trades|..];
  }

  lemma {:induction false} ReplayHandsOn(st: State, done: seq<FillArtifact>, rest: seq<FillArtifact>, ctx: Context)
    requires HandsOn(st, done, ctx) && ReplayFrom(st, rest, ctx).Next?
    ensures HandsOn(ReplayFrom(st, rest, ctx).state, done + rest, ctx)
    decreases |rest|
  {
    hide HandsOn, ReplayOne;
    if rest == [] {
      assert done + rest == done;
    } else {
      StepHandsOn(st, done, rest[0], ctx);
      ReplayHandsOn(ReplayOne(st, rest[0], ctx).state, done + [rest[0]], rest[1..], ctx);
      assert done + [rest[0]] + rest[1..] == done + rest;
    }
  }

  /** Whatever fills a replay accepts, each fill primitive repeats its fill, and each trade primitive has the
      entries carried up to its sell and a cost worked out from the fills' quantities, prices and fees. */
  lemma AcceptedReplayHandsOn(fills: seq<FillArtifact>, metrics: Metrics, capital: real, ctx: Context)
    requires capital != 0.0 && ReplayAll(fills, metrics, capital, ctx).Next?
    ensures var st := ReplayAll(fills, metrics, capital, ctx).state;
      && FillsCarried(fills, st.fills, ctx) && TradesCarried(fills, st.trades, ctx) && AllCarried(st, fills, ctx)
      && metrics.fillCount == |fills| && metrics.tradeCount == SellCount(fills) == |ctx.trades|
  {
    hide CarriedAfter, ReplayFrom, MetricsAgree;
    assert AllCarried(Opening(capital), [], ctx) by {
      NothingCarried(ctx);
    }
    assert SellCount([]) == 0;
    ReplayHandsOn(Opening(capital), [], fills, ctx);
    assert [] + fills == fills;
  }

  lemma NothingCarried(ctx: Context)
    ensures forall s :: CarriedAfter([], s, ctx) == NOTHING
  {
  }

  /** And its reported totals are near the sums over the fills. */
  lemma AcceptedMetricsAreNear(fills: seq<FillArtifact>, metrics: Metrics, capital: real, ctx: Context)
    requires capital != 0.0 && ReplayAll(fills, metrics, capital, ctx).Next?
    ensures Near(TotalNotional(fills), metrics.turnover, ctx.near)
    ensures Near(TotalNotional(fills) / capital, metrics.turnoverRatio, ctx.near)
    ensures Near(TotalFees(fills), metrics.fees, ctx.near)
    ensures Near(TotalSlippage(fills), metrics.slippage, ctx.near)
  {
    ReplayTotals(Opening(capital), fills, ctx);
  }

  /** A fill that can be counted: named, on one side, with positive figures and no negative fee, on a bar that
      opens or closes with it and traded. */
  predicate SoundFill(f: FillArtifact, ctx: Context) {
    && f.fillId != "" && (f.side == "buy" || f.side == "sell") && f.legible
    && f.quantity > 0.0 && f.price > 0.0 && f.reference > 0.0 && f.fee >= 0.0
    && var opensAt := if ctx.policy.V4? then f.at - 60_000 * NS_PER_MS + NS_PER_MS else f.at;
    && var bar := BarAt(MarketData.Get(ctx.execution, f.symbol), opensAt);
    && bar.Some? && bar.value.volume > 0.0
  }

  /** All sound, no id twice or among those seen, and times that do not run back; the program takes a zero
      time for none. */
  ghost predicate AllSound(fills: seq<FillArtifact>, seen: set<string>, lastAt: int, ctx: Context) {
    && (forall i :: 0 <= i < |fills| ==> SoundFill(fills[i], ctx) && fills[i].fillId !in seen)
    && (forall i, j :: 0 <= i < j < |fills| ==> fills[i].fillId != fills[j].fillId)
    && (forall i, j :: 0 <= i < j < |fills| && j == i + 1 && fills[i].at != ZERO_INSTANT ==>
          fills[i].at <= fills[j].at)
    && (fills != [] && lastAt != ZERO_INSTANT ==> lastAt <= fills[0].at)
  }

  lemma SoundMore(f: FillArtifact, rest: seq<FillArtifact>, seen: set<string>, lastAt: int, ctx: Context)
    requires SoundFill(f, ctx) && f.fillId !in seen && (lastAt != ZERO_INSTANT ==> lastAt <= f.at)
    requires AllSound(rest, seen + {f.fillId}, f.at, ctx)
    ensures AllSound([f] + rest, seen, lastAt, ctx)
  {
    hide SoundFill;
    var fills := [f] + rest;
    assert fills[0] == f && forall i :: 1 <= i < |fills| ==> fills[i] == rest[i - 1];
    forall i, j | 0 <= i < j < |fills| ensures fills[i].fillId != fills[j].fillId {
      assert fills[j] == rest[j - 1];
      assert i > 0 ==> fills[i] == rest[i - 1];
    }
  }

  /** Whatever fills a replay accepts are sound, named once, and in order. */
  lemma {:induction false} AcceptedAreSound(st: State, fills: seq<FillArtifact>, ctx: Context)
    requires ReplayFrom(st, fills, ctx).Next?
    ensures AllSound(fills, st.seen, st.lastAt, ctx)
    decreases |fills|
  {
    hide ReplayOne, SoundFill;
    if fills != [] {
      SoundStep(st, fills[0], ctx);
      AcceptedAreSound(ReplayOne(st, fills[0], ctx).state, fills[1..], ctx);
      SoundMore(fills[0], fills[1..], st.seen, st.lastAt, ctx);
      assert fills == [fills[0]] + fills[1..];
    }
  }

  lemma SoundStep(st: State, f: FillArtifact, ctx: Context)
    requires ReplayOne(st, f, ctx).Next?
    ensures SoundFill(f, ctx) && f.fillId !in st.seen && (st.lastAt != ZERO_INSTANT ==> st.lastAt <= f.at)
    ensures var next := ReplayOne(st, f, ctx).state; next.seen == st.seen + {f.fillId} && next.lastAt == f.at
  {
  }

  // ---------- The ledger's own report ----------

  function EventFees(events: seq<Ledger.Event>): real {
    if events == [] then 0.0 else events[0].fee + EventFees(events[1..])
  }

  function EventTurnover(events: seq<Ledger.Event>): real {
    if events == [] then 0.0 else events[0].quantity * events[0].price + EventTurnover(events[1..])
  }

  function EventSlippage(events: seq<Ledger.Event>): real {
    if events == [] then 0.0
    else events[0].quantity * Apart(events[0].price, events[0].reference) + EventSlippage(events[1..])
  }

  lemma {:induction false} ProjectedTotals(events: seq<Ledger.Event>)
    ensures TotalNotional(ProjectAll(events)) == EventTurnover(events)
    ensures TotalFees(ProjectAll(events)) == EventFees(events)
    ensures TotalSlippage(ProjectAll(events)) == EventSlippage(events)
  {
    if events != [] {
      assert ProjectAll(events)[1..] == ProjectAll(events[1..]);
      ProjectedTotals(events[1..]);
    }
  }

  /** The metrics reported for a ledger are sums over its events, from their own fields. */
  lemma MetricsAreEventSums(b: Ledger.Book, capital: real)
    requires capital != 0.0
    ensures MetricsOf(b, capital)
         == Metrics(EventTurnover(b.events) / capital, EventTurnover(b.events), EventFees(b.events),
                    EventSlippage(b.events), |b.events|, |b.trades|)
  {
    ProjectedTotals(b.events);
  }
}
