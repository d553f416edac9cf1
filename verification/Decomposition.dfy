/** What the two audits together say about profit: whenever the fill replay and the closing-inventory
    audit both accept, final equity is starting capital plus realised and unrealised profit, and all
    fees and slippage are either in a closed trade's cost or still on an open position. The slacks
    the program allows leave a gap that is computed exactly here, and bounded. */
module Decomposition {
  import opened RealMath
  import opened FiniteSums
  import opened Ledger
  import opened MarketData
  import opened Replay
  import opened Residual
  import Refinement

  // ---------- The gap of one fill ----------

  function HoldingCost(s: string, h: Holding): real {
    h.quantity * h.entryPrice + h.entryFee
  }

  function EntryCost(s: string, h: Holding): real {
    h.entryFee + h.entrySlippage
  }

  function PerUnit(amount: real, held: Positive): real {
    amount / held
  }

  /** What a closing sell leaves over; negative if it sold slightly too much. */
  function Remainder(h: Holding, f: FillArtifact): real {
    h.quantity - f.quantity
  }

  predicate ClosesHolding(st: State, f: FillArtifact, ctx: Context) {
    f.symbol in st.positions && Remainder(st.positions[f.symbol], f) <= ctx.ledger.size
  }

  /** Cost dropped with a deleted remainder, plus what the booked profit overstates. */
  function ProfitGap(st: State, f: FillArtifact, ctx: Context): real {
    if f.side == "buy" || f.symbol !in st.positions || |st.trades| >= |ctx.trades| then 0.0
    else
      var h := st.positions[f.symbol];
      var dropped :=
        if ClosesHolding(st, f, ctx) then Times(Remainder(h, f), h.entryPrice + PerUnit(h.entryFee, h.quantity))
        else 0.0;
      dropped + (ctx.trades[|st.trades|].pnl - Pnl(h, f))
  }

  /** Entry fees and slippage dropped with a deleted remainder. */
  function CostGap(st: State, f: FillArtifact, ctx: Context): real {
    if f.side == "buy" || !ClosesHolding(st, f, ctx) then 0.0
    else
      var h := st.positions[f.symbol];
      Times(Remainder(h, f), PerUnit(h.entryFee + h.entrySlippage, h.quantity))
  }

  // ---------- What one accepted fill does ----------

  function TotalNet(trades: seq<TradePrimitive>): real {
    if trades == [] then 0.0 else TotalNet(trades[..|trades| - 1]) + trades[|trades| - 1].net
  }

  function TotalCost(trades: seq<TradePrimitive>): real {
    if trades == [] then 0.0 else TotalCost(trades[..|trades| - 1]) + trades[|trades| - 1].cost
  }

  /** Cash and the cost of holdings, less the profit booked. */
  ghost function Stake(st: State): real {
    st.cash + SumOver(st.positions, HoldingCost) - TotalNet(st.trades)
  }

  /** Fees and slippage not yet found in a closed trade or an open holding. */
  ghost function Unplaced(st: State): real {
    st.fees + st.slippage - TotalCost(st.trades) - SumOver(st.positions, EntryCost)
  }

  lemma MergedCost(h: Holding, f: FillArtifact, s: string)
    requires f.quantity > 0.0
    ensures HoldingCost(s, Merged(h, f)) == HoldingCost(s, h) + Notional(f) + f.fee
    ensures EntryCost(s, Merged(h, f)) == EntryCost(s, h) + f.fee + SlippageOf(f)
  {
    Cancel(h.entryPrice * h.quantity + Notional(f), h.quantity + f.quantity);
  }

  /** A state that differs by one holding and by amounts of cash, fees and slippage. */
  ghost predicate Puts(st: State, next: State, s: string, h: Holding, cash: real, costs: real) {
    && next.cash == st.cash + cash && next.fees + next.slippage == st.fees + st.slippage + costs
    && next.trades == st.trades && next.positions == st.positions[s := h]
  }

  lemma PutMoves(st: State, next: State, s: string, h: Holding, cash: real, costs: real, basis: real)
    requires Puts(st, next, s, h, cash, costs)
    requires HoldingCost(s, h) == (if s in st.positions then HoldingCost(s, st.positions[s]) else 0.0) + basis
    ensures Stake(next) == Stake(st) + cash + basis
  {
    SumPut(st.positions, HoldingCost, s, h);
  }

  lemma PutPlaces(st: State, next: State, s: string, h: Holding, cash: real, costs: real, placed: real)
    requires Puts(st, next, s, h, cash, costs)
    requires EntryCost(s, h) == (if s in st.positions then EntryCost(s, st.positions[s]) else 0.0) + placed
    ensures Unplaced(next) == Unplaced(st) + costs - placed
  {
    SumPut(st.positions, EntryCost, s, h);
  }

  lemma EnterPuts(st: State, f: FillArtifact, liquidity: real, ctx: Context)
    requires f.quantity > 0.0 && Enter(st, f, liquidity, ctx).Next?
    ensures var next := Enter(st, f, liquidity, ctx).state;
      && f.symbol in next.positions
      && Puts(st, next, f.symbol, next.positions[f.symbol], -(Notional(f) + f.fee), 0.0)
      && next.positions[f.symbol] ==
           if f.symbol in st.positions then Merged(st.positions[f.symbol], f)
           else Holding(f.quantity, f.price, f.fee, SlippageOf(f), f.at, liquidity, [f.fillId])
  {
  }

  lemma EnterKeepsStake(st: State, f: FillArtifact, liquidity: real, ctx: Context)
    requires f.quantity > 0.0 && Enter(st, f, liquidity, ctx).Next?
    ensures Stake(Enter(st, f, liquidity, ctx).state) == Stake(st)
    ensures Unplaced(Enter(st, f, liquidity, ctx).state) == Unplaced(st) - (f.fee + SlippageOf(f))
  {
    var next, s := Enter(st, f, liquidity, ctx).state, f.symbol;
    EnterPuts(st, f, liquidity, ctx);
    if s in st.positions {
      MergedCost(st.positions[s], f, s);
    }
    PutMoves(st, next, s, next.positions[s], -(Notional(f) + f.fee), 0.0, Notional(f) + f.fee);
    PutPlaces(st, next, s, next.positions[s], -(Notional(f) + f.fee), 0.0, f.fee + SlippageOf(f));
  }

  lemma ShareOfUnit(amount: real, quantity: real, held: Positive)
    ensures Share(amount, quantity, held) == amount - Times(held - quantity, PerUnit(amount, held))
  {
    Cancel(amount, held);
    assert amount * quantity / held == amount / held * quantity;
  }

  lemma Distribute(x: real, a: real, b: real)
    ensures Times(x, a + b) == Times(x, a) + Times(x, b)
  {
  }

  lemma UnitSum(a: real, b: real, held: Positive)
    ensures PerUnit(a + b, held) == PerUnit(a, held) + PerUnit(b, held)
  {
  }

  lemma TotalsMore(trades: seq<TradePrimitive>, t: TradePrimitive)
    ensures TotalNet(trades + [t]) == TotalNet(trades) + t.net
    ensures TotalCost(trades + [t]) == TotalCost(trades) + t.cost
  {
    assert (trades + [t])[..|trades|] == trades;
  }

  /** A state with one more closed trade, its holding deleted or replaced, and cash received. */
  ghost predicate Sells(st: State, next: State, s: string, t: TradePrimitive, cash: real, basis: real, placed: real) {
    && s in st.positions
    && next.cash == st.cash + cash && next.fees == st.fees && next.slippage == st.slippage
    && next.trades == st.trades + [t]
    && SumOver(next.positions, HoldingCost) == SumOver(st.positions, HoldingCost) - basis
    && SumOver(next.positions, EntryCost) == SumOver(st.positions, EntryCost) - placed
  }

  lemma SellMoves(st: State, next: State, s: string, t: TradePrimitive, cash: real, basis: real, placed: real)
    requires Sells(st, next, s, t, cash, basis, placed)
    ensures Stake(next) == Stake(st) + cash - basis - t.net
    ensures Unplaced(next) == Unplaced(st) - t.cost + placed
  {
    TotalsMore(st.trades, t);
  }

  /** Basis and entry costs that leave the inventory with a sell. */
  function BasisOut(h: Holding, f: FillArtifact, closes: bool): real {
    if closes then h.quantity * h.entryPrice + h.entryFee
    else Times(f.quantity, h.entryPrice) + Share(h.entryFee, f.quantity, h.quantity)
  }

  function CostsOut(h: Holding, f: FillArtifact, closes: bool): real {
    if closes then h.entryFee + h.entrySlippage
    else Share(h.entryFee, f.quantity, h.quantity) + Share(h.entrySlippage, f.quantity, h.quantity)
  }

  lemma ReducedCost(h: Holding, f: FillArtifact, s: string)
    requires f.quantity < h.quantity
    ensures HoldingCost(s, Reduced(h, f.quantity)) == HoldingCost(s, h) - BasisOut(h, f, false)
    ensures EntryCost(s, Reduced(h, f.quantity)) == EntryCost(s, h) - CostsOut(h, f, false)
  {
  }

  lemma ExitSells(st: State, f: FillArtifact, ctx: Context)
    requires f.side != "buy" && Exit(st, f, ctx).Next?
    ensures var h, t, closes := st.positions[f.symbol], ctx.trades[|st.trades|], ClosesHolding(st, f, ctx);
      Sells(st, Exit(st, f, ctx).state, f.symbol, ClosedTrade(t, h, f), Notional(f) - f.fee,
            BasisOut(h, f, closes), CostsOut(h, f, closes))
  {
    var h, s := st.positions[f.symbol], f.symbol;
    if ClosesHolding(st, f, ctx) {
      assert Exit(st, f, ctx).state.positions == st.positions - {s};
      SumTakeOut(st.positions, HoldingCost, s);
      SumTakeOut(st.positions, EntryCost, s);
    } else {
      assert Exit(st, f, ctx).state.positions == st.positions[s := Reduced(h, f.quantity)];
      SumPut(st.positions, HoldingCost, s, Reduced(h, f.quantity));
      SumPut(st.positions, EntryCost, s, Reduced(h, f.quantity));
      ReducedCost(h, f, s);
    }
  }

  /** Cash received, less the basis given up, is the profit, less what a deleted remainder cost. */
  lemma SellValue(h: Holding, f: FillArtifact, closes: bool)
    ensures Notional(f) - f.fee - BasisOut(h, f, closes)
         == Pnl(h, f)
          - if closes then Times(Remainder(h, f), h.entryPrice + PerUnit(h.entryFee, h.quantity)) else 0.0
  {
    ShareOfUnit(h.entryFee, f.quantity, h.quantity);
    Distribute(Remainder(h, f), h.entryPrice, PerUnit(h.entryFee, h.quantity));
    ProfitSplit(f.price, h.entryPrice, f.quantity, h.quantity);
  }

  lemma ProfitSplit(price: real, entry: real, quantity: real, held: real)
    ensures quantity * price == (price - entry) * quantity + Times(quantity, entry)
    ensures Times(quantity, entry) == held * entry - Times(held - quantity, entry)
  {
  }

  lemma SellCosts(h: Holding, f: FillArtifact, closes: bool)
    ensures CostsOut(h, f, closes) - CostOf(h, f)
         == -(f.fee + SlippageOf(f))
          + if closes then Times(Remainder(h, f), PerUnit(h.entryFee + h.entrySlippage, h.quantity)) else 0.0
  {
    ShareOfUnit(h.entryFee, f.quantity, h.quantity);
    ShareOfUnit(h.entrySlippage, f.quantity, h.quantity);
    Distribute(Remainder(h, f), PerUnit(h.entryFee, h.quantity), PerUnit(h.entrySlippage, h.quantity));
    UnitSum(h.entryFee, h.entrySlippage, h.quantity);
  }

  lemma ExitMovesStake(st: State, f: FillArtifact, ctx: Context)
    requires f.side != "buy" && Exit(st, f, ctx).Next?
    ensures Stake(Exit(st, f, ctx).state) == Stake(st) - ProfitGap(st, f, ctx)
    ensures Unplaced(Exit(st, f, ctx).state) == Unplaced(st) - (f.fee + SlippageOf(f)) + CostGap(st, f, ctx)
  {
    var h, t, closes := st.positions[f.symbol], ctx.trades[|st.trades|], ClosesHolding(st, f, ctx);
    ExitSells(st, f, ctx);
    SellMoves(st, Exit(st, f, ctx).state, f.symbol, ClosedTrade(t, h, f), Notional(f) - f.fee,
              BasisOut(h, f, closes), CostsOut(h, f, closes));
    SellValue(h, f, closes);
    SellCosts(h, f, closes);
  }

  lemma CountedStake(st: State, f: FillArtifact, bar: Bar, ctx: Context)
    ensures Stake(Count(st, f, bar, ctx)) == Stake(st)
    ensures Unplaced(Count(st, f, bar, ctx)) == Unplaced(st) + f.fee + SlippageOf(f)
    ensures ProfitGap(Count(st, f, bar, ctx), f, ctx) == ProfitGap(st, f, ctx)
    ensures CostGap(Count(st, f, bar, ctx), f, ctx) == CostGap(st, f, ctx)
  {
    hide Times, Pnl, PerUnit, SlippageOf;
  }

  lemma StepMovesStake(st: State, f: FillArtifact, ctx: Context)
    requires ReplayOne(st, f, ctx).Next?
    ensures Stake(ReplayOne(st, f, ctx).state) == Stake(st) - ProfitGap(st, f, ctx)
    ensures Unplaced(ReplayOne(st, f, ctx).state) == Unplaced(st) + CostGap(st, f, ctx)
  {
    assert f.quantity > 0.0;
    hide Stake, Unplaced, Enter, Exit, FillBar, WellFormed, Count, ProfitGap, CostGap, SlippageOf;
    var bar := FillBar(ctx, f).value;
    var counted := Count(st, f, bar, ctx);
    CountedStake(st, f, bar, ctx);
    if f.side == "buy" {
      EnterKeepsStake(counted, f, Liquidity(bar, f), ctx);
    } else {
      ExitMovesStake(counted, f, ctx);
    }
  }

  // ---------- Whole replays ----------

  function ProfitGaps(st: State, fills: seq<FillArtifact>, ctx: Context): real
    decreases |fills|
  {
    if fills == [] || ReplayOne(st, fills[0], ctx).Denied? then 0.0
    else ProfitGap(st, fills[0], ctx) + ProfitGaps(ReplayOne(st, fills[0], ctx).state, fills[1..], ctx)
  }

  function CostGaps(st: State, fills: seq<FillArtifact>, ctx: Context): real
    decreases |fills|
  {
    if fills == [] || ReplayOne(st, fills[0], ctx).Denied? then 0.0
    else CostGap(st, fills[0], ctx) + CostGaps(ReplayOne(st, fills[0], ctx).state, fills[1..], ctx)
  }

  /** Exact accounting over an accepted replay. */
  lemma {:induction false} ReplayMovesStake(st: State, fills: seq<FillArtifact>, ctx: Context)
    requires ReplayFrom(st, fills, ctx).Next?
    ensures Stake(ReplayFrom(st, fills, ctx).state) == Stake(st) - ProfitGaps(st, fills, ctx)
    ensures Unplaced(ReplayFrom(st, fills, ctx).state) == Unplaced(st) + CostGaps(st, fills, ctx)
    decreases |fills|
  {
    if fills != [] {
      StepMovesStake(st, fills[0], ctx);
      ReplayMovesStake(ReplayOne(st, fills[0], ctx).state, fills[1..], ctx);
    }
  }

  // ---------- How large the gaps can be ----------

  function ProfitBound(st: State, f: FillArtifact, ctx: Context): real {
    if f.side == "buy" || f.symbol !in st.positions || |st.trades| >= |ctx.trades| then 0.0
    else
      var h := st.positions[f.symbol];
      var dropped :=
        if ClosesHolding(st, f, ctx) then Times(ctx.ledger.size, h.entryPrice + PerUnit(h.entryFee, h.quantity))
        else 0.0;
      dropped + NearBound(ctx.trades[|st.trades|].pnl, Pnl(h, f), ctx.near)
  }

  function NearBound(a: real, b: real, near: real): real {
    Times(near, Max(1.0, Max(RealAbs(a), RealAbs(b))))
  }

  function CostBound(st: State, f: FillArtifact, ctx: Context): real {
    if f.side == "buy" || !ClosesHolding(st, f, ctx) then 0.0
    else
      var h := st.positions[f.symbol];
      Times(ctx.ledger.size, PerUnit(h.entryFee + h.entrySlippage, h.quantity))
  }

  function ProfitBounds(st: State, fills: seq<FillArtifact>, ctx: Context): real
    decreases |fills|
  {
    if fills == [] || ReplayOne(st, fills[0], ctx).Denied? then 0.0
    else ProfitBound(st, fills[0], ctx) + ProfitBounds(ReplayOne(st, fills[0], ctx).state, fills[1..], ctx)
  }

  function CostBounds(st: State, fills: seq<FillArtifact>, ctx: Context): real
    decreases |fills|
  {
    if fills == [] || ReplayOne(st, fills[0], ctx).Denied? then 0.0
    else CostBound(st, fills[0], ctx) + CostBounds(ReplayOne(st, fills[0], ctx).state, fills[1..], ctx)
  }

  /** Entry price, fee and slippage of a holding are never negative. */
  predicate SoundHolding(h: Holding) {
    h.entryPrice >= 0.0 && h.entryFee >= 0.0 && h.entrySlippage >= 0.0
  }

  predicate SoundHoldings(st: State) {
    forall s :: s in st.positions ==> SoundHolding(st.positions[s])
  }

  lemma MergedIsSound(h: Holding, f: FillArtifact)
    requires SoundHolding(h) && WellFormed(f)
    ensures SoundHolding(Merged(h, f))
  {
    ProductIsNonNegative(h.entryPrice, h.quantity);
    ProductIsNonNegative(f.quantity, f.price);
    QuotientIsNonNegative(h.entryPrice * h.quantity + Notional(f), h.quantity + f.quantity);
    ProductIsNonNegative(RealAbs(f.price - f.reference), f.quantity);
  }

  lemma ReducedIsSound(h: Holding, quantity: real)
    requires SoundHolding(h) && quantity < h.quantity
    ensures SoundHolding(Reduced(h, quantity))
  {
    ShareOfUnit(h.entryFee, quantity, h.quantity);
    ShareOfUnit(h.entrySlippage, quantity, h.quantity);
    QuotientIsNonNegative(h.entryFee, h.quantity);
    QuotientIsNonNegative(h.entrySlippage, h.quantity);
    ProductIsNonNegative(h.quantity - quantity, PerUnit(h.entryFee, h.quantity));
    ProductIsNonNegative(h.quantity - quantity, PerUnit(h.entrySlippage, h.quantity));
  }

  lemma StepKeepsSound(st: State, f: FillArtifact, ctx: Context)
    requires SoundHoldings(st) && ReplayOne(st, f, ctx).Next?
    ensures SoundHoldings(ReplayOne(st, f, ctx).state)
  {
    var bar := FillBar(ctx, f).value;
    var counted := Count(st, f, bar, ctx);
    if f.side == "buy" {
      EnterPuts(counted, f, Liquidity(bar, f), ctx);
      ProductIsNonNegative(RealAbs(f.price - f.reference), f.quantity);
      if f.symbol in st.positions {
        MergedIsSound(st.positions[f.symbol], f);
      }
    } else {
      var h := st.positions[f.symbol];
      if !ClosesHolding(st, f, ctx) {
        ReducedIsSound(h, f.quantity);
      }
      assert Exit(counted, f, ctx).state.positions ==
        if ClosesHolding(st, f, ctx) then st.positions - {f.symbol}
        else st.positions[f.symbol := Reduced(h, f.quantity)];
    }
  }

  lemma ScaledWithin(r: real, size: real, unit: real)
    requires unit >= 0.0 && -size <= r <= size
    ensures RealAbs(Times(r, unit)) <= Times(size, unit)
  {
    ProductIsNonNegative(size - r, unit);
    ProductIsNonNegative(size + r, unit);
  }

  /** What an accepted sell was checked for. */
  lemma SellWasChecked(st: State, f: FillArtifact, ctx: Context)
    requires f.side != "buy" && ReplayOne(st, f, ctx).Next?
    ensures f.symbol in st.positions && |st.trades| < |ctx.trades|
    ensures Remainder(st.positions[f.symbol], f) >= -(ctx.ledger.size as real)
    ensures Near(ctx.trades[|st.trades|].pnl, Pnl(st.positions[f.symbol], f), ctx.near)
  {
  }

  lemma NearWithin(a: real, b: real, near: NonNegative)
    requires Near(a, b, near)
    ensures RealAbs(a - b) <= NearBound(a, b, near)
  {
  }

  lemma AddWithin(a: real, b: real, x: real, y: real)
    requires RealAbs(a) <= x && RealAbs(b) <= y
    ensures RealAbs(a + b) <= x + y
  {
  }

  lemma StepGapsBounded(st: State, f: FillArtifact, ctx: Context)
    requires SoundHoldings(st) && ReplayOne(st, f, ctx).Next?
    ensures RealAbs(ProfitGap(st, f, ctx)) <= ProfitBound(st, f, ctx)
    ensures RealAbs(CostGap(st, f, ctx)) <= CostBound(st, f, ctx)
  {
    if f.side != "buy" {
      SellWasChecked(st, f, ctx);
      SellGapsBounded(st, f, ctx);
    }
  }

  lemma SellGapsBounded(st: State, f: FillArtifact, ctx: Context)
    requires SoundHoldings(st) && f.symbol in st.positions && |st.trades| < |ctx.trades| && f.side != "buy"
    requires Remainder(st.positions[f.symbol], f) >= -(ctx.ledger.size as real)
    requires Near(ctx.trades[|st.trades|].pnl, Pnl(st.positions[f.symbol], f), ctx.near)
    ensures RealAbs(ProfitGap(st, f, ctx)) <= ProfitBound(st, f, ctx)
    ensures RealAbs(CostGap(st, f, ctx)) <= CostBound(st, f, ctx)
  {
    var h := st.positions[f.symbol];
    var booked, pnl := ctx.trades[|st.trades|].pnl, Pnl(h, f);
    NearWithin(booked, pnl, ctx.near);
    if ClosesHolding(st, f, ctx) {
      var r, size := Remainder(h, f), ctx.ledger.size;
      var unit := h.entryPrice + PerUnit(h.entryFee, h.quantity);
      var costs := PerUnit(h.entryFee + h.entrySlippage, h.quantity);
      QuotientIsNonNegative(h.entryFee, h.quantity);
      QuotientIsNonNegative(h.entryFee + h.entrySlippage, h.quantity);
      ScaledWithin(r, size, unit);
      ScaledWithin(r, size, costs);
      AddWithin(Times(r, unit), booked - pnl, Times(size, unit), NearBound(booked, pnl, ctx.near));
    }
  }

  lemma {:induction false} GapsBounded(st: State, fills: seq<FillArtifact>, ctx: Context)
    requires SoundHoldings(st) && ReplayFrom(st, fills, ctx).Next?
    ensures RealAbs(ProfitGaps(st, fills, ctx)) <= ProfitBounds(st, fills, ctx)
    ensures RealAbs(CostGaps(st, fills, ctx)) <= CostBounds(st, fills, ctx)
    decreases |fills|
  {
    if fills != [] {
      StepGapsBounded(st, fills[0], ctx);
      StepKeepsSound(st, fills[0], ctx);
      GapsBounded(ReplayOne(st, fills[0], ctx).state, fills[1..], ctx);
    }
  }

  /** With no dust threshold and exact comparisons there is no gap at all. */
  lemma {:induction false} ExactBounds(st: State, fills: seq<FillArtifact>, ctx: Context)
    ensures ctx.ledger.size == 0.0 && ctx.near == 0.0 ==> ProfitBounds(st, fills, ctx) == 0.0
    ensures ctx.ledger.size == 0.0 ==> CostBounds(st, fills, ctx) == 0.0
    decreases |fills|
  {
    if fills != [] && ReplayOne(st, fills[0], ctx).Next? {
      ExactBounds(ReplayOne(st, fills[0], ctx).state, fills[1..], ctx);
    }
  }

  // ---------- The closing inventory ----------

  /** The holdings listed in some order of their symbols. */
  function Listed(order: seq<string>, positions: map<string, Holding>): (r: seq<EndPosition>)
    requires forall s :: s in order ==> s in positions
    ensures |r| == |order|
  {
    seq(|order|, i requires 0 <= i < |order| => EndOf(order[i], positions[order[i]]))
  }

  function EndOf(s: string, h: Holding): EndPosition {
    EndPosition(s, h.quantity, h.entryPrice, h.entryFee, h.entrySlippage)
  }

  function OpenEntryCosts(positions: seq<EndPosition>): real {
    if positions == [] then 0.0
    else
      var last := positions[|positions| - 1];
      OpenEntryCosts(positions[..|positions| - 1]) + (last.entryFee + last.entrySlippage)
  }

  lemma ListMore(front: seq<EndPosition>, p: EndPosition)
    ensures OpenCost(front + [p]) == OpenCost(front) + (p.quantity * p.entryPrice + p.entryFee)
    ensures OpenEntryCosts(front + [p]) == OpenEntryCosts(front) + (p.entryFee + p.entrySlippage)
  {
    assert (front + [p])[..|front|] == front;
  }

  lemma {:induction false} ListedSums(order: seq<string>, positions: map<string, Holding>)
    requires Enumerates(order, positions)
    ensures OpenCost(Listed(order, positions)) == SumOver(positions, HoldingCost)
    ensures OpenEntryCosts(Listed(order, positions)) == SumOver(positions, EntryCost)
  {
    if order == [] {
      assert positions == map[];
    } else {
      var front, k := order[..|order| - 1], order[|order| - 1];
      ListedStep(order, positions);
      ListedSums(front, positions - {k});
      SumTakeOut(positions, HoldingCost, k);
      SumTakeOut(positions, EntryCost, k);
    }
  }

  lemma ListedStep(order: seq<string>, positions: map<string, Holding>)
    requires Enumerates(order, positions) && order != []
    ensures var front, k := order[..|order| - 1], order[|order| - 1];
      && k in positions && Enumerates(front, positions - {k})
      && OpenCost(Listed(order, positions))
           == OpenCost(Listed(front, positions - {k})) + HoldingCost(k, positions[k])
      && OpenEntryCosts(Listed(order, positions))
           == OpenEntryCosts(Listed(front, positions - {k})) + EntryCost(k, positions[k])
  {
    var front, k := order[..|order| - 1], order[|order| - 1];
    LastTakenOut(order, positions);
    ListMore(Listed(front, positions - {k}), EndOf(k, positions[k]));
  }

  lemma LastTakenOut(order: seq<string>, positions: map<string, Holding>)
    requires Enumerates(order, positions) && order != []
    ensures var front, k := order[..|order| - 1], order[|order| - 1];
      && Enumerates(front, positions - {k})
      && Listed(order, positions) == Listed(front, positions - {k}) + [EndOf(k, positions[k])]
  {
    var front, k := order[..|order| - 1], order[|order| - 1];
    assert order == front + [k];
    forall s ensures s in front <==> s in positions - {k} {
      assert s in order <==> s in front || s == k;
    }
  }

  /** Final equity is starting capital, realised profit and unrealised profit. */
  lemma EquityDecomposition(fills: seq<FillArtifact>, metrics: Metrics, capital: real, ctx: Context, st: State,
                            order: seq<string>, ev: Evidence, series: Series, slack: Slack,
                            residues: seq<ResidualPosition>)
    requires capital != 0.0 && ReplayAll(fills, metrics, capital, ctx) == Next(st)
    requires Enumerates(order, st.positions)
    requires var inv := Inventory(st.cash, Listed(order, st.positions));
      Accepts(ev, inv, series, capital, slack)
      && Marking(ev, inv.positions, residues, MarkedValue(residues), series, capital, slack)
    ensures RealAbs(Last(ev.equity).value - capital - (TotalNet(st.trades) + Unrealized(residues)))
         <= Allowed(capital, slack) + ProfitBounds(Opening(capital), fills, ctx)
    ensures ctx.ledger.size == 0.0 && ctx.near == 0.0 && slack == Slack(0.0, 0.0) ==>
      Last(ev.equity).value - capital == TotalNet(st.trades) + Unrealized(residues)
  {
    var start := Opening(capital);
    assert ev.equity != [];
    hide *;
    ReplayGap(fills, metrics, capital, ctx, st);
    GapsBounded(start, fills, ctx);
    ExactBounds(start, fills, ctx);
    NothingAllowed(capital);
    InventoryWorth(st, order, ev, series, capital, slack, residues);
    CombineGaps(Last(ev.equity).value, st.cash + MarkedValue(residues), capital,
                TotalNet(st.trades) + Unrealized(residues), ProfitGaps(start, fills, ctx), Allowed(capital, slack),
                ProfitBounds(start, fills, ctx));
  }

  lemma ReplayGap(fills: seq<FillArtifact>, metrics: Metrics, capital: real, ctx: Context, st: State)
    requires capital != 0.0 && ReplayAll(fills, metrics, capital, ctx) == Next(st)
    ensures ReplayFrom(Opening(capital), fills, ctx) == Next(st)
    ensures SoundHoldings(Opening(capital))
    ensures st.cash + SumOver(st.positions, HoldingCost) - TotalNet(st.trades)
         == capital - ProfitGaps(Opening(capital), fills, ctx)
  {
    ReplayMovesStake(Opening(capital), fills, ctx);
    assert Stake(Opening(capital)) == capital;
  }

  lemma InventoryWorth(st: State, order: seq<string>, ev: Evidence, series: Series, capital: real, slack: Slack,
                       residues: seq<ResidualPosition>)
    requires Enumerates(order, st.positions)
    requires var inv := Inventory(st.cash, Listed(order, st.positions));
      Accepts(ev, inv, series, capital, slack)
      && Marking(ev, inv.positions, residues, MarkedValue(residues), series, capital, slack)
    ensures MarkedValue(residues) == SumOver(st.positions, HoldingCost) + Unrealized(residues)
    ensures RealAbs(st.cash + MarkedValue(residues) - Last(ev.equity).value) <= Allowed(capital, slack)
  {
    ListedSums(order, st.positions);
    ValueIsCostAndProfit(Listed(order, st.positions), FinalMarks(ev, series), Last(ev.equity).at);
  }

  lemma NothingAllowed(capital: real)
    ensures Allowed(capital, Slack(0.0, 0.0)) == 0.0
  {
  }

  lemma CombineGaps(equity: real, worth: real, capital: real, profit: real, gap: real, allowed: real, bound: real)
    requires RealAbs(worth - equity) <= allowed && worth - profit == capital - gap && RealAbs(gap) <= bound
    ensures RealAbs(equity - capital - profit) <= allowed + bound
    ensures allowed == 0.0 && bound == 0.0 ==> equity - capital == profit
  {
  }

  /** All fees and slippage are in the cost of a closed trade or still on an open position. */
  lemma CostDecomposition(fills: seq<FillArtifact>, metrics: Metrics, capital: real, ctx: Context, st: State,
                          order: seq<string>)
    requires capital != 0.0 && ReplayAll(fills, metrics, capital, ctx) == Next(st)
    requires Enumerates(order, st.positions)
    ensures st.fees == Refinement.TotalFees(fills) && st.slippage == Refinement.TotalSlippage(fills)
    ensures RealAbs(st.fees + st.slippage - (TotalCost(st.trades) + OpenEntryCosts(Listed(order, st.positions))))
         <= CostBounds(Opening(capital), fills, ctx)
    ensures ctx.ledger.size == 0.0 ==>
      st.fees + st.slippage == TotalCost(st.trades) + OpenEntryCosts(Listed(order, st.positions))
  {
    var start := Opening(capital);
    Refinement.ReplayTotals(start, fills, ctx);
    ListedSums(order, st.positions);
    ReplayMovesStake(start, fills, ctx);
    GapsBounded(start, fills, ctx);
    ExactBounds(start, fills, ctx);
    assert Unplaced(start) == 0.0;
  }
}
