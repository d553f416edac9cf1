/** The independent replay of recorded fills: it rebuilds cash, holdings, costs and closed trades from
    the fill artifacts, and insists that every sell matches the next closed trade. */
module Replay {
  import opened RealMath
  import opened Ledger
  import opened MarketData
  import DecimalText

  /** A recorded fill as read back; legible says that its numbers and times all parsed. */
  datatype FillArtifact = FillArtifact(
    fillId: string, orderId: string, symbol: string, side: string, legible: bool,
    quantity: real, price: real, fee: real, reference: real, at: int)

  datatype Holding = Holding(quantity: Positive, entryPrice: real, entryFee: real, entrySlippage: real, entryAt: int,
                             entryLiquidity: real, entryFillIds: seq<string>)

  datatype FillPrimitive = FillPrimitive(id: string, orderId: string, symbol: string, side: string, at: int,
                                         notional: real, liquidity: real)
  datatype TradePrimitive = TradePrimitive(entryFillIds: seq<string>, exitFillId: string, symbol: string, openedAt: int,
                                           closedAt: int, notional: real, liquidity: real, gross: real, cost: real,
                                           net: real)

  datatype Metrics = Metrics(turnoverRatio: real, turnover: real, fees: real, slippage: real, fillCount: nat,
                             tradeCount: nat)

  /** Which execution policy produced the run. Under v4 each fill must also be bound to its order, the
      orders filled before it, and its bar. */
  datatype Policy = Plain | V3 | V4(admits: (set<string>, FillArtifact, Bar) -> bool)

  /** ledger: the tolerances shared with the ledger; near: relative slack of comparisons. */
  datatype Context = Context(policy: Policy, execution: Series, trades: seq<Trade>, ledger: Tolerances,
                             near: NonNegative)

  datatype State = State(cash: real, positions: map<string, Holding>, seen: set<string>, lastAt: int,
                         filledOrders: set<string>, turnover: real, fees: real, slippage: real,
                         trades: seq<TradePrimitive>, fills: seq<FillPrimitive>)

  datatype ReplayError =
    | BadFill | NoBar | NoVolume | Unbound | Overspent | Unattributed | TradeMismatch | CountMismatch | MetricsMismatch
  datatype StepResult = Denied(error: ReplayError) | Next(state: State)

  function Opening(capital: real): State {
    State(capital, map[], {}, ZERO_INSTANT, {}, 0.0, 0.0, 0.0, [], [])
  }

  /** Relative comparison of two amounts. */
  predicate Near(a: real, b: real, near: real) {
    RealAbs(a - b) <= near * Max(1.0, Max(RealAbs(a), RealAbs(b)))
  }

  /** Under v4 the fill time is the bar's close; otherwise it is its open. */
  function SelectedOpen(policy: Policy, at: int): int {
    if policy.V4? then MinuteOpen(at) else at
  }

  predicate WellFormed(f: FillArtifact) {
    && f.fillId != "" && DecimalText.TrimSpace(f.symbol) != "" && (f.side == "buy" || f.side == "sell")
    && f.legible && f.quantity > 0.0 && f.price > 0.0 && f.reference > 0.0 && f.fee >= 0.0
  }

  function FillBar(ctx: Context, f: FillArtifact): Option<Bar> {
    BarAt(MarketData.Get(ctx.execution, f.symbol), SelectedOpen(ctx.policy, f.at))
  }

  /** The admission checks, in order. */
  function Admit(st: State, f: FillArtifact, ctx: Context): StepResult {
    if !WellFormed(f) || f.fillId in st.seen || (st.lastAt != ZERO_INSTANT && f.at < st.lastAt) then Denied(BadFill)
    else if FillBar(ctx, f).None? then Denied(NoBar)
    else
      var bar := FillBar(ctx, f).value;
      if bar.volume <= 0.0 then Denied(NoVolume)
      else if ctx.policy.V4? && !ctx.policy.admits(st.filledOrders, f, bar) then Denied(Unbound)
      else Next(Count(st, f, bar, ctx))
  }

  /** Counts an admitted fill toward the totals. */
  function Count(st: State, f: FillArtifact, bar: Bar, ctx: Context): State {
    var orderId := if ctx.policy.Plain? then "" else f.orderId;
    var fill := FillPrimitive(f.fillId, orderId, f.symbol, f.side, f.at, Notional(f), Liquidity(bar, f));
    st.(seen := st.seen + {f.fillId}, lastAt := f.at,
        filledOrders := if ctx.policy.V4? then st.filledOrders + {f.orderId} else st.filledOrders,
        turnover := st.turnover + Notional(f), fees := st.fees + f.fee,
        slippage := st.slippage + SlippageOf(f), fills := st.fills + [fill])
  }

  function Notional(f: FillArtifact): real {
    f.quantity * f.price
  }

  function SlippageOf(f: FillArtifact): real {
    RealAbs(f.price - f.reference) * f.quantity
  }

  function Liquidity(bar: Bar, f: FillArtifact): real {
    bar.volume * f.price
  }

  /** A holding averaged with a further buy. */
  function Merged(p: Holding, f: FillArtifact): Holding
    requires f.quantity > 0.0
  {
    var total := p.quantity + f.quantity;
    Holding(total, (p.entryPrice * p.quantity + Notional(f)) / total, p.entryFee + f.fee,
            p.entrySlippage + SlippageOf(f), p.entryAt, p.entryLiquidity, p.entryFillIds + [f.fillId])
  }

  function Enter(st: State, f: FillArtifact, liquidity: real, ctx: Context): StepResult
    requires f.quantity > 0.0
  {
    var cash := st.cash - (Notional(f) + f.fee);
    if cash + ctx.ledger.cash < 0.0 then Denied(Overspent)
    else
      var holding :=
        if f.symbol in st.positions then Merged(st.positions[f.symbol], f)
        else Holding(f.quantity, f.price, f.fee, SlippageOf(f), f.at, liquidity, [f.fillId]);
      Next(st.(cash := cash, positions := st.positions[f.symbol := holding]))
  }

  /** Share of an entry amount that goes with quantity. */
  function Share(amount: real, quantity: real, held: Positive): real {
    amount * quantity / held
  }

  function Pnl(p: Holding, f: FillArtifact): real {
    (f.price - p.entryPrice) * f.quantity - Share(p.entryFee, f.quantity, p.quantity) - f.fee
  }

  predicate TradeMatches(t: Trade, p: Holding, f: FillArtifact, near: real) {
    && t.symbol == f.symbol && t.entryAt == p.entryAt && t.exitAt == f.at
    && Near(t.size, f.quantity, near) && Near(t.entryPrice, p.entryPrice, near)
    && Near(t.exitPrice, f.price, near) && Near(t.pnl, Pnl(p, f), near)
  }

  function CostOf(p: Holding, f: FillArtifact): real {
    Share(p.entryFee, f.quantity, p.quantity) + f.fee + Share(p.entrySlippage, f.quantity, p.quantity) + SlippageOf(f)
  }

  function ClosedTrade(t: Trade, p: Holding, f: FillArtifact): TradePrimitive {
    var cost := CostOf(p, f);
    TradePrimitive(p.entryFillIds, f.fillId, t.symbol, t.entryAt, t.exitAt, RealAbs(t.entryPrice * t.size),
                   p.entryLiquidity, t.pnl + cost, cost, t.pnl)
  }

  function Reduced(p: Holding, quantity: real): Holding
    requires quantity < p.quantity
  {
    p.(quantity := p.quantity - quantity, entryFee := p.entryFee - Share(p.entryFee, quantity, p.quantity),
       entrySlippage := p.entrySlippage - Share(p.entrySlippage, quantity, p.quantity))
  }

  function Exit(st: State, f: FillArtifact, ctx: Context): StepResult {
    var cash := st.cash + (Notional(f) - f.fee);
    if f.symbol !in st.positions || f.quantity > st.positions[f.symbol].quantity + ctx.ledger.size
       || |st.trades| >= |ctx.trades|
    then Denied(Unattributed)
    else
      var p, t := st.positions[f.symbol], ctx.trades[|st.trades|];
      if !TradeMatches(t, p, f, ctx.near) then Denied(TradeMismatch)
      else
        var positions :=
          if p.quantity - f.quantity <= ctx.ledger.size then st.positions - {f.symbol}
          else st.positions[f.symbol := Reduced(p, f.quantity)];
        Next(st.(cash := cash, positions := positions, trades := st.trades + [ClosedTrade(t, p, f)]))
  }

  function ReplayOne(st: State, f: FillArtifact, ctx: Context): StepResult {
    match Admit(st, f, ctx)
    case Denied(error) => Denied(error)
    case Next(counted) =>
      if f.side == "buy" then Enter(counted, f, Liquidity(FillBar(ctx, f).value, f), ctx) else Exit(counted, f, ctx)
  }

  function ReplayFrom(st: State, fills: seq<FillArtifact>, ctx: Context): StepResult
    decreases |fills|
  {
    if fills == [] then Next(st)
    else
      match ReplayOne(st, fills[0], ctx)
      case Denied(error) => Denied(error)
      case Next(next) => ReplayFrom(next, fills[1..], ctx)
  }

  predicate MetricsAgree(st: State, metrics: Metrics, capital: real, near: real)
    requires capital != 0.0
  {
    && Near(st.turnover / capital, metrics.turnoverRatio, near) && Near(st.turnover, metrics.turnover, near)
    && Near(st.fees, metrics.fees, near) && Near(st.slippage, metrics.slippage, near)
  }

  /** The whole replay: every fill admitted, every closed trade used, and the reported totals met. */
  function ReplayAll(fills: seq<FillArtifact>, metrics: Metrics, capital: real, ctx: Context): StepResult
    requires capital != 0.0
  {
    match ReplayFrom(Opening(capital), fills, ctx)
    case Denied(error) => Denied(error)
    case Next(st) =>
      if |st.trades| != |ctx.trades| || metrics.fillCount != |st.fills| || metrics.tradeCount != |st.trades| then
        Denied(CountMismatch)
      else if !MetricsAgree(st, metrics, capital, ctx.near) then Denied(MetricsMismatch)
      else Next(st)
  }

  /** The replay's mutable state and its loop. */
  class Auditor {
    const ctx: Context
    var cash: real
    var positions: map<string, Holding>
    var seen: set<string>
    var lastAt: int
    var filledOrders: set<string>
    var turnover: real
    var fees: real
    var slippage: real
    var trades: seq<TradePrimitive>
    var fills: seq<FillPrimitive>

    constructor (capital: real, ctx: Context)
      ensures this.ctx == ctx && Current() == Opening(capital)
    {
      this.ctx := ctx;
      cash, positions, seen, lastAt, filledOrders := capital, map[], {}, ZERO_INSTANT, {};
      turnover, fees, slippage, trades, fills := 0.0, 0.0, 0.0, [], [];
    }

    ghost function Current(): State
      reads this
    {
      State(cash, positions, seen, lastAt, filledOrders, turnover, fees, slippage, trades, fills)
    }

    /** Checks one fill and counts it. */
    method AdmitFill(f: FillArtifact) returns (error: Option<ReplayError>)
      modifies this
      ensures Admit(old(Current()), f, ctx) == if error.None? then Next(Current()) else Denied(error.value)
    {
      if !WellFormed(f) || f.fillId in seen || (lastAt != ZERO_INSTANT && f.at < lastAt) {
        return Some(BadFill);
      }
      var found := BarAt(MarketData.Get(ctx.execution, f.symbol), SelectedOpen(ctx.policy, f.at));
      if found.None? {
        return Some(NoBar);
      }
      var bar := found.value;
      if bar.volume <= 0.0 {
        return Some(NoVolume);
      }
      if ctx.policy.V4? && !ctx.policy.admits(filledOrders, f, bar) {
        return Some(Unbound);
      }
      CountFill(f, bar);
      error := None;
    }

    /** Counts an admitted fill. */
    method CountFill(f: FillArtifact, bar: Bar)
      modifies this
      ensures Current() == Count(old(Current()), f, bar, ctx)
    {
      seen, lastAt := seen + {f.fillId}, f.at;
      if ctx.policy.V4? {
        filledOrders := filledOrders + {f.orderId};
      }
      turnover := turnover + Notional(f);
      fees := fees + f.fee;
      slippage := slippage + SlippageOf(f);
      fills := fills + [FillPrimitive(f.fillId, if ctx.policy.Plain? then "" else f.orderId, f.symbol, f.side, f.at,
                                      Notional(f), Liquidity(bar, f))];
    }

    method EnterFill(f: FillArtifact, liquidity: real) returns (error: Option<ReplayError>)
      requires f.quantity > 0.0
      modifies this
      ensures Enter(old(Current()), f, liquidity, ctx) == if error.None? then Next(Current()) else Denied(error.value)
    {
      var balance := cash - (Notional(f) + f.fee);
      if balance + ctx.ledger.cash < 0.0 {
        return Some(Overspent);
      }
      cash := balance;
      if f.symbol in positions {
        positions := positions[f.symbol := Merged(positions[f.symbol], f)];
      } else {
        var holding := Holding(f.quantity, f.price, f.fee, SlippageOf(f), f.at, liquidity, [f.fillId]);
        positions := positions[f.symbol := holding];
      }
      assert Enter(old(Current()), f, liquidity, ctx).state.positions == positions;
      error := None;
    }

    method ExitFill(f: FillArtifact) returns (error: Option<ReplayError>)
      modifies this
      ensures match Exit(old(Current()), f, ctx)
        case Denied(e) => error == Some(e)
        case Next(next) => error == None && Current() == next
    {
      cash := cash + (Notional(f) - f.fee);
      if f.symbol !in positions || f.quantity > positions[f.symbol].quantity + ctx.ledger.size
         || |trades| >= |ctx.trades|
      {
        return Some(Unattributed);
      }
      var p, t := positions[f.symbol], ctx.trades[|trades|];
      if !TradeMatches(t, p, f, ctx.near) {
        return Some(TradeMismatch);
      }
      trades := trades + [ClosedTrade(t, p, f)];
      if p.quantity - f.quantity <= ctx.ledger.size {
        positions := positions - {f.symbol};
      } else {
        positions := positions[f.symbol := Reduced(p, f.quantity)];
      }
      assert Exit(old(Current()), f, ctx).state.positions == positions;
      error := None;
    }

    method TakeFill(f: FillArtifact) returns (error: Option<ReplayError>)
      modifies this
      ensures match ReplayOne(old(Current()), f, ctx)
        case Denied(e) => error == Some(e)
        case Next(next) => error == None && Current() == next
    {
      error := AdmitFill(f);
      if error.Some? {
        return;
      }
      if f.side == "buy" {
        error := EnterFill(f, Liquidity(FillBar(ctx, f).value, f));
      } else {
        error := ExitFill(f);
      }
    }
  }

  /** stage 07 economic primitives: replays all fills and checks the totals. */
  method EconomicPrimitives(fills: seq<FillArtifact>, metrics: Metrics, capital: real, ctx: Context)
    returns (r: StepResult)
    requires capital != 0.0
    ensures r == ReplayAll(fills, metrics, capital, ctx)
  {
    var auditor := new Auditor(capital, ctx);
    for i := 0 to |fills|
      invariant auditor.ctx == ctx
      invariant ReplayFrom(Opening(capital), fills, ctx) == ReplayFrom(auditor.Current(), fills[i..], ctx)
    {
      assert fills[i..][1..] == fills[i + 1..];
      var error := auditor.TakeFill(fills[i]);
      if error.Some? {
        return Denied(error.value);
      }
    }
    var st := State(auditor.cash, auditor.positions, auditor.seen, auditor.lastAt, auditor.filledOrders,
                    auditor.turnover, auditor.fees, auditor.slippage, auditor.trades, auditor.fills);
    if |st.trades| != |ctx.trades| || metrics.fillCount != |st.fills| || metrics.tradeCount != |st.trades| {
      return Denied(CountMismatch);
    }
    if !MetricsAgree(st, metrics, capital, ctx.near) {
      return Denied(MetricsMismatch);
    }
    r := Next(st);
  }
}
