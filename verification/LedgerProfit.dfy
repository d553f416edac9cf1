/** The ledger's own profit, as the auditors confirm it: for a whole history of outcomes, what the
    audits accept as final equity is the starting capital plus the profit the ledger booked and the
    profit still open. */
module LedgerProfit {
  import opened RealMath
  import opened FiniteSums
  import opened Ledger
  import opened MarketData
  import opened Runs
  import opened Replay
  import opened Refinement
  import opened Residual
  import opened Conservation
  import Decomposition

  lemma {:induction false} NetIsBooked(trades: seq<TradePrimitive>, closed: seq<Ledger.Trade>)
    requires |trades| == |closed| && TradesInOrder(trades, closed)
    ensures Decomposition.TotalNet(trades) == TotalPnl(closed)
  {
    if trades != [] {
      NetIsBooked(trades[..|trades| - 1], closed[..|closed| - 1]);
    }
  }

  lemma Mirrored(b: Book, st: State, order: seq<string>)
    requires Tracks(b, st) && Enumerates(order, b.positions)
    ensures st.cash == b.cash && |st.trades| == |b.trades| && Enumerates(order, st.positions)
  {
  }

  /** For every rename-free legal history with good evidence whose closing inventory is accepted: final
      equity is capital plus the ledger's booked profit plus unrealized profit, within the audits'
      slack, and exactly so without any. */
  lemma LedgerEquityDecomposes(capital: real, steps: seq<Step>, env: Setting, ctx: Context, st: State,
                               order: seq<string>, ev: Evidence, series: Series, slack: Residual.Slack,
                               residues: seq<ResidualPosition>)
    requires capital != 0.0 && LegalRun(OpeningBook(capital), steps, env) && NoRenames(steps)
    requires ctx.ledger == env.tol && ctx.trades == Play(OpeningBook(capital), steps, env).trades
    requires GoodEvidence(ProjectAll(Play(OpeningBook(capital), steps, env).events), ctx)
    requires var b := Play(OpeningBook(capital), steps, env);
      ReplayAll(ProjectAll(b.events), MetricsOf(b, capital), capital, ctx) == Next(st)
      && Enumerates(order, b.positions)
    requires forall s :: s in order ==> s in st.positions
    requires var inv := Inventory(st.cash, Decomposition.Listed(order, st.positions));
      Accepts(ev, inv, series, capital, slack)
      && Marking(ev, inv.positions, residues, MarkedValue(residues), series, capital, slack)
    ensures var b := Play(OpeningBook(capital), steps, env);
      && st.cash == b.cash
      && RealAbs(Last(ev.equity).value - capital - (TotalPnl(b.trades) + Unrealized(residues)))
         <= Allowed(capital, slack) + Decomposition.ProfitBounds(Opening(capital), ProjectAll(b.events), ctx)
      && (env.tol.size == 0.0 && ctx.near == 0.0 && slack == Residual.Slack(0.0, 0.0) ==>
            Last(ev.equity).value - capital == TotalPnl(b.trades) + Unrealized(residues))
  {
    hide *;
    var b := Play(OpeningBook(capital), steps, env);
    ReplayRefinesLedger(capital, steps, env, ctx);
    Mirrored(b, st, order);
    NetIsBooked(st.trades, b.trades);
    Decomposition.EquityDecomposition(ProjectAll(b.events), MetricsOf(b, capital), capital, ctx, st, order, ev, series,
                                      slack, residues);
  }
}
