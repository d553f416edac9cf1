/** What an open position is worth when the run is over: its quantity at the close of its symbol's last
    bar. The closing-inventory audit is restated from that, without the records it makes. */
module Marks {
  import opened Causality
  import opened MarketData
  import opened RealMath
  import opened Residual

  /** The close of the last bar that closed by an instant. */
  ghost predicate IsLastClose(bars: seq<Bar>, at: int, close: real) {
    exists k :: 0 <= k < |bars| && ClosesLast(bars, at, k) && bars[k].close == close
  }

  ghost predicate ClosesLast(bars: seq<Bar>, at: int, k: nat)
    requires k < |bars|
  {
    Instant(bars[k].closeTime) <= at && forall j :: k < j < |bars| ==> Instant(bars[j].closeTime) > at
  }

  /** A mark is the last close, and there is one exactly when some bar has closed. */
  lemma MarkIsLastClose(series: Series, symbol: string, at: int)
    requires OrderedSeries(series)
    ensures symbol in MarksAsOf(series, at) <==>
      symbol in series && exists k :: 0 <= k < |series[symbol]| && Instant(series[symbol][k].closeTime) <= at
    ensures symbol in MarksAsOf(series, at) ==> IsLastClose(series[symbol], at, MarksAsOf(series, at)[symbol])
  {
    if symbol in series {
      var bars := series[symbol];
      CountClosedMeaning(bars, at);
      var n := CountClosed(bars, at);
      if n > 0 {
        assert ClosesLast(bars, at, n - 1);
      }
    }
  }

  /** There is at most one last close. */
  lemma LastCloseIsUnique(bars: seq<Bar>, at: int, a: real, b: real)
    requires IsLastClose(bars, at, a) && IsLastClose(bars, at, b)
    ensures a == b
  {
    var i :| 0 <= i < |bars| && ClosesLast(bars, at, i) && bars[i].close == a;
    var j :| 0 <= j < |bars| && ClosesLast(bars, at, j) && bars[j].close == b;
    assert i == j;
  }

  // ---------- Worth at given closes ----------

  function ValueOf(p: EndPosition, close: real): real {
    p.quantity * close
  }

  function GainOf(p: EndPosition, close: real): real {
    p.quantity * close - p.quantity * p.entryPrice - p.entryFee
  }

  /** Each position at its own close. */
  function ValueAt(positions: seq<EndPosition>, closes: seq<real>): real
    requires |closes| == |positions|
  {
    if positions == [] then 0.0
    else
      var last := |positions| - 1;
      ValueAt(positions[..last], closes[..last]) + ValueOf(positions[last], closes[last])
  }

  /** What the positions would gain at these closes over what they cost, entry fees included. */
  function GainAt(positions: seq<EndPosition>, closes: seq<real>): real
    requires |closes| == |positions|
  {
    if positions == [] then 0.0
    else
      var last := |positions| - 1;
      GainAt(positions[..last], closes[..last]) + GainOf(positions[last], closes[last])
  }

  /** The closes of the positions' last bars before an instant. */
  ghost predicate LastCloses(positions: seq<EndPosition>, series: Series, at: int, closes: seq<real>) {
    && |closes| == |positions|
    && forall i :: 0 <= i < |positions| ==>
         positions[i].symbol in series && IsLastClose(series[positions[i].symbol], at, closes[i])
  }

  /** A residual record shows the position, marked at a close. */
  predicate MarkedAtClose(r: ResidualPosition, p: EndPosition, close: real, at: int) {
    && r.symbol == p.symbol && r.markedAt == at && r.quantity == p.quantity && r.entryFee == p.entryFee
    && r.markPrice == close && r.markValue == p.quantity * close && r.costBasis == p.quantity * p.entryPrice
    && r.unrealized == p.quantity * close - p.quantity * p.entryPrice - p.entryFee
  }

  function ClosesIn(positions: seq<EndPosition>, marks: map<string, real>): (closes: seq<real>)
    requires forall p :: p in positions ==> p.symbol in marks
    ensures |closes| == |positions|
    ensures forall i :: 0 <= i < |positions| ==> closes[i] == marks[positions[i].symbol]
  {
    seq(|positions|, i requires 0 <= i < |positions| => marks[positions[i].symbol])
  }

  lemma ResidueAtClose(p: EndPosition, close: real, at: int)
    ensures var r := Residue(p, close, at);
      MarkedAtClose(r, p, close, at) && r.markValue == ValueOf(p, close) && r.unrealized == GainOf(p, close)
  {
  }

  lemma {:induction false} ResiduesAtCloses(positions: seq<EndPosition>, marks: map<string, real>, at: int)
    requires forall p :: p in positions ==> p.symbol in marks
    ensures var residues, closes := Residues(positions, marks, at), ClosesIn(positions, marks);
      && MarkedValue(residues) == ValueAt(positions, closes) && Unrealized(residues) == GainAt(positions, closes)
      && forall i :: 0 <= i < |positions| ==> MarkedAtClose(residues[i], positions[i], closes[i], at)
  {
    hide Residue, MarkedAtClose, ValueOf, GainOf;
    if positions != [] {
      var front, last := positions[..|positions| - 1], positions[|positions| - 1];
      assert last in positions && forall p :: p in front ==> p in positions;
      ResidueAtClose(last, marks[last.symbol], at);
      ResiduesAtCloses(front, marks, at);
      assert Residues(positions, marks, at)[..|front|] == Residues(front, marks, at);
      assert ClosesIn(positions, marks)[..|front|] == ClosesIn(front, marks);
    }
  }

  lemma ClosesAreLast(positions: seq<EndPosition>, series: Series, at: int)
    requires OrderedSeries(series) && forall p :: p in positions ==> p.symbol in MarksAsOf(series, at)
    ensures LastCloses(positions, series, at, ClosesIn(positions, MarksAsOf(series, at)))
  {
    forall i | 0 <= i < |positions|
      ensures positions[i].symbol in series
      ensures IsLastClose(series[positions[i].symbol], at, MarksAsOf(series, at)[positions[i].symbol])
    {
      assert positions[i] in positions;
      MarkIsLastClose(series, positions[i].symbol, at);
    }
  }

  lemma SameCloses(positions: seq<EndPosition>, series: Series, at: int, a: seq<real>, b: seq<real>)
    requires LastCloses(positions, series, at, a) && LastCloses(positions, series, at, b)
    ensures a == b
  {
    forall i | 0 <= i < |positions| ensures a[i] == b[i] {
      LastCloseIsUnique(series[positions[i].symbol], at, a[i], b[i]);
    }
  }

  // ---------- The audit ----------

  /** Cash and the positions at the last closes before the final point make up its equity, which is the one
      reported. */
  predicate EquityAt(ev: Evidence, inv: Inventory, closes: seq<real>, capital: real, slack: Slack)
    requires ev.equity != [] && |closes| == |inv.positions|
  {
    var end, allowed := ev.equity[|ev.equity| - 1].value, Max(slack.absolute, RealAbs(capital) * slack.relative);
    && ev.endingEquity.Some? && RealAbs(end - ev.endingEquity.value) <= allowed
    && RealAbs(inv.cash + ValueAt(inv.positions, closes) - end) <= allowed
  }

  /** The audit accepts exactly when cash, exposures and positions are in order and equity is what the
      positions are worth at the last closes before the final point. */
  lemma AcceptsAtLastCloses(ev: Evidence, inv: Inventory, series: Series, capital: real, slack: Slack,
                            closes: seq<real>)
    requires OrderedSeries(series) && ev.equity != []
    requires LastCloses(inv.positions, series, ev.equity[|ev.equity| - 1].at - 1, closes)
    ensures Accepts(ev, inv, series, capital, slack) <==>
      && CashAgrees(ev, inv.cash, capital, slack)
      && ExposuresValid(ev.exposures) && |ev.exposures| == |inv.positions|
      && Ascending(inv.positions) && AllVerified(ev, inv.positions, series, capital, slack)
      && EquityAt(ev, inv, closes, capital, slack)
  {
    hide CashAgrees, ExposuresValid, Ascending, AllVerified, MarkedValue, ValueAt, LastCloses, MarksAsOf, GainAt;
    hide Unrealized, MarkedAtClose, OrderedSeries;
    if AllVerified(ev, inv.positions, series, capital, slack) {
      VerifiedIsMarked(ev, inv.positions, series, capital, slack);
      ResiduesAtCloses(inv.positions, FinalMarks(ev, series), Last(ev.equity).at);
      ClosesAreLast(inv.positions, series, Last(ev.equity).at - 1);
      SameCloses(inv.positions, series, Last(ev.equity).at - 1, closes,
                 ClosesIn(inv.positions, FinalMarks(ev, series)));
    }
  }

  lemma AcceptedParts(ev: Evidence, inv: Inventory, residues: seq<ResidualPosition>, series: Series, capital: real,
                      slack: Slack)
    requires Accepts(ev, inv, series, capital, slack)
    requires Marking(ev, inv.positions, residues, MarkedValue(residues), series, capital, slack)
    ensures ev.equity != [] && AllVerified(ev, inv.positions, series, capital, slack)
    ensures forall p :: p in inv.positions ==> p.symbol in FinalMarks(ev, series)
    ensures FinalMarks(ev, series) == MarksAsOf(series, ev.equity[|ev.equity| - 1].at - 1)
    ensures residues == Residues(inv.positions, FinalMarks(ev, series), ev.equity[|ev.equity| - 1].at)
  {
    hide MarksAsOf, Verified, MarkedValue, Ascending, ExposuresValid;
    VerifiedIsMarked(ev, inv.positions, series, capital, slack);
  }

  /** For every accepted trace on ordered bars: each residual is marked at the close of its symbol's last bar
      before the final point, and final equity is cash plus every quantity at that close. */
  lemma AcceptedIsMarkedToClose(ev: Evidence, inv: Inventory, residues: seq<ResidualPosition>, series: Series,
                                capital: real, slack: Slack)
    returns (closes: seq<real>)
    requires OrderedSeries(series) && Accepts(ev, inv, series, capital, slack)
    requires Marking(ev, inv.positions, residues, MarkedValue(residues), series, capital, slack)
    ensures LastCloses(inv.positions, series, ev.equity[|ev.equity| - 1].at - 1, closes)
    ensures EquityAt(ev, inv, closes, capital, slack)
    ensures |residues| == |inv.positions|
    ensures forall i :: 0 <= i < |residues| ==>
              MarkedAtClose(residues[i], inv.positions[i], closes[i], ev.equity[|ev.equity| - 1].at)
    ensures Unrealized(residues) == GainAt(inv.positions, closes)
  {
    AcceptedParts(ev, inv, residues, series, capital, slack);
    hide *;
    closes := ClosesIn(inv.positions, FinalMarks(ev, series));
    ResiduesAtCloses(inv.positions, FinalMarks(ev, series), ev.equity[|ev.equity| - 1].at);
    ClosesAreLast(inv.positions, series, ev.equity[|ev.equity| - 1].at - 1);
    AcceptsAtLastCloses(ev, inv, series, capital, slack, closes);
  }

  // ---------- Cash and exposures ----------

  /** How far two amounts are apart is within the audit's slack at a scale. */
  predicate Close(a: real, b: real, scale: real, slack: Slack) {
    -Leeway(scale, slack) <= a - b <= Leeway(scale, slack)
  }

  function Leeway(scale: real, slack: Slack): real {
    Max(slack.absolute, RealAbs(scale) * slack.relative)
  }

  /** A reported exposure shows a position: its quantity, at a time of the run, at the last close then. */
  ghost predicate Shows(e: Exposure, p: EndPosition, ev: Evidence, series: Series, capital: real, slack: Slack)
    requires ev.equity != []
  {
    && e in ev.exposures && e.symbol == p.symbol && e.status == UNLIQUIDATED
    && e.quantity.Some? && e.at.Some? && e.mark.Some? && e.value.Some?
    && Close(e.quantity.value, p.quantity, Max(1.0, p.quantity), slack)
    && ev.equity[0].at <= e.at.value <= ev.equity[|ev.equity| - 1].at && e.mark.value > 0.0 && e.value.value > 0.0
    && p.symbol in series
    && (exists close :: IsLastClose(series[p.symbol], e.at.value, close) && close > 0.0
                     && Close(e.mark.value, close, capital, slack))
    && Close(e.value.value, e.quantity.value * e.mark.value, capital, slack)
  }

  lemma ExposedIsShown(p: EndPosition, e: Exposure, ev: Evidence, series: Series, capital: real, slack: Slack)
    requires ev.equity != [] && OrderedSeries(series) && ExposuresValid(ev.exposures)
    requires ExposureOf(ev.exposures, p.symbol, e)
    requires Exposes(e, p, ev.equity[0], Last(ev.equity), series, capital, slack)
    ensures Shows(e, p, ev, series, capital, slack)
  {
    hide Shows, Close, OrderedSeries, MarksAsOf, IsLastClose, EquityNear;
    StatusOf(ev.exposures, p.symbol, e);
    MarkIsLastClose(series, p.symbol, e.at.value);
    MarkedIsShown(p, e, ev, series, capital, slack);
  }

  lemma StatusOf(exposures: seq<Exposure>, symbol: string, e: Exposure)
    requires ExposuresValid(exposures) && ExposureOf(exposures, symbol, e)
    ensures e.status == UNLIQUIDATED
  {
  }

  lemma MarkedIsShown(p: EndPosition, e: Exposure, ev: Evidence, series: Series, capital: real, slack: Slack)
    requires ev.equity != [] && ExposureOf(ev.exposures, p.symbol, e) && e.status == UNLIQUIDATED
    requires Exposes(e, p, ev.equity[0], Last(ev.equity), series, capital, slack) && p.symbol in series
    requires IsLastClose(series[p.symbol], e.at.value, MarksAsOf(series, e.at.value)[p.symbol])
    ensures Shows(e, p, ev, series, capital, slack)
  {
    hide MarksAsOf, Allowed, Leeway, IsLastClose;
    LeewayIsAllowed(Max(1.0, p.quantity), slack);
    LeewayIsAllowed(capital, slack);
  }

  lemma LeewayIsAllowed(scale: real, slack: Slack)
    ensures Leeway(scale, slack) == Allowed(scale, slack)
  {
  }

  /** Of an accepted trace every position is sound and shown by an exposure, and the replayed cash is what the
      ledger last recorded, or the capital if it recorded nothing. */
  lemma AcceptedIsShown(ev: Evidence, inv: Inventory, series: Series, capital: real, slack: Slack)
    requires OrderedSeries(series) && Accepts(ev, inv, series, capital, slack)
    ensures ev.equity != [] && |ev.exposures| == |inv.positions| && inv.cash >= 0.0
    ensures if ev.ledgerCash == [] then Close(capital, inv.cash, capital, slack)
            else
              var recorded := ev.ledgerCash[|ev.ledgerCash| - 1];
              recorded.Some? && Close(recorded.value, inv.cash, capital, slack)
    ensures forall i :: 0 <= i < |inv.positions| ==>
              var p := inv.positions[i];
              && p.quantity > 0.0 && p.entryPrice > 0.0 && p.entryFee >= 0.0
              && exists e :: Shows(e, p, ev, series, capital, slack)
  {
    hide OrderedSeries, MarksAsOf, Exposes, Shows, MarkedValue;
    forall i | 0 <= i < |inv.positions|
      ensures IsSound(inv.positions[i]) && exists e :: Shows(e, inv.positions[i], ev, series, capital, slack)
    {
      var p := inv.positions[i];
      assert Verified(p, ev, series, capital, slack);
      var e :| ExposureOf(ev.exposures, p.symbol, e)
               && Exposes(e, p, ev.equity[0], Last(ev.equity), series, capital, slack);
      ExposedIsShown(p, e, ev, series, capital, slack);
    }
  }
}
