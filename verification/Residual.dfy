/** The closing-inventory audit: positions left after the fill replay are matched to the reported
    exposures, marked at the last close before the run's end, and must account for final equity. */
module Residual {
  import opened RealMath
  import opened FiniteSums
  import opened MarketData
  import opened TextOrder

  datatype EndPosition = EndPosition(symbol: string, quantity: real, entryPrice: real, entryFee: real,
                                     entrySlippage: real)
  datatype Inventory = Inventory(cash: real, positions: seq<EndPosition>)

  /** A reported exposure as read back; None is a field that did not parse. */
  datatype Exposure = Exposure(symbol: string, status: string, quantity: Option<real>, at: Option<int>,
                               mark: Option<real>, value: Option<real>)
  datatype EquityPoint = EquityPoint(at: int, value: real)

  /** ledgerCash: the cash recorded after each fill; None is a record that did not parse. */
  datatype Evidence = Evidence(equity: seq<EquityPoint>, fillCount: nat, ledgerCash: seq<Option<real>>,
                               exposures: seq<Exposure>, endingEquity: Option<real>)

  datatype ResidualPosition = ResidualPosition(symbol: string, markedAt: int, quantity: real, costBasis: real,
                                               entryFee: real, markPrice: real, markValue: real, unrealized: real)

  /** Slack of an equity comparison: an absolute part and a part proportional to capital. */
  datatype Slack = Slack(absolute: real, relative: real)

  const UNLIQUIDATED := "marked_unliquidated_no_executable_bar"

  function Allowed(capital: real, slack: Slack): real {
    Max(slack.absolute, RealAbs(capital) * slack.relative)
  }

  predicate EquityNear(a: real, b: real, capital: real, slack: Slack) {
    RealAbs(a - b) <= Allowed(capital, slack)
  }

  // ---------- The order of the inventory ----------

  function Symbols(positions: seq<EndPosition>): (symbols: seq<string>)
    ensures |symbols| == |positions| && forall i :: 0 <= i < |positions| ==> symbols[i] == positions[i].symbol
  {
    seq(|positions|, i requires 0 <= i < |positions| => positions[i].symbol)
  }

  /** Each symbol above the one before it, the first above the empty string. */
  ghost predicate Ascending(positions: seq<EndPosition>) {
    && (forall i :: 0 <= i < |positions| ==> positions[i].symbol != "")
    && (forall i, j :: 0 <= i < j < |positions| && j == i + 1 ==> Less(positions[i].symbol, positions[j].symbol))
  }

  lemma {:induction false} AscendingAcross(positions: seq<EndPosition>, i: nat, j: nat)
    requires Ascending(positions) && i < j < |positions|
    ensures Less(positions[i].symbol, positions[j].symbol)
  {
    if i + 1 < j {
      AscendingAcross(positions, i, j - 1);
      LessIsTransitive(positions[i].symbol, positions[j - 1].symbol, positions[j].symbol);
    }
  }

  lemma AscendingIsDistinct(positions: seq<EndPosition>)
    requires Ascending(positions)
    ensures Distinct(Symbols(positions))
  {
    forall i, j | 0 <= i < j < |positions| ensures positions[i].symbol != positions[j].symbol {
      AscendingAcross(positions, i, j);
      LessIsIrreflexive(positions[i].symbol);
    }
  }

  // ---------- The audit, declaratively ----------

  predicate IsValid(e: Exposure) {
    e.symbol != "" && e.status == UNLIQUIDATED
  }

  predicate ExposuresValid(exposures: seq<Exposure>) {
    && (forall i :: 0 <= i < |exposures| ==> IsValid(exposures[i]))
    && (forall i, j :: 0 <= i < j < |exposures| ==> exposures[i].symbol != exposures[j].symbol)
  }

  ghost predicate ExposureOf(exposures: seq<Exposure>, symbol: string, e: Exposure) {
    e in exposures && e.symbol == symbol
  }

  /** The exposure shows the same quantity, marked and valued at a point of the run. */
  predicate Exposes(e: Exposure, p: EndPosition, first: EquityPoint, end: EquityPoint, series: Series, capital: real,
                    slack: Slack)
  {
    && e.quantity.Some? && e.at.Some? && e.mark.Some? && e.value.Some?
    && EquityNear(e.quantity.value, p.quantity, Max(1.0, p.quantity), slack)
    && e.at.value != ZERO_INSTANT && first.at <= e.at.value <= end.at
    && e.mark.value > 0.0 && e.value.value > 0.0
    && p.symbol in MarksAsOf(series, e.at.value) && MarksAsOf(series, e.at.value)[p.symbol] > 0.0
    && EquityNear(e.mark.value, MarksAsOf(series, e.at.value)[p.symbol], capital, slack)
    && EquityNear(e.value.value, e.quantity.value * e.mark.value, capital, slack)
  }

  predicate IsSound(p: EndPosition) {
    p.quantity > 0.0 && p.entryPrice > 0.0 && p.entryFee >= 0.0
  }

  predicate Marked(p: EndPosition, marks: map<string, real>) {
    p.symbol in marks && marks[p.symbol] > 0.0
  }

  function Residue(p: EndPosition, mark: real, at: int): ResidualPosition {
    var value, basis := p.quantity * mark, p.quantity * p.entryPrice;
    ResidualPosition(p.symbol, at, p.quantity, basis, p.entryFee, mark, value, value - basis - p.entryFee)
  }

  function Residues(positions: seq<EndPosition>, marks: map<string, real>, at: int): (r: seq<ResidualPosition>)
    requires forall p :: p in positions ==> p.symbol in marks
    ensures |r| == |positions|
    ensures forall i :: 0 <= i < |positions| ==> r[i] == Residue(positions[i], marks[positions[i].symbol], at)
  {
    seq(|positions|, i requires 0 <= i < |positions| => Residue(positions[i], marks[positions[i].symbol], at))
  }

  function MarkedValue(residues: seq<ResidualPosition>): real {
    if residues == [] then 0.0
    else MarkedValue(residues[..|residues| - 1]) + residues[|residues| - 1].markValue
  }

  function Unrealized(residues: seq<ResidualPosition>): real {
    if residues == [] then 0.0
    else Unrealized(residues[..|residues| - 1]) + residues[|residues| - 1].unrealized
  }

  /** Cost of the open positions, entry fees included. */
  function OpenCost(positions: seq<EndPosition>): real {
    if positions == [] then 0.0
    else
      var last := positions[|positions| - 1];
      OpenCost(positions[..|positions| - 1]) + (last.quantity * last.entryPrice + last.entryFee)
  }

  function Last(equity: seq<EquityPoint>): EquityPoint
    requires equity != []
  {
    equity[|equity| - 1]
  }

  /** Last closes strictly before the final equity point. */
  function FinalMarks(ev: Evidence, series: Series): map<string, real>
    requires ev.equity != []
  {
    MarksAsOf(series, Last(ev.equity).at - 1)
  }

  /** Cash, equity and ledger records are present, and the replayed cash is the ledger's. */
  predicate CashAgrees(ev: Evidence, cash: real, capital: real, slack: Slack) {
    && ev.equity != [] && cash >= 0.0 && |ev.ledgerCash| == ev.fillCount
    && Last(ev.equity).at != ZERO_INSTANT && Last(ev.equity).value > 0.0
    && (ev.ledgerCash == [] ==> EquityNear(capital, cash, capital, slack))
    && (ev.ledgerCash != [] ==>
          var recorded := ev.ledgerCash[|ev.ledgerCash| - 1];
          recorded.Some? && recorded.value >= 0.0 && EquityNear(recorded.value, cash, capital, slack))
  }

  /** One inventory position is sound, exposed and marked. */
  ghost predicate Verified(p: EndPosition, ev: Evidence, series: Series, capital: real, slack: Slack)
    requires ev.equity != []
  {
    && IsSound(p) && Marked(p, FinalMarks(ev, series))
    && exists e :: ExposureOf(ev.exposures, p.symbol, e)
                && Exposes(e, p, ev.equity[0], Last(ev.equity), series, capital, slack)
  }

  ghost predicate AllVerified(ev: Evidence, positions: seq<EndPosition>, series: Series, capital: real, slack: Slack)
    requires ev.equity != []
  {
    forall i :: 0 <= i < |positions| ==> Verified(positions[i], ev, series, capital, slack)
  }

  lemma VerifiedIsMarked(ev: Evidence, positions: seq<EndPosition>, series: Series, capital: real, slack: Slack)
    requires ev.equity != [] && AllVerified(ev, positions, series, capital, slack)
    ensures forall p :: p in positions ==> p.symbol in FinalMarks(ev, series)
  {
  }

  /** Cash plus marked inventory is the final equity, which is the reported metric. */
  predicate EquityAgrees(ev: Evidence, worth: real, capital: real, slack: Slack)
    requires ev.equity != []
  {
    && ev.endingEquity.Some?
    && EquityNear(worth, Last(ev.equity).value, capital, slack)
    && EquityNear(Last(ev.equity).value, ev.endingEquity.value, capital, slack)
  }

  /** The inventory is in order, every position verified, and together with cash it is the equity. */
  ghost predicate InventoryAgrees(ev: Evidence, inv: Inventory, series: Series, capital: real, slack: Slack)
    requires ev.equity != []
  {
    && Ascending(inv.positions) && AllVerified(ev, inv.positions, series, capital, slack)
    && (VerifiedIsMarked(ev, inv.positions, series, capital, slack);
        var residues := Residues(inv.positions, FinalMarks(ev, series), Last(ev.equity).at);
        EquityAgrees(ev, inv.cash + MarkedValue(residues), capital, slack))
  }

  ghost predicate Accepts(ev: Evidence, inv: Inventory, series: Series, capital: real, slack: Slack) {
    && CashAgrees(ev, inv.cash, capital, slack)
    && ExposuresValid(ev.exposures) && |ev.exposures| == |inv.positions|
    && InventoryAgrees(ev, inv, series, capital, slack)
  }

  // ---------- The audit, as the program runs it ----------

  /** Every listed exposure can be found by its symbol, and nothing else is there. */
  ghost predicate Indexes(indexed: map<string, Exposure>, exposures: seq<Exposure>) {
    && |indexed| == |exposures|
    && (forall i :: 0 <= i < |exposures| ==>
          exposures[i].symbol in indexed && indexed[exposures[i].symbol] == exposures[i])
    && (forall s :: s in indexed ==> indexed[s] in exposures && indexed[s].symbol == s)
  }

  lemma IndexMore(indexed: map<string, Exposure>, exposures: seq<Exposure>, e: Exposure)
    requires Indexes(indexed, exposures) && e.symbol !in indexed
    ensures Indexes(indexed[e.symbol := e], exposures + [e])
  {
  }

  lemma ValidMore(exposures: seq<Exposure>, e: Exposure, indexed: map<string, Exposure>)
    requires ExposuresValid(exposures) && Indexes(indexed, exposures)
    ensures ExposuresValid(exposures + [e]) <==> IsValid(e) && e.symbol !in indexed
  {
    var longer := exposures + [e];
    assert longer[|exposures|] == e;
    if e.symbol in indexed {
      var k :| 0 <= k < |exposures| && exposures[k] == indexed[e.symbol];
      assert longer[k].symbol == longer[|exposures|].symbol;
    }
  }

  lemma PrefixValid(exposures: seq<Exposure>, n: nat)
    requires n <= |exposures|
    ensures ExposuresValid(exposures) ==> ExposuresValid(exposures[..n])
  {
  }

  /** Exposures by symbol, or nothing when one is invalid or repeated. */
  method IndexExposures(exposures: seq<Exposure>) returns (r: Option<map<string, Exposure>>)
    ensures r.Some? <==> ExposuresValid(exposures)
    ensures r.Some? ==> Indexes(r.value, exposures)
  {
    var indexed: map<string, Exposure> := map[];
    for i := 0 to |exposures|
      invariant ExposuresValid(exposures[..i]) && Indexes(indexed, exposures[..i])
    {
      var e := exposures[i];
      assert exposures[..i + 1] == exposures[..i] + [e];
      ValidMore(exposures[..i], e, indexed);
      if e.symbol == "" || e.status != UNLIQUIDATED || e.symbol in indexed {
        PrefixValid(exposures, i + 1);
        return None;
      }
      IndexMore(indexed, exposures[..i], e);
      indexed := indexed[e.symbol := e];
    }
    assert exposures[..|exposures|] == exposures;
    r := Some(indexed);
  }

  /** stage 07 residual primitives. */
  method ResidualPrimitives(ev: Evidence, inv: Inventory, series: Series, capital: real, slack: Slack)
    returns (r: Option<seq<ResidualPosition>>)
    ensures r.Some? <==> Accepts(ev, inv, series, capital, slack)
    ensures r.Some? ==> Marking(ev, inv.positions, r.value, MarkedValue(r.value), series, capital, slack)
  {
    if ev.equity == [] || inv.cash < 0.0 || |ev.ledgerCash| != ev.fillCount {
      return None;
    }
    var end := ev.equity[|ev.equity| - 1];
    if end.at == ZERO_INSTANT || end.value <= 0.0 {
      return None;
    }
    var ledgerCash := capital;
    if |ev.ledgerCash| > 0 {
      var recorded := ev.ledgerCash[|ev.ledgerCash| - 1];
      if recorded.None? || recorded.value < 0.0 {
        return None;
      }
      ledgerCash := recorded.value;
    }
    if !EquityNear(ledgerCash, inv.cash, capital, slack) {
      return None;
    }
    var indexed := IndexExposures(ev.exposures);
    if indexed.None? || |indexed.value| != |inv.positions| {
      return None;
    }
    var ok, positions, markedValue := MarkPositions(ev, indexed.value, inv, series, capital, slack);
    if !ok || ev.endingEquity.None? || !EquityNear(inv.cash + markedValue, end.value, capital, slack)
       || !EquityNear(end.value, ev.endingEquity.value, capital, slack) {
      return None;
    }
    r := Some(positions);
  }

  lemma OneExposure(indexed: map<string, Exposure>, listed: seq<Exposure>, symbol: string)
    requires Indexes(indexed, listed)
    ensures forall e :: ExposureOf(listed, symbol, e) <==> symbol in indexed && e == indexed[symbol]
  {
  }

  /** The checks on one position. */
  method CheckPosition(p: EndPosition, ev: Evidence, exposures: map<string, Exposure>, series: Series, capital: real,
                       slack: Slack)
    returns (ok: bool)
    requires ev.equity != [] && Indexes(exposures, ev.exposures)
    ensures ok <==> Verified(p, ev, series, capital, slack)
  {
    OneExposure(exposures, ev.exposures, p.symbol);
    if !IsSound(p) || p.symbol !in exposures {
      return false;
    }
    var e := exposures[p.symbol];
    if !Exposes(e, p, ev.equity[0], Last(ev.equity), series, capital, slack) {
      return false;
    }
    ok := Marked(p, FinalMarks(ev, series));
  }

  lemma AscendingMore(positions: seq<EndPosition>, p: EndPosition)
    requires Ascending(positions)
    ensures Ascending(positions + [p]) <==>
            p.symbol != "" && (positions != [] ==> Less(positions[|positions| - 1].symbol, p.symbol))
  {
    var longer := positions + [p];
    assert longer[|positions|] == p;
    assert forall i :: 0 <= i < |positions| ==> longer[i] == positions[i];
    assert |positions| > 0 ==> longer[|positions| - 1] == positions[|positions| - 1];
  }

  lemma PrefixSplits(positions: seq<EndPosition>, n: nat)
    requires n < |positions|
    ensures positions[..n + 1] == positions[..n] + [positions[n]]
    ensures LastSymbol(positions[..n + 1]) == positions[n].symbol
  {
  }

  lemma PrefixAscending(positions: seq<EndPosition>, n: nat)
    requires n <= |positions|
    ensures Ascending(positions) ==> Ascending(positions[..n])
  {
  }

  lemma ResidueMore(positions: seq<EndPosition>, p: EndPosition, marks: map<string, real>, at: int)
    requires forall q :: q in positions + [p] ==> q.symbol in marks
    ensures forall q :: q in positions ==> q.symbol in marks
    ensures Residues(positions + [p], marks, at) == Residues(positions, marks, at) + [Residue(p, marks[p.symbol], at)]
    ensures MarkedValue(Residues(positions + [p], marks, at))
         == MarkedValue(Residues(positions, marks, at)) + Residue(p, marks[p.symbol], at).markValue
  {
    assert p in positions + [p];
    forall q | q in positions ensures q.symbol in marks {
      assert q in positions + [p];
    }
    var longer := Residues(positions + [p], marks, at);
    assert longer[..|longer| - 1] == Residues(positions, marks, at);
  }

  /** The inventory processed so far, with its residues and their total. */
  ghost predicate Marking(ev: Evidence, positions: seq<EndPosition>, residues: seq<ResidualPosition>, total: real,
                          series: Series, capital: real, slack: Slack)
    requires ev.equity != []
  {
    && Ascending(positions) && AllVerified(ev, positions, series, capital, slack)
    && (VerifiedIsMarked(ev, positions, series, capital, slack);
        residues == Residues(positions, FinalMarks(ev, series), Last(ev.equity).at))
    && total == MarkedValue(residues)
  }

  lemma MarkingMore(ev: Evidence, positions: seq<EndPosition>, p: EndPosition, residues: seq<ResidualPosition>,
                    total: real, series: Series, capital: real, slack: Slack)
    requires ev.equity != [] && Marking(ev, positions, residues, total, series, capital, slack)
    requires Ascending(positions + [p]) && Verified(p, ev, series, capital, slack)
    ensures p.symbol in FinalMarks(ev, series)
    ensures var residue := Residue(p, FinalMarks(ev, series)[p.symbol], Last(ev.equity).at);
      Marking(ev, positions + [p], residues + [residue], total + residue.markValue, series, capital, slack)
  {
    var longer := positions + [p];
    assert AllVerified(ev, longer, series, capital, slack) by {
      forall i | 0 <= i < |longer| ensures Verified(longer[i], ev, series, capital, slack) {
        assert longer[i] == if i < |positions| then positions[i] else p;
      }
    }
    VerifiedIsMarked(ev, longer, series, capital, slack);
    ResidueMore(positions, p, FinalMarks(ev, series), Last(ev.equity).at);
  }

  function LastSymbol(positions: seq<EndPosition>): string {
    if positions == [] then "" else positions[|positions| - 1].symbol
  }

  /** One pass of the loop: the position must follow those before it and be verified. */
  method TakePosition(ev: Evidence, exposures: map<string, Exposure>, ghost before: seq<EndPosition>,
                      lastSymbol: string, p: EndPosition, residues: seq<ResidualPosition>, total: real, series: Series,
                      capital: real, slack: Slack)
    returns (ok: bool, residue: ResidualPosition)
    requires ev.equity != [] && Indexes(exposures, ev.exposures) && lastSymbol == LastSymbol(before)
    requires Marking(ev, before, residues, total, series, capital, slack)
    ensures ok <==> Ascending(before + [p]) && Verified(p, ev, series, capital, slack)
    ensures ok ==>
      Marking(ev, before + [p], residues + [residue], total + residue.markValue, series, capital, slack)
  {
    residue := Residue(p, 0.0, 0);
    AscendingMore(before, p);
    if p.symbol == "" || !Less(lastSymbol, p.symbol) {
      return false, residue;
    }
    ok := CheckPosition(p, ev, exposures, series, capital, slack);
    if ok {
      MarkingMore(ev, before, p, residues, total, series, capital, slack);
      residue := Residue(p, FinalMarks(ev, series)[p.symbol], Last(ev.equity).at);
    }
  }

  /** A position refused in its place refuses the whole inventory. */
  lemma RefusedAt(ev: Evidence, positions: seq<EndPosition>, i: nat, series: Series, capital: real, slack: Slack)
    requires ev.equity != [] && i < |positions|
    requires !(Ascending(positions[..i] + [positions[i]]) && Verified(positions[i], ev, series, capital, slack))
    ensures !(Ascending(positions) && AllVerified(ev, positions, series, capital, slack))
  {
    PrefixSplits(positions, i);
    PrefixAscending(positions, i + 1);
  }

  /** The loop over the inventory. */
  method MarkPositions(ev: Evidence, exposures: map<string, Exposure>, inv: Inventory, series: Series, capital: real,
                       slack: Slack)
    returns (ok: bool, positions: seq<ResidualPosition>, markedValue: real)
    requires ev.equity != [] && Indexes(exposures, ev.exposures)
    ensures ok <==> Ascending(inv.positions) && AllVerified(ev, inv.positions, series, capital, slack)
    ensures ok ==> Marking(ev, inv.positions, positions, markedValue, series, capital, slack)
  {
    hide Verified;
    positions, markedValue := [], 0.0;
    var lastSymbol := "";
    for i := 0 to |inv.positions|
      invariant Marking(ev, inv.positions[..i], positions, markedValue, series, capital, slack)
      invariant lastSymbol == LastSymbol(inv.positions[..i])
    {
      ghost var before := inv.positions[..i];
      PrefixSplits(inv.positions, i);
      var residue;
      ok, residue := TakePosition(ev, exposures, before, lastSymbol, inv.positions[i], positions, markedValue, series,
                                  capital, slack);
      if !ok {
        RefusedAt(ev, inv.positions, i, series, capital, slack);
        return;
      }
      lastSymbol := inv.positions[i].symbol;
      positions := positions + [residue];
      markedValue := markedValue + residue.markValue;
    }
    assert inv.positions[..|inv.positions|] == inv.positions;
    ok := true;
  }

  // ---------- What acceptance means ----------

  function ExposedSymbols(exposures: seq<Exposure>): (symbols: seq<string>)
    ensures |symbols| == |exposures| && forall i :: 0 <= i < |exposures| ==> symbols[i] == exposures[i].symbol
  {
    seq(|exposures|, i requires 0 <= i < |exposures| => exposures[i].symbol)
  }

  lemma DistinctCount(symbols: seq<string>)
    requires Distinct(symbols)
    ensures |set s | s in symbols| == |symbols|
  {
    if symbols != [] {
      var last, rest := symbols[|symbols| - 1], symbols[..|symbols| - 1];
      DistinctCount(rest);
      assert (set s | s in symbols) == (set s | s in rest) + {last};
    }
  }

  /** Accepted inventories and exposures list exactly the same symbols. */
  lemma ExposuresMatchInventory(ev: Evidence, inv: Inventory, series: Series, capital: real, slack: Slack)
    requires Accepts(ev, inv, series, capital, slack)
    ensures Distinct(Symbols(inv.positions))
    ensures forall s :: s in Symbols(inv.positions) <==> s in ExposedSymbols(ev.exposures)
  {
    AscendingIsDistinct(inv.positions);
    forall i | 0 <= i < |inv.positions| ensures inv.positions[i].symbol in ExposedSymbols(ev.exposures) {
      VerifiedIsExposed(inv.positions[i], ev, series, capital, slack);
    }
    DistinctCover(Symbols(inv.positions), ExposedSymbols(ev.exposures));
  }

  lemma VerifiedIsExposed(p: EndPosition, ev: Evidence, series: Series, capital: real, slack: Slack)
    requires ev.equity != [] && Verified(p, ev, series, capital, slack)
    ensures p.symbol in ExposedSymbols(ev.exposures)
  {
    var e :| ExposureOf(ev.exposures, p.symbol, e);
    var k :| 0 <= k < |ev.exposures| && ev.exposures[k] == e;
    assert ExposedSymbols(ev.exposures)[k] == p.symbol;
  }

  /** Two lists without repeats, of one length, one inside the other, have the same members. */
  lemma DistinctCover(a: seq<string>, b: seq<string>)
    requires Distinct(a) && Distinct(b) && |a| == |b| && forall i :: 0 <= i < |a| ==> a[i] in b
    ensures forall s :: s in a <==> s in b
  {
    DistinctCount(a);
    DistinctCount(b);
    var left, right := set s | s in a, set s | s in b;
    SubsetOfEqualSize(left, right);
    forall s ensures s in a <==> s in b {
      assert s in left <==> s in right;
    }
  }

  /** A marked position is worth its cost plus its unrealized profit. */
  lemma {:induction false} ValueIsCostAndProfit(positions: seq<EndPosition>, marks: map<string, real>, at: int)
    requires forall p :: p in positions ==> p.symbol in marks
    ensures MarkedValue(Residues(positions, marks, at))
         == OpenCost(positions) + Unrealized(Residues(positions, marks, at))
  {
    if positions != [] {
      var front := positions[..|positions| - 1];
      var all := Residues(positions, marks, at);
      ValueIsCostAndProfit(front, marks, at);
      assert all[..|all| - 1] == Residues(front, marks, at);
    }
  }
}
