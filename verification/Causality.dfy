/** No look-ahead: cutting the data off at any instant from the end of a run onward changes none of
    the answers the run reads. */
module Causality {
  import opened MarketData

  /** Bars in time order, none of them empty. */
  ghost predicate Ordered(bars: seq<Bar>) {
    && (forall i :: 0 <= i < |bars| ==> bars[i].openTime < bars[i].closeTime)
    && (forall i, j :: 0 <= i < j < |bars| ==>
          bars[i].openTime < bars[j].openTime && bars[i].closeTime <= bars[j].closeTime)
  }

  ghost predicate OrderedSeries(series: Series) {
    forall s :: s in series ==> Ordered(series[s])
  }

  // ---------- What each search finds ----------

  lemma CountClosedMeaning(bars: seq<Bar>, at: int)
    requires Ordered(bars)
    ensures forall k :: 0 <= k < |bars| ==> (k < CountClosed(bars, at) <==> Instant(bars[k].closeTime) <= at)
  {
    var f := ClosesAfter(bars, at);
    SearchFindsBoundary(0, |bars|, f);
    assert forall k: nat :: k < |bars| ==> (f(k) <==> !(Instant(bars[k].closeTime) <= at));
  }

  lemma FirstOpenAfterMeaning(bars: seq<Bar>, at: int)
    requires Ordered(bars)
    ensures forall k :: 0 <= k < |bars| ==> (k < FirstOpenAfter(bars, at) <==> Instant(bars[k].openTime) <= at)
  {
    var f := OpensAfter(bars, at);
    SearchFindsBoundary(0, |bars|, f);
    assert forall k: nat :: k < |bars| ==> (f(k) <==> !(Instant(bars[k].openTime) <= at));
  }

  lemma FirstOpenFromMeaning(bars: seq<Bar>, at: int)
    requires Ordered(bars)
    ensures forall k :: 0 <= k < |bars| ==> (k < FirstOpenFrom(bars, at) <==> Instant(bars[k].openTime) < at)
  {
    var f := OpensFrom(bars, at);
    SearchFindsBoundary(0, |bars|, f);
    assert forall k: nat :: k < |bars| ==> (f(k) <==> !(Instant(bars[k].openTime) < at));
  }

  /** Truncation keeps exactly the bars that open before the cut. */
  lemma TruncateMeaning(bars: seq<Bar>, cut: int)
    requires Ordered(bars)
    ensures TruncateBars(bars, cut) <= bars && Ordered(TruncateBars(bars, cut))
    ensures forall k :: 0 <= k < |bars| ==> (k < |TruncateBars(bars, cut)| <==> Instant(bars[k].openTime) < cut)
  {
    FirstOpenFromMeaning(bars, cut);
  }

  // ---------- Each query, cut and uncut ----------

  lemma CountClosedUnchanged(bars: seq<Bar>, at: int, cut: int)
    requires Ordered(bars) && at < cut
    ensures CountClosed(TruncateBars(bars, cut), at) == CountClosed(bars, at)
  {
    var kept := TruncateBars(bars, cut);
    TruncateMeaning(bars, cut);
    CountClosedMeaning(bars, at);
    CountClosedMeaning(kept, at);
    var n := CountClosed(bars, at);
    assert n > 0 ==> Instant(bars[n - 1].openTime) < cut;
    SameBoundary(n, CountClosed(kept, at), |kept|, (k: nat) => k < |bars| && Instant(bars[k].closeTime) <= at);
  }

  /** Two boundaries of one predicate, both within the same length, coincide. */
  lemma SameBoundary(n: nat, m: nat, length: nat, below: nat -> bool)
    requires n <= length && m <= length
    requires forall k: nat :: k < length ==> (k < n <==> below(k))
    requires forall k: nat :: k < length ==> (k < m <==> below(k))
    ensures n == m
  {
    assert n < length ==> !below(n);
    assert m < length ==> !below(m);
  }

  lemma BarsAvailableUnchanged(bars: seq<Bar>, at: int, cut: int)
    requires Ordered(bars) && at < cut
    ensures BarsAvailableAsOf(TruncateBars(bars, cut), at) == BarsAvailableAsOf(bars, at)
  {
    TruncateMeaning(bars, cut);
    CountClosedUnchanged(bars, at, cut);
  }

  lemma MarkUnchanged(bars: seq<Bar>, at: int, cut: int)
    requires Ordered(bars) && at < cut
    ensures MarkOf(TruncateBars(bars, cut), at) == MarkOf(bars, at)
  {
    CountClosedUnchanged(bars, at, cut);
    TruncateMeaning(bars, cut);
  }

  lemma MarksUnchanged(series: Series, at: int, cut: int)
    requires OrderedSeries(series) && at < cut
    ensures MarksAsOf(TruncateSeries(series, cut), at) == MarksAsOf(series, at)
  {
    forall s | s in series ensures MarkOf(TruncateSeries(series, cut)[s], at) == MarkOf(series[s], at) {
      MarkUnchanged(series[s], at, cut);
    }
  }

  function Cut(config: Config, cut: int): Config {
    config.(execution := TruncateSeries(config.execution, cut))
  }

  lemma GetTruncated(series: Series, symbol: string, cut: int)
    ensures Get(TruncateSeries(series, cut), symbol)
         == if symbol in series then TruncateBars(series[symbol], cut) else []
  {
  }

  /** The cut does not empty a symbol's execution bars where decision bars would then stand in. */
  predicate SourceKept(config: Config, symbol: string, cut: int) {
    var bars := Get(config.execution, symbol);
    config.executionRequired || bars == [] || TruncateBars(bars, cut) != []
  }

  /** Bars that order a symbol's fills, cut and uncut. */
  lemma ExecutionBarsCut(config: Config, series: Series, symbol: string, cut: int)
    requires SourceKept(config, symbol, cut)
    requires OrderedSeries(config.execution) && (config.executionRequired || OrderedSeries(series))
    ensures Ordered(ExecutionBars(config, series, symbol))
    ensures ExecutionBars(Cut(config, cut), TruncateSeries(series, cut), symbol)
         == TruncateBars(ExecutionBars(config, series, symbol), cut)
  {
    GetTruncated(config.execution, symbol, cut);
    GetTruncated(series, symbol, cut);
  }

  lemma NextFillBarUnchanged(config: Config, series: Series, symbol: string, signalAt: int, cut: int)
    requires SourceKept(config, symbol, cut) && config.end <= cut
    requires OrderedSeries(config.execution) && (config.executionRequired || OrderedSeries(series))
    ensures NextFillBar(Cut(config, cut), TruncateSeries(series, cut), symbol, signalAt)
         == NextFillBar(config, series, symbol, signalAt)
  {
    ExecutionBarsCut(config, series, symbol, cut);
    var bars := ExecutionBars(config, series, symbol);
    var kept := TruncateBars(bars, cut);
    TruncateMeaning(bars, cut);
    FirstOpenAfterMeaning(bars, signalAt);
    FirstOpenAfterMeaning(kept, signalAt);
    CutBoundary(bars, kept, FirstOpenAfter(bars, signalAt), FirstOpenAfter(kept, signalAt), OpensAfter(bars, signalAt));
  }

  /** If kept is a prefix of bars and n, m are the first indices satisfying one test in each, then
      they agree, unless the first is beyond the prefix. */
  lemma CutBoundary(bars: seq<Bar>, kept: seq<Bar>, n: nat, m: nat, test: nat -> bool)
    requires kept <= bars && n <= |bars| && m <= |kept|
    requires forall k: nat :: k < |bars| ==> (k < n <==> !test(k))
    requires forall k: nat :: k < |kept| ==> (k < m <==> !test(k))
    ensures if n < |kept| then m == n else m == |kept|
  {
    assert n < |kept| ==> test(n);
    assert m < |kept| ==> test(m);
  }

  lemma NextFillUnchanged(config: Config, series: Series, symbols: seq<string>, signalAt: int, acc: NextFill, cut: int)
    requires config.executionRequired && OrderedSeries(config.execution) && config.end <= cut
    ensures NextFillFrom(Cut(config, cut), TruncateSeries(series, cut), symbols, signalAt, acc)
         == NextFillFrom(config, series, symbols, signalAt, acc)
    decreases |symbols|
  {
    if symbols != [] {
      NextFillBarUnchanged(config, series, symbols[0], signalAt, cut);
      match NextFillBar(config, series, symbols[0], signalAt)
      case None =>
      case Some(bar) =>
        NextFillUnchanged(config, series, symbols[1..], signalAt,
                          NextFill(Instant(bar.openTime), acc.prices[symbols[0] := bar.open]), cut);
    }
  }

  /** A bar that opens after the run cannot close inside it. */
  lemma LateBarIncomplete(config: Config, bar: Bar, cut: int)
    requires config.end <= cut
    ensures Instant(bar.openTime) >= cut ==> !Complete(config, bar)
  {
  }

  lemma SelectedBarUnchanged(config: Config, symbol: string, at: int, cut: int)
    requires OrderedSeries(config.execution) && config.end <= cut
    ensures SelectedBar(Cut(config, cut), symbol, at) == SelectedBar(config, symbol, at)
  {
    GetTruncated(config.execution, symbol, cut);
    var bars := Get(config.execution, symbol);
    FirstOpenFromCut(bars, at, cut);
    if FirstOpenFrom(bars, at) < |bars| {
      LateBarIncomplete(config, bars[FirstOpenFrom(bars, at)], cut);
    }
  }

  lemma FirstOpenFromCut(bars: seq<Bar>, at: int, cut: int)
    requires Ordered(bars)
    ensures var kept := TruncateBars(bars, cut);
      var n, m := FirstOpenFrom(bars, at), FirstOpenFrom(kept, at);
      if n < |kept| then m == n && kept[m] == bars[n]
      else m == |kept| && (n < |bars| ==> Instant(bars[n].openTime) >= cut)
  {
    TruncateMeaning(bars, cut);
    FirstOpenFromMeaning(bars, at);
    FirstOpenFromMeaning(TruncateBars(bars, cut), at);
    CutBoundary(bars, TruncateBars(bars, cut), FirstOpenFrom(bars, at), FirstOpenFrom(TruncateBars(bars, cut), at),
                OpensFrom(bars, at));
  }

  lemma LastOpenBeforeMeaning(bars: seq<Bar>, end: int)
    ensures var last := LastOpenBefore(bars, end);
      && (last >= 0 ==> Instant(bars[last].openTime) < end)
      && forall k :: last < k < |bars| ==> Instant(bars[k].openTime) >= end
  {
  }

  lemma LastOpenBeforeUnchanged(bars: seq<Bar>, end: int, cut: int)
    requires Ordered(bars) && end <= cut
    ensures LastOpenBefore(TruncateBars(bars, cut), end) == LastOpenBefore(bars, end)
  {
    var kept := TruncateBars(bars, cut);
    TruncateMeaning(bars, cut);
    LastOpenBeforeMeaning(bars, end);
    LastOpenBeforeMeaning(kept, end);
    var n, m := LastOpenBefore(bars, end), LastOpenBefore(kept, end);
    if n >= 0 {
      assert n < |kept| && kept[n] == bars[n];
    }
    if m >= 0 {
      assert kept[m] == bars[m];
    }
  }

  lemma LastBarsKept(bars: seq<Bar>, end: int, cut: int)
    requires Ordered(bars) && end <= cut
    ensures var kept, last := TruncateBars(bars, cut), LastOpenBefore(bars, end);
      && LastOpenBefore(kept, end) == last
      && (last >= 0 ==> last < |kept| && kept[last] == bars[last])
      && (last >= 1 ==> kept[last - 1] == bars[last - 1])
  {
    LastOpenBeforeUnchanged(bars, end, cut);
    TruncateMeaning(bars, cut);
  }

  lemma LiquidationBarUnchanged(config: Config, series: Series, symbol: string, cut: int)
    requires SourceKept(config, symbol, cut) && config.end <= cut
    requires OrderedSeries(config.execution) && (config.executionRequired || OrderedSeries(series))
    ensures LiquidationBar(Cut(config, cut), TruncateSeries(series, cut), symbol)
         == LiquidationBar(config, series, symbol)
  {
    hide SourceKept, ExecutionBars, LastOpenBefore, TruncateBars, Ordered;
    ExecutionBarsCut(config, series, symbol, cut);
    LastBarsKept(ExecutionBars(config, series, symbol), config.end, cut);
  }

  lemma LiquidationUnchanged(config: Config, series: Series, symbols: seq<string>, acc: Liquidation, cut: int)
    requires config.executionRequired && OrderedSeries(config.execution) && config.end <= cut
    ensures LiquidationFrom(Cut(config, cut), TruncateSeries(series, cut), symbols, acc)
         == LiquidationFrom(config, series, symbols, acc)
    decreases |symbols|
  {
    if symbols != [] {
      LiquidationBarUnchanged(config, series, symbols[0], cut);
      match LiquidationBar(config, series, symbols[0])
      case None =>
      case Some(bar) =>
        LiquidationUnchanged(config, series, symbols[1..],
                             Liquidation(bar.signalAt, bar.fillAt, acc.prices[symbols[0] := bar.open]), cut);
    }
  }

  /** The run's whole view of the market is the same with and without the data after its end. */
  lemma NoLookAhead(config: Config, series: Series, cut: int)
    requires config.executionRequired && OrderedSeries(config.execution) && OrderedSeries(series)
    requires config.end <= cut
    ensures forall at :: at < config.end ==> MarksAsOf(TruncateSeries(series, cut), at) == MarksAsOf(series, at)
    ensures forall s, at :: s in series && at < config.end ==>
      BarsAvailableAsOf(TruncateBars(series[s], cut), at) == BarsAvailableAsOf(series[s], at)
    ensures forall symbols, signalAt ::
      NextFillOf(Cut(config, cut), TruncateSeries(series, cut), symbols, signalAt)
      == NextFillOf(config, series, symbols, signalAt)
    ensures forall symbol, at :: SelectedBar(Cut(config, cut), symbol, at) == SelectedBar(config, symbol, at)
    ensures forall symbols ::
      LiquidationOf(Cut(config, cut), TruncateSeries(series, cut), symbols) == LiquidationOf(config, series, symbols)
  {
    forall at | at < config.end
      ensures MarksAsOf(TruncateSeries(series, cut), at) == MarksAsOf(series, at)
    {
      MarksUnchanged(series, at, cut);
    }
    forall s, at | s in series && at < config.end
      ensures BarsAvailableAsOf(TruncateBars(series[s], cut), at) == BarsAvailableAsOf(series[s], at)
    {
      BarsAvailableUnchanged(series[s], at, cut);
    }
    forall symbols, signalAt
      ensures NextFillOf(Cut(config, cut), TruncateSeries(series, cut), symbols, signalAt)
           == NextFillOf(config, series, symbols, signalAt)
    {
      NextFillUnchanged(config, series, symbols, signalAt, NextFill(ZERO_INSTANT, map[]), cut);
    }
    forall symbol, at
      ensures SelectedBar(Cut(config, cut), symbol, at) == SelectedBar(config, symbol, at)
    {
      SelectedBarUnchanged(config, symbol, at, cut);
    }
    forall symbols
      ensures LiquidationOf(Cut(config, cut), TruncateSeries(series, cut), symbols)
           == LiquidationOf(config, series, symbols)
    {
      LiquidationUnchanged(config, series, symbols, Liquidation(ZERO_INSTANT, ZERO_INSTANT, map[]), cut);
    }
  }

  // ---------- Where a fill lands ----------

  /** A bar opens at an instant, and none opens between the signal and it. */
  ghost predicate OpensFirst(bars: seq<Bar>, signalAt: int, at: int) {
    exists k :: 0 <= k < |bars| && Instant(bars[k].openTime) == at
      && forall j :: 0 <= j < k ==> Instant(bars[j].openTime) <= signalAt
  }

  lemma NextFillBarMeaning(config: Config, series: Series, symbol: string, signalAt: int)
    requires OrderedSeries(config.execution) && OrderedSeries(series)
    requires NextFillBar(config, series, symbol, signalAt).Some?
    ensures var at := Instant(NextFillBar(config, series, symbol, signalAt).value.openTime);
      signalAt < at < config.end && OpensFirst(ExecutionBars(config, series, symbol), signalAt, at)
  {
    FirstOpenAfterMeaning(ExecutionBars(config, series, symbol), signalAt);
  }

  lemma {:induction false} NextFillIsCausal(config: Config, series: Series, symbols: seq<string>, signalAt: int,
                                            acc: NextFill)
    requires OrderedSeries(config.execution) && OrderedSeries(series) && signalAt >= ZERO_INSTANT
    requires acc.at == ZERO_INSTANT || signalAt < acc.at < config.end
    requires NextFillFrom(config, series, symbols, signalAt, acc).Some?
    ensures var fill := NextFillFrom(config, series, symbols, signalAt, acc).value;
      && signalAt < fill.at < config.end
      && (acc.at != ZERO_INSTANT ==> fill.at == acc.at)
      && forall s :: s in symbols ==> OpensFirst(ExecutionBars(config, series, s), signalAt, fill.at)
    decreases |symbols|
  {
    if symbols != [] {
      NextFillBarMeaning(config, series, symbols[0], signalAt);
      var bar := NextFillBar(config, series, symbols[0], signalAt).value;
      var next := NextFill(Instant(bar.openTime), acc.prices[symbols[0] := bar.open]);
      NextFillIsCausal(config, series, symbols[1..], signalAt, next);
      assert forall s :: s in symbols ==> s == symbols[0] || s in symbols[1..];
    }
  }

  lemma SingleBar(bar: Bar, at: int)
    requires bar.openTime < bar.closeTime
    ensures Ordered([bar])
    ensures FirstOpenAfter([bar], at) == if Instant(bar.openTime) > at then 0 else 1
    ensures TruncateBars([bar], at) == if Instant(bar.openTime) < at then [bar] else []
  {
    FirstOpenAfterMeaning([bar], at);
    FirstOpenFromMeaning([bar], at);
  }

  lemma SingleSymbol(config: Config, series: Series, symbol: string, signalAt: int)
    requires NextFillBar(config, series, symbol, signalAt).Some? ==>
      Instant(NextFillBar(config, series, symbol, signalAt).value.openTime) != ZERO_INSTANT
    ensures NextFillOf(config, series, [symbol], signalAt).Some?
      <==> NextFillBar(config, series, symbol, signalAt).Some?
  {
    assert [symbol][1..] == [];
    var bar := NextFillBar(config, series, symbol, signalAt);
    if bar.Some? {
      var found := NextFill(Instant(bar.value.openTime), map[][symbol := bar.value.open]);
      assert NextFillFrom(config, series, [], signalAt, found).Some?;
    }
  }

  /** Without required execution data the guarantee fails: cutting off a symbol's only execution bar
      makes the query fall back on decision bars it would otherwise ignore. */
  lemma FallbackLooksAhead(end: int) returns (config: Config, series: Series, signalAt: int)
    requires end % NS_PER_MS == 0 && end > ZERO_INSTANT + NS_PER_MS
    ensures OrderedSeries(config.execution) && OrderedSeries(series) && config.end == end && !config.executionRequired
    ensures NextFillOf(Cut(config, end), TruncateSeries(series, end), ["X"], signalAt)
         != NextFillOf(config, series, ["X"], signalAt)
    ensures signalAt < end
  {
    var ms := Millis(end);
    var late, early := Bar(ms, 1.0, 1.0, 1.0, 1.0, 0.0, ms + 1), Bar(ms - 1, 1.0, 1.0, 1.0, 1.0, 0.0, ms);
    config := Config(map["X" := [late]], false, 1, end);
    series := map["X" := [early]];
    signalAt := Instant(ms - 2);
    SingleBar(late, end);
    SingleBar(early, end);
    SingleBar(late, signalAt);
    SingleBar(early, signalAt);
    assert NextFillBar(config, series, "X", signalAt) == None;
    assert NextFillBar(Cut(config, end), TruncateSeries(series, end), "X", signalAt) == Some(early);
    SingleSymbol(config, series, "X", signalAt);
    SingleSymbol(Cut(config, end), TruncateSeries(series, end), "X", signalAt);
  }

  /** The query answers alike with and without the data from cut onward. */
  ghost predicate CutInvisible(config: Config, series: Series, symbols: seq<string>, signalAt: int, cut: int) {
    NextFillOf(Cut(config, cut), TruncateSeries(series, cut), symbols, signalAt)
    == NextFillOf(config, series, symbols, signalAt)
  }

  /** Next fills are blind to data after the run, for all ordered data, exactly when execution data is
      required. */
  lemma NextFillBlindIffRequired(required: bool, end: int)
    requires end % NS_PER_MS == 0 && end > ZERO_INSTANT + NS_PER_MS
    ensures required <==>
      forall config: Config, series: Series, symbols, signalAt, cut
        {:trigger CutInvisible(config, series, symbols, signalAt, cut)} ::
        config.executionRequired == required && config.end == end <= cut
        && OrderedSeries(config.execution) && OrderedSeries(series) ==>
        CutInvisible(config, series, symbols, signalAt, cut)
  {
    if required {
      forall config: Config, series: Series, symbols, signalAt, cut
        | config.executionRequired && config.end == end <= cut
          && OrderedSeries(config.execution) && OrderedSeries(series)
        ensures CutInvisible(config, series, symbols, signalAt, cut)
      {
        NextFillUnchanged(config, series, symbols, signalAt, NextFill(ZERO_INSTANT, map[]), cut);
      }
    } else {
      var config, series, signalAt := FallbackLooksAhead(end);
      assert !CutInvisible(config, series, ["X"], signalAt, end);
    }
  }

  /** Every next fill is strictly after its signal, strictly inside the run, and an opening of every
      symbol, with no earlier opening of any symbol after the signal. */
  lemma NextFillLands(config: Config, series: Series, symbols: seq<string>, signalAt: int)
    requires OrderedSeries(config.execution) && OrderedSeries(series) && signalAt >= ZERO_INSTANT
    requires NextFillOf(config, series, symbols, signalAt).Some?
    ensures var fill := NextFillOf(config, series, symbols, signalAt).value;
      && signalAt < fill.at < config.end
      && forall s :: s in symbols ==> OpensFirst(ExecutionBars(config, series, s), signalAt, fill.at)
  {
    NextFillIsCausal(config, series, symbols, signalAt, NextFill(ZERO_INSTANT, map[]));
  }
}
