/** Optional execution data: when a cut empties a symbol's execution bars its decision bars stand in. For
    which data the cut can then be seen, exactly, by next fills and by the final liquidation. */
module Fallback {
  import opened MarketData
  import opened Causality

  /** Every query's ordered input, and a cut at or after the run's end. */
  ghost predicate CutAfterRun(config: Config, series: Series, cut: int) {
    OrderedSeries(config.execution) && OrderedSeries(series) && config.end <= cut
  }

  // ---------- Next fills ----------

  /** A bar that opens inside the run. */
  ghost predicate OpensInRun(bars: seq<Bar>, end: int) {
    exists k :: 0 <= k < |bars| && ZERO_INSTANT < Instant(bars[k].openTime) < end
  }

  /** The cut takes all of a symbol's execution bars, and a decision bar of the run stands in. */
  ghost predicate FillsFallBack(config: Config, series: Series, symbol: string, cut: int) {
    !SourceKept(config, symbol, cut) && OpensInRun(Get(series, symbol), config.end)
  }

  lemma LostBarsOpenLate(config: Config, symbol: string, cut: int)
    requires OrderedSeries(config.execution) && !SourceKept(config, symbol, cut)
    ensures var bars := Get(config.execution, symbol);
      bars != [] && forall k :: 0 <= k < |bars| ==> Instant(bars[k].openTime) >= cut
  {
    TruncateMeaning(Get(config.execution, symbol), cut);
  }

  /** Without the cut such a symbol has no fill at all; with it, the decision bars decide. */
  lemma LostSource(config: Config, series: Series, symbol: string, signalAt: int, cut: int)
    requires CutAfterRun(config, series, cut) && !SourceKept(config, symbol, cut)
    ensures NextFillBar(config, series, symbol, signalAt) == None
    ensures LiquidationBar(config, series, symbol) == None
    ensures ExecutionBars(Cut(config, cut), TruncateSeries(series, cut), symbol)
         == TruncateBars(Get(series, symbol), cut)
  {
    LostBarsOpenLate(config, symbol, cut);
    LastOpenBeforeMeaning(Get(config.execution, symbol), config.end);
    GetTruncated(config.execution, symbol, cut);
    GetTruncated(series, symbol, cut);
    NothingToTruncate(cut);
  }

  lemma NothingToTruncate(cut: int)
    ensures TruncateBars([], cut) == []
  {
  }

  lemma NextFillBarBlind(config: Config, series: Series, symbol: string, signalAt: int, cut: int)
    requires CutAfterRun(config, series, cut) && !FillsFallBack(config, series, symbol, cut)
    requires signalAt >= ZERO_INSTANT
    ensures NextFillBar(Cut(config, cut), TruncateSeries(series, cut), symbol, signalAt)
         == NextFillBar(config, series, symbol, signalAt)
  {
    if SourceKept(config, symbol, cut) {
      NextFillBarUnchanged(config, series, symbol, signalAt, cut);
    } else {
      LostSource(config, series, symbol, signalAt, cut);
      var kept := TruncateBars(Get(series, symbol), cut);
      TruncateMeaning(Get(series, symbol), cut);
      FirstOpenAfterMeaning(kept, signalAt);
      var n := FirstOpenAfter(kept, signalAt);
      assert n < |kept| ==> Instant(Get(series, symbol)[n].openTime) > signalAt;
    }
  }

  lemma NextFillBlind(config: Config, series: Series, symbols: seq<string>, signalAt: int, acc: NextFill, cut: int)
    requires CutAfterRun(config, series, cut) && signalAt >= ZERO_INSTANT
    requires forall s :: s in symbols ==> !FillsFallBack(config, series, s, cut)
    ensures NextFillFrom(Cut(config, cut), TruncateSeries(series, cut), symbols, signalAt, acc)
         == NextFillFrom(config, series, symbols, signalAt, acc)
    decreases |symbols|
  {
    if symbols != [] {
      NextFillBarBlind(config, series, symbols[0], signalAt, cut);
      match NextFillBar(config, series, symbols[0], signalAt)
      case None =>
      case Some(bar) =>
        NextFillBlind(config, series, symbols[1..], signalAt,
                      NextFill(Instant(bar.openTime), acc.prices[symbols[0] := bar.open]), cut);
    }
  }

  /** Just before a kept bar of the run opens, the search finds a bar of the run. */
  lemma KeptBarIsFound(bars: seq<Bar>, k: nat, end: int, cut: int)
    requires Ordered(bars) && end <= cut && k < |bars| && Instant(bars[k].openTime) < end
    ensures var kept, signalAt := TruncateBars(bars, cut), Instant(bars[k].openTime) - 1;
      var n := FirstOpenAfter(kept, signalAt);
      n < |kept| && signalAt < Instant(kept[n].openTime) < end
  {
    var kept, signalAt := TruncateBars(bars, cut), Instant(bars[k].openTime) - 1;
    TruncateMeaning(bars, cut);
    assert kept[k] == bars[k];
    FirstOpenAfterMeaning(kept, signalAt);
    assert FirstOpenAfter(kept, signalAt) <= k;
  }

  /** Signalled just before a stand-in bar of the run opens, the cut run has a fill. */
  lemma StandInFills(config: Config, series: Series, symbol: string, bars: seq<Bar>, k: nat, cut: int)
    requires Ordered(bars) && config.end <= cut && k < |bars| && Instant(bars[k].openTime) < config.end
    requires ExecutionBars(config, series, symbol) == TruncateBars(bars, cut)
    ensures var signalAt := Instant(bars[k].openTime) - 1;
      var found := NextFillBar(config, series, symbol, signalAt);
      found.Some? && signalAt < Instant(found.value.openTime)
  {
    hide *;
    KeptBarIsFound(bars, k, config.end, cut);
    StandInBar(config, series, symbol, Instant(bars[k].openTime) - 1, TruncateBars(bars, cut));
  }

  lemma SeriesBars(config: Config, series: Series, symbol: string, cut: int)
    requires CutAfterRun(config, series, cut)
    ensures Ordered(Get(series, symbol)) && config.end <= cut && Cut(config, cut).end == config.end
  {
  }

  lemma StandInBar(config: Config, series: Series, symbol: string, signalAt: int, bars: seq<Bar>)
    requires ExecutionBars(config, series, symbol) == bars
    requires var n := FirstOpenAfter(bars, signalAt);
      n < |bars| && signalAt < Instant(bars[n].openTime) < config.end
    ensures var found := NextFillBar(config, series, symbol, signalAt);
      found.Some? && signalAt < Instant(found.value.openTime)
  {
  }

  lemma NextFillSees(config: Config, series: Series, symbol: string, cut: int) returns (signalAt: int)
    requires CutAfterRun(config, series, cut) && FillsFallBack(config, series, symbol, cut)
    ensures signalAt >= ZERO_INSTANT && !CutInvisible(config, series, [symbol], signalAt, cut)
  {
    hide CutAfterRun, SourceKept, NextFillBar, CutInvisible, Ordered, TruncateBars, ExecutionBars;
    var bars := Get(series, symbol);
    var k :| 0 <= k < |bars| && ZERO_INSTANT < Instant(bars[k].openTime) < config.end;
    signalAt := Instant(bars[k].openTime) - 1;
    SeriesBars(config, series, symbol, cut);
    LostSource(config, series, symbol, signalAt, cut);
    StandInFills(Cut(config, cut), TruncateSeries(series, cut), symbol, bars, k, cut);
    SeesOneFill(config, series, symbol, signalAt, cut);
  }

  lemma SeesOneFill(config: Config, series: Series, symbol: string, signalAt: int, cut: int)
    requires NextFillBar(config, series, symbol, signalAt) == None
    requires var found := NextFillBar(Cut(config, cut), TruncateSeries(series, cut), symbol, signalAt);
      found.Some? && Instant(found.value.openTime) != ZERO_INSTANT
    ensures !CutInvisible(config, series, [symbol], signalAt, cut)
  {
    hide NextFillBar, Cut, TruncateSeries;
    SingleSymbol(config, series, symbol, signalAt);
    SingleSymbol(Cut(config, cut), TruncateSeries(series, cut), symbol, signalAt);
  }

  /** Next fills do not see the cut, for any symbols and any signal, exactly when no symbol falls back on
      decision bars of the run. */
  lemma NextFillBlindIff(config: Config, series: Series, cut: int)
    requires CutAfterRun(config, series, cut)
    ensures (forall s :: !FillsFallBack(config, series, s, cut))
      <==> forall symbols, signalAt :: signalAt >= ZERO_INSTANT ==> CutInvisible(config, series, symbols, signalAt, cut)
  {
    if s :| FillsFallBack(config, series, s, cut) {
      var signalAt := NextFillSees(config, series, s, cut);
      assert !CutInvisible(config, series, [s], signalAt, cut);
    } else {
      forall symbols, signalAt | signalAt >= ZERO_INSTANT
        ensures CutInvisible(config, series, symbols, signalAt, cut)
      {
        NextFillBlind(config, series, symbols, signalAt, NextFill(ZERO_INSTANT, map[]), cut);
      }
    }
  }

  // ---------- The final liquidation ----------

  /** Bars a position could be liquidated on: two of them open inside the run, and the last after the one
      before it closed. */
  predicate Liquidates(bars: seq<Bar>, end: int) {
    var last := LastOpenBefore(bars, end);
    last >= 1 && Instant(bars[last].openTime) > Instant(bars[last - 1].closeTime)
  }

  predicate LiquidationFallsBack(config: Config, series: Series, symbol: string, cut: int) {
    !SourceKept(config, symbol, cut) && Liquidates(Get(series, symbol), config.end)
  }

  ghost predicate LiquidationInvisible(config: Config, series: Series, symbols: seq<string>, cut: int) {
    LiquidationOf(Cut(config, cut), TruncateSeries(series, cut), symbols) == LiquidationOf(config, series, symbols)
  }

  lemma LostLiquidation(config: Config, series: Series, symbol: string, cut: int)
    requires CutAfterRun(config, series, cut) && !SourceKept(config, symbol, cut)
    ensures LiquidationBar(config, series, symbol) == None
    ensures LiquidationBar(Cut(config, cut), TruncateSeries(series, cut), symbol).Some?
      <==> Liquidates(Get(series, symbol), config.end)
  {
    LostSource(config, series, symbol, ZERO_INSTANT, cut);
    LastBarsKept(Get(series, symbol), config.end, cut);
  }

  lemma LiquidationBarBlind(config: Config, series: Series, symbol: string, cut: int)
    requires CutAfterRun(config, series, cut) && !LiquidationFallsBack(config, series, symbol, cut)
    ensures LiquidationBar(Cut(config, cut), TruncateSeries(series, cut), symbol)
         == LiquidationBar(config, series, symbol)
  {
    hide LiquidationBar, Liquidates;
    if SourceKept(config, symbol, cut) {
      LiquidationBarUnchanged(config, series, symbol, cut);
    } else {
      LostLiquidation(config, series, symbol, cut);
    }
  }

  lemma LiquidationBlind(config: Config, series: Series, symbols: seq<string>, acc: Liquidation, cut: int)
    requires CutAfterRun(config, series, cut)
    requires forall s :: s in symbols ==> !LiquidationFallsBack(config, series, s, cut)
    ensures LiquidationFrom(Cut(config, cut), TruncateSeries(series, cut), symbols, acc)
         == LiquidationFrom(config, series, symbols, acc)
    decreases |symbols|
  {
    if symbols != [] {
      hide LiquidationBar, LiquidationFallsBack;
      LiquidationBarBlind(config, series, symbols[0], cut);
      match LiquidationBar(config, series, symbols[0])
      case None =>
      case Some(bar) =>
        LiquidationBlind(config, series, symbols[1..],
                         Liquidation(bar.signalAt, bar.fillAt, acc.prices[symbols[0] := bar.open]), cut);
    }
  }

  lemma LiquidationOfOne(config: Config, series: Series, symbol: string)
    ensures LiquidationOf(config, series, [symbol]).Some? <==> LiquidationBar(config, series, symbol).Some?
  {
    assert [symbol][1..] == [];
    var bar := LiquidationBar(config, series, symbol);
    if bar.Some? {
      var found := Liquidation(bar.value.signalAt, bar.value.fillAt, map[][symbol := bar.value.open]);
      assert LiquidationFrom(config, series, [], found).Some?;
    }
  }

  /** The same for the final liquidation: it does not see the cut, whatever is held, exactly when no
      symbol falls back on decision bars it can be liquidated on. */
  lemma LiquidationBlindIff(config: Config, series: Series, cut: int)
    requires CutAfterRun(config, series, cut)
    ensures (forall s :: !LiquidationFallsBack(config, series, s, cut))
      <==> forall symbols :: LiquidationInvisible(config, series, symbols, cut)
  {
    if s :| LiquidationFallsBack(config, series, s, cut) {
      LostLiquidation(config, series, s, cut);
      LiquidationOfOne(config, series, s);
      LiquidationOfOne(Cut(config, cut), TruncateSeries(series, cut), s);
      assert !LiquidationInvisible(config, series, [s], cut);
    } else {
      forall symbols ensures LiquidationInvisible(config, series, symbols, cut) {
        LiquidationBlind(config, series, symbols, Liquidation(ZERO_INSTANT, ZERO_INSTANT, map[]), cut);
      }
    }
  }
}
