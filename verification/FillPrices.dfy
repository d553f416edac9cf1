/** Next fills and final liquidations, exactly: when, on which bars and at which prices. Neither depends on
    how a bar trades after it opens. */
module FillPrices {
  import opened Causality
  import opened MarketData

  function SymbolSet(symbols: seq<string>): set<string> {
    set s | s in symbols
  }

  /** Every bar of every symbol opens after the zero time. */
  ghost predicate Dated(config: Config, series: Series, symbols: seq<string>) {
    forall s, k :: s in symbols && 0 <= k < |ExecutionBars(config, series, s)| ==>
      Instant(ExecutionBars(config, series, s)[k].openTime) > ZERO_INSTANT
  }

  lemma BarsAreOrdered(config: Config, series: Series, symbol: string)
    requires OrderedSeries(config.execution) && OrderedSeries(series)
    ensures Ordered(ExecutionBars(config, series, symbol))
  {
  }

  // ---------- Next fills ----------

  /** Bar k is the first to open after the signal; it opens at the instant, at the price. */
  ghost predicate FirstOpens(bars: seq<Bar>, k: nat, signalAt: int, at: int, price: real)
    requires k < |bars|
  {
    && Instant(bars[k].openTime) == at > signalAt && bars[k].open == price
    && forall j :: 0 <= j < k ==> Instant(bars[j].openTime) <= signalAt
  }

  ghost predicate OpensAt(bars: seq<Bar>, signalAt: int, at: int, price: real) {
    exists k :: 0 <= k < |bars| && FirstOpens(bars, k, signalAt, at, price)
  }

  lemma NextFillBarIff(config: Config, series: Series, symbol: string, signalAt: int, at: int, price: real)
    requires OrderedSeries(config.execution) && OrderedSeries(series)
    ensures var found := NextFillBar(config, series, symbol, signalAt);
      at < config.end && OpensAt(ExecutionBars(config, series, symbol), signalAt, at, price)
      <==> found.Some? && Instant(found.value.openTime) == at && found.value.open == price
  {
    var bars := ExecutionBars(config, series, symbol);
    BarsAreOrdered(config, series, symbol);
    FirstOpenAfterMeaning(bars, signalAt);
    var n := FirstOpenAfter(bars, signalAt);
    if n < |bars| {
      assert FirstOpens(bars, n, signalAt, Instant(bars[n].openTime), bars[n].open);
    }
    if OpensAt(bars, signalAt, at, price) {
      var k :| 0 <= k < |bars| && FirstOpens(bars, k, signalAt, at, price);
      assert !(k < n) && !(n < k);
    }
  }

  /** What the loop has found so far is part of what it returns. */
  lemma {:induction false} NextFillKeeps(config: Config, series: Series, symbols: seq<string>, signalAt: int,
                                         acc: NextFill, fill: NextFill)
    requires signalAt >= ZERO_INSTANT && (acc.at == ZERO_INSTANT || acc.at > signalAt)
    requires OrderedSeries(config.execution) && OrderedSeries(series)
    requires NextFillFrom(config, series, symbols, signalAt, acc) == Some(fill)
    ensures acc.at != ZERO_INSTANT ==> fill.at == acc.at
    ensures fill.at > signalAt
    ensures fill.prices.Keys == acc.prices.Keys + SymbolSet(symbols)
    ensures forall s :: s in acc.prices && s !in symbols ==> fill.prices[s] == acc.prices[s]
    ensures forall s :: s in symbols ==>
              var found := NextFillBar(config, series, s, signalAt);
              found.Some? && Instant(found.value.openTime) == fill.at && found.value.open == fill.prices[s]
    decreases |symbols|
  {
    hide NextFillBar;
    if symbols != [] {
      var first, rest := symbols[0], symbols[1..];
      assert forall s :: s in symbols <==> s == first || s in rest;
      var bar := NextFillBar(config, series, first, signalAt).value;
      NextFillBarMeaning(config, series, first, signalAt);
      NextFillKeeps(config, series, rest, signalAt,
                    NextFill(Instant(bar.openTime), acc.prices[first := bar.open]), fill);
    }
  }

  /** The loop finds a fill as soon as all symbols open at one instant. */
  lemma {:induction false} NextFillFound(config: Config, series: Series, symbols: seq<string>, signalAt: int,
                                         acc: NextFill, at: int)
    requires at != ZERO_INSTANT && (acc.at == ZERO_INSTANT || acc.at == at) && (symbols == [] ==> acc.at == at)
    requires forall s :: s in symbols ==>
      var found := NextFillBar(config, series, s, signalAt); found.Some? && Instant(found.value.openTime) == at
    ensures NextFillFrom(config, series, symbols, signalAt, acc).Some?
    decreases |symbols|
  {
    hide NextFillBar;
    if symbols != [] {
      var bar := NextFillBar(config, series, symbols[0], signalAt).value;
      NextFillFound(config, series, symbols[1..], signalAt, NextFill(at, acc.prices[symbols[0] := bar.open]), at);
    }
  }

  /** What a next fill must be: strictly after the signal and inside the run, the first opening of every
      symbol since the signal, with exactly the symbols' opening prices there. */
  ghost predicate IsNextFill(config: Config, series: Series, symbols: seq<string>, signalAt: int, fill: NextFill) {
    && symbols != [] && signalAt < fill.at < config.end
    && fill.prices.Keys == SymbolSet(symbols)
    && forall s :: s in symbols ==> OpensAt(ExecutionBars(config, series, s), signalAt, fill.at, fill.prices[s])
  }

  /** On ordered bars the answer is that fill, and there is no answer exactly when there is no such fill. */
  lemma NextFillIff(config: Config, series: Series, symbols: seq<string>, signalAt: int, fill: NextFill)
    requires OrderedSeries(config.execution) && OrderedSeries(series) && signalAt >= ZERO_INSTANT
    ensures NextFillOf(config, series, symbols, signalAt) == Some(fill)
      <==> IsNextFill(config, series, symbols, signalAt, fill)
  {
    hide OpensAt, NextFillBar, OrderedSeries;
    var start, found := NextFill(ZERO_INSTANT, map[]), NextFillOf(config, series, symbols, signalAt);
    if found == Some(fill) {
      NextFillKeeps(config, series, symbols, signalAt, start, fill);
      InsideRun(config, series, symbols, signalAt, fill);
    }
    if IsNextFill(config, series, symbols, signalAt, fill) {
      forall s | s in symbols
        ensures var bar := NextFillBar(config, series, s, signalAt);
          bar.Some? && Instant(bar.value.openTime) == fill.at && bar.value.open == fill.prices[s]
      {
        NextFillBarIff(config, series, s, signalAt, fill.at, fill.prices[s]);
      }
      NextFillFound(config, series, symbols, signalAt, start, fill.at);
      NextFillKeeps(config, series, symbols, signalAt, start, found.value);
      SameFill(config, series, symbols, signalAt, fill, found.value);
    }
  }

  lemma InsideRun(config: Config, series: Series, symbols: seq<string>, signalAt: int, fill: NextFill)
    requires OrderedSeries(config.execution) && OrderedSeries(series)
    requires NextFillOf(config, series, symbols, signalAt) == Some(fill)
    requires fill.prices.Keys == SymbolSet(symbols)
    requires forall s :: s in symbols ==>
      var bar := NextFillBar(config, series, s, signalAt);
      bar.Some? && Instant(bar.value.openTime) == fill.at && bar.value.open == fill.prices[s]
    ensures symbols != [] && fill.at < config.end
    ensures forall s :: s in symbols ==> OpensAt(ExecutionBars(config, series, s), signalAt, fill.at, fill.prices[s])
  {
    hide OpensAt, NextFillBar, OrderedSeries;
    forall s | s in symbols
      ensures OpensAt(ExecutionBars(config, series, s), signalAt, fill.at, fill.prices[s]) && fill.at < config.end
    {
      NextFillBarIff(config, series, s, signalAt, fill.at, fill.prices[s]);
    }
    assert symbols != [] ==> symbols[0] in symbols;
  }

  lemma SameFill(config: Config, series: Series, symbols: seq<string>, signalAt: int, a: NextFill, b: NextFill)
    requires symbols != [] && a.prices.Keys == b.prices.Keys == SymbolSet(symbols)
    requires forall fill, s :: fill in {a, b} && s in symbols ==>
      var bar := NextFillBar(config, series, s, signalAt);
      bar.Some? && Instant(bar.value.openTime) == fill.at && bar.value.open == fill.prices[s]
    ensures a == b
  {
    hide NextFillBar;
    assert a in {a, b} && b in {a, b} && symbols[0] in symbols;
    forall s | s in a.prices ensures a.prices[s] == b.prices[s] {
      assert s in symbols;
    }
    assert a.prices == b.prices;
  }

  /** Bars that open alike, whatever they do afterwards. */
  ghost predicate OpenAlike(a: seq<Bar>, b: seq<Bar>) {
    |a| == |b| && forall k :: 0 <= k < |a| ==> a[k].openTime == b[k].openTime && a[k].open == b[k].open
  }

  lemma AlikeOpenAt(a: seq<Bar>, b: seq<Bar>, signalAt: int, at: int, price: real)
    requires OpenAlike(a, b) && OpensAt(a, signalAt, at, price)
    ensures OpensAt(b, signalAt, at, price)
  {
    var k :| 0 <= k < |a| && FirstOpens(a, k, signalAt, at, price);
    assert FirstOpens(b, k, signalAt, at, price);
  }

  lemma AlikeIsNextFill(config: Config, series: Series, config': Config, series': Series, symbols: seq<string>,
                        signalAt: int, fill: NextFill)
    requires config'.end == config.end && IsNextFill(config, series, symbols, signalAt, fill)
    requires forall s :: s in symbols ==>
      OpenAlike(ExecutionBars(config, series, s), ExecutionBars(config', series', s))
    ensures IsNextFill(config', series', symbols, signalAt, fill)
  {
    hide OpensAt, OpenAlike, ExecutionBars;
    forall s | s in symbols
      ensures OpensAt(ExecutionBars(config', series', s), signalAt, fill.at, fill.prices[s])
    {
      AlikeOpenAt(ExecutionBars(config, series, s), ExecutionBars(config', series', s), signalAt, fill.at,
                  fill.prices[s]);
    }
  }

  /** A next fill does not depend on highs, lows, closes, volumes or closing times. */
  lemma NextFillIgnoresTrading(config: Config, series: Series, config': Config, series': Series,
                               symbols: seq<string>, signalAt: int)
    requires OrderedSeries(config.execution) && OrderedSeries(series) && signalAt >= ZERO_INSTANT
    requires OrderedSeries(config'.execution) && OrderedSeries(series') && config'.end == config.end
    requires forall s :: s in symbols ==>
      OpenAlike(ExecutionBars(config, series, s), ExecutionBars(config', series', s))
    ensures NextFillOf(config', series', symbols, signalAt) == NextFillOf(config, series, symbols, signalAt)
  {
    hide NextFillOf, IsNextFill, OrderedSeries, ExecutionBars;
    var a, b := NextFillOf(config, series, symbols, signalAt), NextFillOf(config', series', symbols, signalAt);
    if a.Some? {
      NextFillIff(config, series, symbols, signalAt, a.value);
      AlikeIsNextFill(config, series, config', series', symbols, signalAt, a.value);
      NextFillIff(config', series', symbols, signalAt, a.value);
    } else if b.Some? {
      AlikeBack(config, series, config', series', symbols);
      NextFillIff(config', series', symbols, signalAt, b.value);
      AlikeIsNextFill(config', series', config, series, symbols, signalAt, b.value);
      NextFillIff(config, series, symbols, signalAt, b.value);
    }
  }

  lemma AlikeBack(config: Config, series: Series, config': Config, series': Series, symbols: seq<string>)
    requires forall s :: s in symbols ==>
      OpenAlike(ExecutionBars(config, series, s), ExecutionBars(config', series', s))
    ensures forall s :: s in symbols ==>
      OpenAlike(ExecutionBars(config', series', s), ExecutionBars(config, series, s))
  {
    hide ExecutionBars;
  }

  // ---------- The final liquidation ----------

  /** Bar k is the last of the run; it opens at the instant, at the price, after the bar before it closed at
      the signal. */
  ghost predicate LastOpens(bars: seq<Bar>, k: nat, end: int, signalAt: int, at: int, price: real)
    requires 0 < k < |bars|
  {
    && Instant(bars[k].openTime) == at < end && bars[k].open == price
    && Instant(bars[k - 1].closeTime) == signalAt < at
    && forall j :: k < j < |bars| ==> Instant(bars[j].openTime) >= end
  }

  ghost predicate LiquidatesAt(bars: seq<Bar>, end: int, signalAt: int, at: int, price: real) {
    exists k :: 0 < k < |bars| && LastOpens(bars, k, end, signalAt, at, price)
  }

  lemma LiquidationBarIff(config: Config, series: Series, symbol: string, signalAt: int, at: int, price: real)
    ensures LiquidatesAt(ExecutionBars(config, series, symbol), config.end, signalAt, at, price)
      <==> LiquidationBar(config, series, symbol) == Some(LastBar(signalAt, at, price))
  {
    var bars := ExecutionBars(config, series, symbol);
    LastOpenBeforeMeaning(bars, config.end);
    var last := LastOpenBefore(bars, config.end);
    if LiquidatesAt(bars, config.end, signalAt, at, price) {
      var k :| 0 < k < |bars| && LastOpens(bars, k, config.end, signalAt, at, price);
      assert !(last < k) && !(k < last);
    }
    if LiquidationBar(config, series, symbol) == Some(LastBar(signalAt, at, price)) {
      assert LastOpens(bars, last, config.end, signalAt, at, price);
    }
  }

  lemma {:induction false} LiquidationKeeps(config: Config, series: Series, symbols: seq<string>, acc: Liquidation,
                                            found: Liquidation)
    requires Dated(config, series, symbols)
    requires LiquidationFrom(config, series, symbols, acc) == Some(found)
    ensures acc.fillAt != ZERO_INSTANT || symbols == [] ==> found.fillAt == acc.fillAt && found.signalAt == acc.signalAt
    ensures found.prices.Keys == acc.prices.Keys + SymbolSet(symbols)
    ensures forall s :: s in acc.prices && s !in symbols ==> found.prices[s] == acc.prices[s]
    ensures forall s :: s in symbols ==>
              LiquidationBar(config, series, s) == Some(LastBar(found.signalAt, found.fillAt, found.prices[s]))
    decreases |symbols|
  {
    hide ExecutionBars;
    if symbols != [] {
      var first, rest := symbols[0], symbols[1..];
      assert forall s :: s in symbols <==> s == first || s in rest;
      var bar := LiquidationBar(config, series, first).value;
      assert bar.fillAt > ZERO_INSTANT;
      hide LiquidationBar, Dated;
      LiquidationKeeps(config, series, rest,
                       Liquidation(bar.signalAt, bar.fillAt, acc.prices[first := bar.open]), found);
    }
  }

  lemma {:induction false} LiquidationFound(config: Config, series: Series, symbols: seq<string>, acc: Liquidation,
                                            signalAt: int, at: int)
    requires acc.fillAt == ZERO_INSTANT || (acc.fillAt == at && acc.signalAt == signalAt)
    requires forall s :: s in symbols ==>
      var bar := LiquidationBar(config, series, s);
      bar.Some? && bar.value.fillAt == at && bar.value.signalAt == signalAt
    ensures LiquidationFrom(config, series, symbols, acc).Some?
    decreases |symbols|
  {
    hide LiquidationBar;
    if symbols != [] {
      var bar := LiquidationBar(config, series, symbols[0]).value;
      LiquidationFound(config, series, symbols[1..], Liquidation(signalAt, at, acc.prices[symbols[0] := bar.open]),
                       signalAt, at);
    }
  }

  /** What a final liquidation must be: every symbol's last bar of the run opens at one instant, after its bar
      before closed at one signal, with exactly the opening prices there. */
  ghost predicate IsLiquidation(config: Config, series: Series, symbols: seq<string>, found: Liquidation) {
    && found.prices.Keys == SymbolSet(symbols)
    && forall s :: s in symbols ==>
         LiquidatesAt(ExecutionBars(config, series, s), config.end, found.signalAt, found.fillAt, found.prices[s])
  }

  lemma LiquidationIff(config: Config, series: Series, symbols: seq<string>, found: Liquidation)
    requires Dated(config, series, symbols) && symbols != []
    ensures LiquidationOf(config, series, symbols) == Some(found) <==> IsLiquidation(config, series, symbols, found)
  {
    hide Dated, LiquidationBar, LiquidatesAt;
    var start, answer := Liquidation(ZERO_INSTANT, ZERO_INSTANT, map[]), LiquidationOf(config, series, symbols);
    forall s | s in symbols && s in found.prices
      ensures LiquidatesAt(ExecutionBars(config, series, s), config.end, found.signalAt, found.fillAt, found.prices[s])
        <==> LiquidationBar(config, series, s) == Some(LastBar(found.signalAt, found.fillAt, found.prices[s]))
    {
      LiquidationBarIff(config, series, s, found.signalAt, found.fillAt, found.prices[s]);
    }
    if answer == Some(found) {
      LiquidationKeeps(config, series, symbols, start, found);
    }
    if IsLiquidation(config, series, symbols, found) {
      LiquidationFound(config, series, symbols, start, found.signalAt, found.fillAt);
      LiquidationKeeps(config, series, symbols, start, answer.value);
      assert symbols[0] in symbols;
      forall s | s in found.prices ensures found.prices[s] == answer.value.prices[s] {
        assert s in symbols;
      }
      assert found.prices == answer.value.prices;
    }
  }

  /** Bars that open and close at the same times and open at the same prices. */
  ghost predicate TimedAlike(a: seq<Bar>, b: seq<Bar>) {
    OpenAlike(a, b) && forall k :: 0 <= k < |a| ==> a[k].closeTime == b[k].closeTime
  }

  lemma AlikeLiquidates(a: seq<Bar>, b: seq<Bar>, end: int, signalAt: int, at: int, price: real)
    requires TimedAlike(a, b)
    ensures LiquidatesAt(a, end, signalAt, at, price) <==> LiquidatesAt(b, end, signalAt, at, price)
  {
    forall k | 0 < k < |a|
      ensures LastOpens(a, k, end, signalAt, at, price) <==> LastOpens(b, k, end, signalAt, at, price)
    {
      assert a[k - 1].closeTime == b[k - 1].closeTime;
    }
  }

  /** A final liquidation does not depend on highs, lows, closing prices or volumes. */
  lemma LiquidationIgnoresTrading(config: Config, series: Series, config': Config, series': Series,
                                  symbols: seq<string>, found: Liquidation)
    requires Dated(config, series, symbols) && Dated(config', series', symbols) && symbols != []
    requires config'.end == config.end
    requires forall s :: s in symbols ==>
      TimedAlike(ExecutionBars(config, series, s), ExecutionBars(config', series', s))
    ensures LiquidationOf(config', series', symbols) == Some(found) <==>
            LiquidationOf(config, series, symbols) == Some(found)
  {
    hide Dated, LiquidationOf, LiquidatesAt, ExecutionBars, TimedAlike;
    LiquidationIff(config, series, symbols, found);
    LiquidationIff(config', series', symbols, found);
    forall s | s in symbols && s in found.prices
      ensures LiquidatesAt(ExecutionBars(config, series, s), config.end, found.signalAt, found.fillAt, found.prices[s])
        <==> LiquidatesAt(ExecutionBars(config', series', s), config'.end, found.signalAt, found.fillAt,
                          found.prices[s])
    {
      AlikeLiquidates(ExecutionBars(config, series, s), ExecutionBars(config', series', s), config.end, found.signalAt,
                      found.fillAt, found.prices[s]);
    }
  }

  // ---------- Bars known at an instant ----------

  /** The bars available at an instant are exactly those that have closed by it. */
  lemma AvailableHaveClosed(bars: seq<Bar>, at: int, k: nat)
    requires Ordered(bars) && k < |bars|
    ensures BarsAvailableAsOf(bars, at) <= bars
    ensures k < |BarsAvailableAsOf(bars, at)| <==> Instant(bars[k].closeTime) <= at
  {
    CountClosedMeaning(bars, at);
  }

  lemma EndsWithin(closeTime: int, end: int)
    ensures closeTime < Millis(end) <==> Instant(closeTime + 1) <= end
  {
  }

  /** The bar found at an instant is the one that opens there. */
  lemma BarAtIff(bars: seq<Bar>, at: int, bar: Bar)
    requires Ordered(bars)
    ensures BarAt(bars, at) == Some(bar) <==> bar in bars && Instant(bar.openTime) == at
  {
    if at == Instant(Millis(at)) {
      OpenIsUnique(bars, at, bar);
    } else {
      assert forall b :: b in bars ==> Instant(b.openTime) != at by {
        forall b | b in bars ensures Instant(b.openTime) != at {
          MillisOfInstant(b.openTime);
        }
      }
    }
  }

  lemma OpenIsUnique(bars: seq<Bar>, at: int, bar: Bar)
    requires Ordered(bars)
    ensures var n := FirstOpenFrom(bars, at);
      bar in bars && Instant(bar.openTime) == at
      <==> n < |bars| && Instant(bars[n].openTime) == at && bars[n] == bar
  {
    FirstOpenFromMeaning(bars, at);
    var n := FirstOpenFrom(bars, at);
    assert n < |bars| ==> Instant(bars[n].openTime) >= at;
    if bar in bars && Instant(bar.openTime) == at {
      var k :| 0 <= k < |bars| && bars[k] == bar;
      assert forall j :: 0 <= j < k ==> bars[j].openTime < bars[k].openTime && Instant(bars[j].openTime) < at;
      assert n <= k;
    }
  }

  /** A selected bar is one of the symbol's that opens at the instant, as wide as the interval, sound, and
      over when the run ends; it is missing only if no such bar is there. */
  lemma SelectedIff(config: Config, symbol: string, at: int, bar: Bar)
    requires OrderedSeries(config.execution)
    ensures SelectedBar(config, symbol, at) == Some(bar) <==>
      && bar in MarketData.Get(config.execution, symbol) && Instant(bar.openTime) == at
      && config.intervalMinutes > 0 && bar.closeTime == bar.openTime + config.intervalMinutes * 60_000 - 1
      && Instant(bar.closeTime + 1) <= config.end && bar.volume >= 0.0
      && 0.0 < bar.low <= bar.open <= bar.high && bar.low <= bar.close <= bar.high
  {
    hide Complete;
    EndsWithin(bar.closeTime, config.end);
    IsComplete(config, bar);
    OpenIsUnique(MarketData.Get(config.execution, symbol), at, bar);
    var found := SelectedBar(config, symbol, at);
    if found.Some? {
      OpenIsUnique(MarketData.Get(config.execution, symbol), at, found.value);
    }
  }

  lemma IsComplete(config: Config, bar: Bar)
    ensures Complete(config, bar) <==>
      && config.intervalMinutes > 0 && bar.closeTime == bar.openTime + config.intervalMinutes * 60_000 - 1
      && bar.closeTime < Millis(config.end) && bar.volume >= 0.0
      && 0.0 < bar.low <= bar.open <= bar.high && bar.low <= bar.close <= bar.high
  {
  }
}
