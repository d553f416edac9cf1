/** Point-in-time market data queries: what was known at an instant, where an order could next fill,
    and how a fold's data is cut off. Instants are integer nanoseconds; bar times are integer
    milliseconds. */
module MarketData {
  const NS_PER_MS: int := 1_000_000

  /** The zero time.Time (1 January of year 1), which the program uses for "not set". */
  const ZERO_INSTANT: int := -62_135_596_800 * 1_000 * NS_PER_MS

  datatype Bar = Bar(openTime: int, open: real, high: real, low: real, close: real, volume: real, closeTime: int)
  type Series = map<string, seq<Bar>>

  datatype Option<T> = None | Some(value: T)

  /** time.UnixMilli. */
  function Instant(ms: int): int {
    ms * NS_PER_MS
  }

  /** Time.UnixMilli, which rounds down. */
  function Millis(at: int): int {
    at / NS_PER_MS
  }

  lemma MillisOfInstant(ms: int)
    ensures Millis(Instant(ms)) == ms
  {
  }

  /** The open of the minute that closes at an instant. */
  function MinuteOpen(at: int): int {
    at - 60_000 * NS_PER_MS + NS_PER_MS
  }

  // ---------- Binary search ----------

  /** sort.Search on [i, j): halves the range, trusting f to be false and then true. */
  function Search(i: nat, j: nat, f: nat -> bool): (r: nat)
    requires i <= j
    ensures i <= r <= j
    decreases j - i
  {
    if i == j then i
    else
      var h := (i + j) / 2;
      if f(h) then Search(i, h, f) else Search(h + 1, j, f)
  }

  ghost predicate Monotone(i: nat, j: nat, f: nat -> bool) {
    forall a, b :: i <= a <= b < j && f(a) ==> f(b)
  }

  /** On a monotone predicate the search finds the boundary. */
  lemma SearchFindsBoundary(i: nat, j: nat, f: nat -> bool)
    requires i <= j && Monotone(i, j, f)
    ensures forall k :: i <= k < Search(i, j, f) ==> !f(k)
    ensures forall k :: Search(i, j, f) <= k < j ==> f(k)
    decreases j - i
  {
    if i < j {
      var h := (i + j) / 2;
      if f(h) {
        SearchFindsBoundary(i, h, f);
      } else {
        SearchFindsBoundary(h + 1, j, f);
      }
    }
  }

  function ClosesAfter(bars: seq<Bar>, at: int): nat -> bool {
    (k: nat) => k < |bars| && Instant(bars[k].closeTime) > at
  }

  function OpensAfter(bars: seq<Bar>, at: int): nat -> bool {
    (k: nat) => k < |bars| && Instant(bars[k].openTime) > at
  }

  function OpensFrom(bars: seq<Bar>, at: int): nat -> bool {
    (k: nat) => k < |bars| && Instant(bars[k].openTime) >= at
  }

  /** Number of bars that closed at or before an instant. */
  function CountClosed(bars: seq<Bar>, at: int): (n: nat)
    ensures n <= |bars|
  {
    Search(0, |bars|, ClosesAfter(bars, at))
  }

  /** Index of the first bar that opens after an instant. */
  function FirstOpenAfter(bars: seq<Bar>, at: int): (n: nat)
    ensures n <= |bars|
  {
    Search(0, |bars|, OpensAfter(bars, at))
  }

  /** Index of the first bar that does not open before an instant. */
  function FirstOpenFrom(bars: seq<Bar>, at: int): (n: nat)
    ensures n <= |bars|
  {
    Search(0, |bars|, OpensFrom(bars, at))
  }

  // ---------- Queries ----------

  function Get(series: Series, symbol: string): seq<Bar> {
    if symbol in series then series[symbol] else []
  }

  function BarsAvailableAsOf(bars: seq<Bar>, at: int): seq<Bar> {
    bars[..CountClosed(bars, at)]
  }

  /** The last completed close, if any bar has closed. */
  function MarkOf(bars: seq<Bar>, at: int): Option<real> {
    if CountClosed(bars, at) > 0 then Some(bars[CountClosed(bars, at) - 1].close) else None
  }

  /** Last completed close of each symbol; a symbol with none is absent. */
  function MarksAsOf(series: Series, at: int): map<string, real> {
    map s | s in series && MarkOf(series[s], at).Some? :: MarkOf(series[s], at).value
  }

  /** The bar that opens exactly at an instant. */
  function BarAt(bars: seq<Bar>, at: int): Option<Bar> {
    var index := FirstOpenFrom(bars, Instant(Millis(at)));
    if index < |bars| && Instant(bars[index].openTime) == at then Some(bars[index]) else None
  }

  function TruncateBars(bars: seq<Bar>, end: int): seq<Bar> {
    bars[..FirstOpenFrom(bars, end)]
  }

  function TruncateSeries(series: Series, end: int): Series {
    map s | s in series :: TruncateBars(series[s], end)
  }

  /** The run's execution data and its half-open end. */
  datatype Config = Config(execution: Series, executionRequired: bool, intervalMinutes: int, end: int)

  /** Bars an order fills on; decision bars stand in only when execution bars are optional. */
  function ExecutionBars(config: Config, series: Series, symbol: string): seq<Bar> {
    var bars := Get(config.execution, symbol);
    if |bars| == 0 && !config.executionRequired then Get(series, symbol) else bars
  }

  datatype NextFill = NextFill(at: int, prices: map<string, real>)

  /** The bar one symbol would fill on, if it opens inside the run. */
  function NextFillBar(config: Config, series: Series, symbol: string, signalAt: int): Option<Bar> {
    var bars := ExecutionBars(config, series, symbol);
    var index := FirstOpenAfter(bars, signalAt);
    if index >= |bars| || Instant(bars[index].openTime) >= config.end then None else Some(bars[index])
  }

  function NextFillFrom(config: Config, series: Series, symbols: seq<string>, signalAt: int, acc: NextFill)
    : Option<NextFill>
    decreases |symbols|
  {
    if symbols == [] then if acc.at == ZERO_INSTANT then None else Some(acc)
    else
      match NextFillBar(config, series, symbols[0], signalAt)
      case None => None
      case Some(bar) =>
        var at := Instant(bar.openTime);
        if acc.at != ZERO_INSTANT && acc.at != at then None
        else NextFillFrom(config, series, symbols[1..], signalAt, NextFill(at, acc.prices[symbols[0] := bar.open]))
  }

  /** Common next open of all symbols, with its prices. */
  function NextFillOf(config: Config, series: Series, symbols: seq<string>, signalAt: int): Option<NextFill> {
    NextFillFrom(config, series, symbols, signalAt, NextFill(ZERO_INSTANT, map[]))
  }

  method NextFillPrices(config: Config, series: Series, symbols: seq<string>, signalAt: int)
    returns (at: int, prices: map<string, real>, ok: bool)
    ensures ok <==> NextFillOf(config, series, symbols, signalAt).Some?
    ensures ok ==> NextFillOf(config, series, symbols, signalAt) == Some(NextFill(at, prices))
  {
    at, prices := ZERO_INSTANT, map[];
    for i := 0 to |symbols|
      invariant NextFillOf(config, series, symbols, signalAt)
             == NextFillFrom(config, series, symbols[i..], signalAt, NextFill(at, prices))
    {
      var symbol := symbols[i];
      assert symbols[i..][1..] == symbols[i + 1..];
      var bars := ExecutionBars(config, series, symbol);
      var index := FirstOpenAfter(bars, signalAt);
      if index >= |bars| || Instant(bars[index].openTime) >= config.end {
        return ZERO_INSTANT, map[], false;
      }
      var opens := Instant(bars[index].openTime);
      if at == ZERO_INSTANT {
        at := opens;
      } else if at != opens {
        return ZERO_INSTANT, map[], false;
      }
      prices := prices[symbol := bars[index].open];
    }
    ok := at != ZERO_INSTANT;
  }

  predicate SoundPrices(bar: Bar) {
    && bar.open > 0.0 && bar.high > 0.0 && bar.low > 0.0 && bar.close > 0.0 && bar.volume >= 0.0
    && bar.low <= bar.open <= bar.high && bar.low <= bar.close <= bar.high
  }

  /** A well-formed execution bar of the expected width that closes inside the run. */
  predicate Complete(config: Config, bar: Bar) {
    && config.intervalMinutes > 0 && bar.closeTime == bar.openTime + config.intervalMinutes * 60_000 - 1
    && bar.closeTime < Millis(config.end) && SoundPrices(bar)
  }

  /** The complete execution bar opening at an instant. */
  function SelectedBar(config: Config, symbol: string, at: int): Option<Bar> {
    var bars := Get(config.execution, symbol);
    var index := FirstOpenFrom(bars, at);
    if index < |bars| && Instant(bars[index].openTime) == at && Complete(config, bars[index]) then Some(bars[index])
    else None
  }

  /** Index of the last bar that opens before the end, or -1. */
  function LastOpenBefore(bars: seq<Bar>, end: int): (last: int)
    ensures -1 <= last < |bars|
  {
    if bars == [] then -1
    else if Instant(bars[|bars| - 1].openTime) < end then |bars| - 1
    else LastOpenBefore(bars[..|bars| - 1], end)
  }

  datatype Liquidation = Liquidation(signalAt: int, fillAt: int, prices: map<string, real>)
  datatype LastBar = LastBar(signalAt: int, fillAt: int, open: real)

  /** One symbol's last bar of the run, with the close before it as signal. */
  function LiquidationBar(config: Config, series: Series, symbol: string): Option<LastBar> {
    var bars := ExecutionBars(config, series, symbol);
    var last := LastOpenBefore(bars, config.end);
    if last < 1 || Instant(bars[last].openTime) <= Instant(bars[last - 1].closeTime) then None
    else Some(LastBar(Instant(bars[last - 1].closeTime), Instant(bars[last].openTime), bars[last].open))
  }

  function LiquidationFrom(config: Config, series: Series, symbols: seq<string>, acc: Liquidation): Option<Liquidation>
    decreases |symbols|
  {
    if symbols == [] then Some(acc)
    else
      match LiquidationBar(config, series, symbols[0])
      case None => None
      case Some(bar) =>
        if acc.fillAt != ZERO_INSTANT && (acc.fillAt != bar.fillAt || acc.signalAt != bar.signalAt) then None
        else
          LiquidationFrom(config, series, symbols[1..],
                          Liquidation(bar.signalAt, bar.fillAt, acc.prices[symbols[0] := bar.open]))
  }

  /** The last bar of the run, common to all held symbols, with the close before it as signal. */
  function LiquidationOf(config: Config, series: Series, symbols: seq<string>): Option<Liquidation> {
    LiquidationFrom(config, series, symbols, Liquidation(ZERO_INSTANT, ZERO_INSTANT, map[]))
  }

  method FinalLiquidationPrices(config: Config, series: Series, symbols: seq<string>) returns (r: Option<Liquidation>)
    ensures r == LiquidationOf(config, series, symbols)
  {
    var signalAt, fillAt, prices := ZERO_INSTANT, ZERO_INSTANT, map[];
    for i := 0 to |symbols|
      invariant LiquidationOf(config, series, symbols)
             == LiquidationFrom(config, series, symbols[i..], Liquidation(signalAt, fillAt, prices))
    {
      assert symbols[i..][1..] == symbols[i + 1..];
      var bars := ExecutionBars(config, series, symbols[i]);
      var last := -1;
      for k := 0 to |bars|
        invariant last == LastOpenBefore(bars[..k], config.end)
      {
        assert bars[..k + 1][..k] == bars[..k];
        if Instant(bars[k].openTime) < config.end {
          last := k;
        }
      }
      assert bars[..|bars|] == bars;
      if last < 1 {
        return None;
      }
      var candidateFill, candidateSignal := Instant(bars[last].openTime), Instant(bars[last - 1].closeTime);
      if candidateFill <= candidateSignal {
        return None;
      }
      if fillAt == ZERO_INSTANT {
        fillAt, signalAt := candidateFill, candidateSignal;
      } else if fillAt != candidateFill || signalAt != candidateSignal {
        return None;
      }
      prices := prices[symbols[i] := bars[last].open];
    }
    r := Some(Liquidation(signalAt, fillAt, prices));
  }
}
