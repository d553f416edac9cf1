/** The all-or-none volume cap of execution policy v4. The broker cancels an order that asks for more
    than a tenth of the selected bar's volume; the fill audit and the no-fill audit each work the cap
    out again. They agree on every order. */
module VolumeCap {
  import opened Rounding
  import opened DecimalText
  import opened MarketData
  import Replay

  // ---------- The cap ----------

  /** Units of an input that has at most 18 decimal places. */
  function InputDecimal(value: real): Option<int> {
    var units := (value * UNIT as real).Floor;
    if units as real == value * UNIT as real then Some(units) else None
  }

  /** The number a decimal text stands for. */
  function Amount(text: string): Option<real> {
    match Parse(text)
    case Parsed(units) => Some(units as real / UNIT as real)
    case Failed(_) => None
  }

  /** Units of a tenth of v, rounded down to whole steps. */
  function CapUnits(v: nat, step: nat): nat
    requires step > 0
  {
    var lots: nat := v / (10 * step);
    lots * step
  }

  /** A tenth of the volume, rounded down to whole lots, as text. */
  function VolumeCap(volume: real, lot: real): Option<string> {
    if volume < 0.0 || lot <= 0.0 then None
    else
      match (InputDecimal(volume), InputDecimal(lot))
      case (Some(v), Some(step)) => if v >= 0 && step > 0 then Some(PrintMagnitude(CapUnits(v, step))) else None
      case _ => None
  }

  function Lots(k: nat, lot: real): real {
    k as real * lot
  }

  ghost predicate IsGreatestMultiple(c: real, lot: real, limit: real) {
    && (exists k: nat :: c == Lots(k, lot))
    && c <= limit
    && (forall k: nat :: Lots(k, lot) <= limit ==> Lots(k, lot) <= c)
  }

  lemma PrintedAmount(units: nat)
    ensures Amount(PrintMagnitude(units)) == Some(units as real / UNIT as real)
  {
    ParseOfPrint(units);
  }

  lemma ScaleUnits(value: real, units: int)
    requires units as real == value * UNIT as real
    ensures units as real / UNIT as real == value
    ensures value >= 0.0 ==> units >= 0
    ensures value > 0.0 ==> units > 0
  {
  }

  lemma MultipleUnits(k: int, step: int, lot: real)
    requires step as real == lot * UNIT as real
    ensures (k * step) as real / UNIT as real == k as real * lot
  {
    var u := UNIT as real;
    assert (k * step) as real == k as real * step as real;
    assert k as real * (lot * u) == k as real * lot * u;
  }

  lemma FloorOfQuotient(v: nat, d: nat)
    requires d > 0
    ensures v / d * d <= v < (v / d + 1) * d
    ensures forall m: nat :: m * d <= v ==> m <= v / d
  {
    forall m: nat | m * d <= v ensures m <= v / d {
      if m > v / d {
        MulLe(v / d + 1, m, d);
      }
    }
  }

  lemma LotsWithin(k: nat, step: nat, lot: real, v: nat, volume: real)
    requires step as real == lot * UNIT as real && v as real == volume * UNIT as real
    ensures Lots(k, lot) <= volume / 10.0 <==> k * (10 * step) <= v
  {
    var u := UNIT as real;
    assert (k * (10 * step)) as real == 10.0 * (k as real * step as real);
    assert k as real * (lot * u) == Lots(k, lot) * u;
  }

  lemma LotsGrow(a: nat, b: nat, lot: real)
    requires a <= b && lot >= 0.0
    ensures Lots(a, lot) <= Lots(b, lot)
  {
    assert 0.0 <= (b - a) as real * lot;
  }

  /** The cap exists exactly for sound inputs of at most 18 places; its text reads back without loss
      as the greatest multiple of the lot within a tenth of the volume. */
  lemma CapIsGreatestMultiple(volume: real, lot: real)
    ensures VolumeCap(volume, lot).Some? <==>
            volume >= 0.0 && lot > 0.0 && InputDecimal(volume).Some? && InputDecimal(lot).Some?
    ensures VolumeCap(volume, lot).Some? ==>
      var cap := Amount(VolumeCap(volume, lot).value);
      cap.Some? && IsGreatestMultiple(cap.value, lot, volume / 10.0)
  {
    if volume >= 0.0 && lot > 0.0 && InputDecimal(volume).Some? && InputDecimal(lot).Some? {
      var v, step := InputDecimal(volume).value, InputDecimal(lot).value;
      ScaleUnits(volume, v);
      ScaleUnits(lot, step);
      CapUnitsAreGreatest(v, step, volume, lot);
      PrintedAmount(CapUnits(v, step));
      assert VolumeCap(volume, lot) == Some(PrintMagnitude(CapUnits(v, step)));
    }
  }

  lemma CapUnitsAreGreatest(v: nat, step: nat, volume: real, lot: real)
    requires step > 0 && lot > 0.0
    requires step as real == lot * UNIT as real && v as real == volume * UNIT as real
    ensures IsGreatestMultiple(CapUnits(v, step) as real / UNIT as real, lot, volume / 10.0)
  {
    var k: nat := v / (10 * step);
    MultipleUnits(k, step, lot);
    assert CapUnits(v, step) as real / UNIT as real == Lots(k, lot);
    FloorOfQuotient(v, 10 * step);
    LotsWithin(k, step, lot, v, volume);
    forall m: nat | Lots(m, lot) <= volume / 10.0 ensures Lots(m, lot) <= Lots(k, lot) {
      LotsWithin(m, step, lot, v, volume);
      LotsGrow(m, k, lot);
    }
  }

  // ---------- Point-in-time constraints ----------

  /** A symbol's trading rules; zero or less means not given. */
  datatype Constraints = Constraints(quantityStep: real, priceTick: real, minQuantity: real, minNotional: real)

  /** Rules looked up by symbol and instant, if a resolver is set, and rules fixed by the policy. */
  datatype Rules = Rules(resolver: Option<(string, int) -> Option<Constraints>>, fixed: map<string, Constraints>,
                         manifestRequired: bool)

  /** A lot and, where given, the tick and minimums. */
  datatype Limits = Limits(lot: real, tick: Option<real>, minimum: Option<real>, minimumNotional: Option<real>)

  const DEFAULT_LOT := 0.000_000_01

  function Given(value: real): Option<real> {
    if value > 0.0 then Some(value) else None
  }

  /** None when the rules are unknown but required, or the resolver fails. */
  function ConstraintValues(rules: Rules, symbol: string, at: int): Option<Limits> {
    if rules.resolver.Some? && rules.resolver.value(symbol, at).None? then None
    else
      var found :=
        if rules.resolver.Some? then rules.resolver.value(symbol, at)
        else if symbol in rules.fixed then Some(rules.fixed[symbol])
        else None;
      match found
      case None => if rules.manifestRequired then None else Some(Limits(DEFAULT_LOT, None, None, None))
      case Some(c) =>
        if rules.manifestRequired && (c.quantityStep <= 0.0 || c.priceTick <= 0.0 || c.minQuantity <= 0.0) then None
        else
          Some(Limits(if c.quantityStep <= 0.0 then DEFAULT_LOT else c.quantityStep, Given(c.priceTick),
                      Given(c.minQuantity), Given(c.minNotional)))
  }

  /** Whatever the rules, a lot that is returned can be divided by; and with a required manifest the
      default lot is never used. */
  lemma LotIsUsable(rules: Rules, symbol: string, at: int)
    requires ConstraintValues(rules, symbol, at).Some?
    ensures ConstraintValues(rules, symbol, at).value.lot > 0.0
    ensures rules.manifestRequired ==>
      var limits := ConstraintValues(rules, symbol, at).value;
      && limits.tick.Some? && limits.minimum.Some?
      && exists c: Constraints :: limits.lot == c.quantityStep
           && (rules.resolver.Some? ==> rules.resolver.value(symbol, at) == Some(c))
           && (rules.resolver.None? ==> symbol in rules.fixed && rules.fixed[symbol] == c)
  {
    var c := if rules.resolver.Some? then rules.resolver.value(symbol, at).value
      else if symbol in rules.fixed then rules.fixed[symbol]
      else Constraints(0.0, 0.0, 0.0, 0.0);
    if rules.manifestRequired {
      assert ConstraintValues(rules, symbol, at).value.lot == c.quantityStep;
    }
  }

  /** The constraints in force for a symbol: the resolver's where there is one, else those of the policy. */
  ghost predicate InForce(rules: Rules, symbol: string, at: int, c: Constraints) {
    if rules.resolver.Some? then rules.resolver.value(symbol, at) == Some(c)
    else symbol in rules.fixed && rules.fixed[symbol] == c
  }

  /** Constraints in force are refused only where the manifest requires a step, a tick and a minimum that they
      lack; their positive figures are the limits, and a missing step is the default lot. */
  lemma LimitsInForce(rules: Rules, symbol: string, at: int, c: Constraints)
    requires InForce(rules, symbol, at, c)
    ensures ConstraintValues(rules, symbol, at).Some? <==>
      (rules.manifestRequired ==> c.quantityStep > 0.0 && c.priceTick > 0.0 && c.minQuantity > 0.0)
    ensures ConstraintValues(rules, symbol, at).Some? ==>
      var limits := ConstraintValues(rules, symbol, at).value;
      && limits.lot == (if c.quantityStep > 0.0 then c.quantityStep else DEFAULT_LOT)
      && limits.tick == (if c.priceTick > 0.0 then Some(c.priceTick) else None)
      && limits.minimum == (if c.minQuantity > 0.0 then Some(c.minQuantity) else None)
      && limits.minimumNotional == (if c.minNotional > 0.0 then Some(c.minNotional) else None)
  {
  }

  /** Without any in force there are only the defaults, and those only if nothing is required or resolved. */
  lemma NothingInForce(rules: Rules, symbol: string, at: int)
    requires forall c :: !InForce(rules, symbol, at, c)
    ensures ConstraintValues(rules, symbol, at)
      == if rules.resolver.None? && !rules.manifestRequired then Some(Limits(DEFAULT_LOT, None, None, None)) else None
  {
    if rules.resolver.Some? && rules.resolver.value(symbol, at).Some? {
      assert InForce(rules, symbol, at, rules.resolver.value(symbol, at).value);
    } else if rules.resolver.None? && symbol in rules.fixed {
      assert InForce(rules, symbol, at, rules.fixed[symbol]);
    }
  }

  // ---------- The three places that use the cap ----------

  /** The cap of a bar, with the lot in force at an instant. */
  function CapAt(rules: Rules, symbol: string, volume: real, at: int): Option<real> {
    match ConstraintValues(rules, symbol, at)
    case None => None
    case Some(limits) =>
      match VolumeCap(volume, limits.lot)
      case None => None
      case Some(text) => Amount(text)
  }

  datatype Decision = Failed | Cancelled(evaluatedAt: int) | PassedOn

  /** What the v4 broker does with an approved order once it sees the selected bar. */
  function BrokerDecides(config: Config, rules: Rules, symbol: string, selectedOpen: int, approved: real): Decision {
    match SelectedBar(config, symbol, selectedOpen)
    case None => Decision.Failed
    case Some(bar) =>
      match CapAt(rules, symbol, bar.volume, Instant(bar.closeTime))
      case None => Decision.Failed
      case Some(cap) => if approved > cap then Cancelled(Instant(bar.closeTime)) else PassedOn
  }

  /** A sound one-minute bar that closes at an instant. */
  predicate MinuteBar(bar: Bar, closesAt: int) {
    bar.closeTime == Millis(closesAt) && bar.closeTime == bar.openTime + 60_000 - 1 && SoundPrices(bar)
  }

  /** The no-fill audit's capacity check on a cancelled order. */
  predicate NoFillCapacity(execution: Series, rules: Rules, symbol: string, selectedOpen: int, evaluatedAt: int,
                           approved: real)
  {
    match BarAt(MarketData.Get(execution, symbol), selectedOpen)
    case None => false
    case Some(bar) =>
      && MinuteBar(bar, evaluatedAt)
      && var cap := CapAt(rules, symbol, bar.volume, evaluatedAt); cap.Some? && approved > cap.value
  }

  /** The fill audit's capacity check on an order filled at an instant. */
  predicate FillCapacity(execution: Series, rules: Rules, symbol: string, at: int, approved: real, filled: real) {
    match BarAt(MarketData.Get(execution, symbol), MinuteOpen(at))
    case None => false
    case Some(bar) =>
      && bar.volume > 0.0 && MinuteBar(bar, at)
      && var cap := CapAt(rules, symbol, bar.volume, at); cap.Some? && approved <= cap.value && filled <= cap.value
  }

  // ---------- They agree ----------

  lemma SelectedIsBarAt(config: Config, symbol: string, at: int)
    requires SelectedBar(config, symbol, at).Some?
    ensures BarAt(MarketData.Get(config.execution, symbol), at) == SelectedBar(config, symbol, at)
  {
    var bar := SelectedBar(config, symbol, at).value;
    MillisOfInstant(bar.openTime);
  }

  /** Without volume nothing can fill. */
  lemma NoVolumeNoCap(rules: Rules, symbol: string, at: int)
    requires CapAt(rules, symbol, 0.0, at).Some?
    ensures CapAt(rules, symbol, 0.0, at).value <= 0.0
  {
    CapIsGreatestMultiple(0.0, ConstraintValues(rules, symbol, at).value.lot);
  }

  /** For every order on a minute bar the broker can select, exactly one audit's capacity check can
      hold: the no-fill audit's if the broker cancels, the fill audit's if it passes the order on. If
      the broker cannot work out a cap, neither holds. */
  lemma AuditsAgreeWithBroker(config: Config, rules: Rules, symbol: string, selectedOpen: int, approved: real)
    requires config.intervalMinutes == 1 && approved > 0.0
    requires SelectedBar(config, symbol, selectedOpen).Some?
    ensures var closesAt := Instant(SelectedBar(config, symbol, selectedOpen).value.closeTime);
      var decision := BrokerDecides(config, rules, symbol, selectedOpen, approved);
      && (decision.Cancelled? <==> NoFillCapacity(config.execution, rules, symbol, selectedOpen, closesAt, approved))
      && (decision.PassedOn? <==> FillCapacity(config.execution, rules, symbol, closesAt, approved, approved))
      && (decision.Failed? <==>
            CapAt(rules, symbol, SelectedBar(config, symbol, selectedOpen).value.volume, closesAt).None?)
      && (decision.Cancelled? ==> decision.evaluatedAt == closesAt)
      && MinuteOpen(closesAt) == selectedOpen
  {
    var bar := SelectedBar(config, symbol, selectedOpen).value;
    SelectedIsBarAt(config, symbol, selectedOpen);
    CompleteMinute(config, symbol, selectedOpen);
    AuditsOnBar(config.execution, rules, symbol, selectedOpen, Instant(bar.closeTime), bar, approved);
  }

  /** Each audit sides with the broker's decision on a selected bar. */
  predicate Agree(config: Config, rules: Rules, symbol: string, selectedOpen: int, approved: real)
    requires SelectedBar(config, symbol, selectedOpen).Some?
  {
    var closesAt := Instant(SelectedBar(config, symbol, selectedOpen).value.closeTime);
    var decision := BrokerDecides(config, rules, symbol, selectedOpen, approved);
    && (decision.Cancelled? <==> NoFillCapacity(config.execution, rules, symbol, selectedOpen, closesAt, approved))
    && (decision.PassedOn? <==> FillCapacity(config.execution, rules, symbol, closesAt, approved, approved))
  }

  /** Each bar has a width and closes before the next opens. */
  ghost predicate Separate(bars: seq<Bar>) {
    && (forall i :: 0 <= i < |bars| ==> bars[i].openTime < bars[i].closeTime)
    && (forall i, j :: 0 <= i < j < |bars| ==> bars[i].closeTime < bars[j].openTime)
  }

  /** The audits insist on one-minute bars while the broker takes whatever interval is configured: on
      data without overlaps they agree with it exactly when that interval is one minute. */
  lemma AgreementIffMinuteBars(config: Config, rules: Rules, symbol: string, selectedOpen: int, approved: real)
    requires approved > 0.0 && Separate(MarketData.Get(config.execution, symbol))
    requires SelectedBar(config, symbol, selectedOpen).Some?
    requires var bar := SelectedBar(config, symbol, selectedOpen).value;
      CapAt(rules, symbol, bar.volume, Instant(bar.closeTime)).Some?
    ensures Agree(config, rules, symbol, selectedOpen, approved) <==> config.intervalMinutes == 1
  {
    hide BrokerDecides, NoFillCapacity, FillCapacity, SelectedBar, Separate, CapAt;
    if config.intervalMinutes == 1 {
      AuditsAgreeWithBroker(config, rules, symbol, selectedOpen, approved);
    } else {
      WideBarIsRefused(config, rules, symbol, selectedOpen, approved);
      DecidesWithCap(config, rules, symbol, selectedOpen, approved);
    }
  }

  lemma DecidesWithCap(config: Config, rules: Rules, symbol: string, selectedOpen: int, approved: real)
    requires SelectedBar(config, symbol, selectedOpen).Some?
    requires var bar := SelectedBar(config, symbol, selectedOpen).value;
      CapAt(rules, symbol, bar.volume, Instant(bar.closeTime)).Some?
    ensures !BrokerDecides(config, rules, symbol, selectedOpen, approved).Failed?
  {
  }

  lemma WideBarIsRefused(config: Config, rules: Rules, symbol: string, selectedOpen: int, approved: real)
    requires config.intervalMinutes != 1 && Separate(MarketData.Get(config.execution, symbol))
    requires SelectedBar(config, symbol, selectedOpen).Some?
    ensures var closesAt := Instant(SelectedBar(config, symbol, selectedOpen).value.closeTime);
      && !NoFillCapacity(config.execution, rules, symbol, selectedOpen, closesAt, approved)
      && !FillCapacity(config.execution, rules, symbol, closesAt, approved, approved)
  {
    var bars := MarketData.Get(config.execution, symbol);
    var bar := SelectedBar(config, symbol, selectedOpen).value;
    var closesAt := Instant(bar.closeTime);
    SelectedIsBarAt(config, symbol, selectedOpen);
    OneBarPerClose(bars);
  }

  lemma OneBarPerClose(bars: seq<Bar>)
    requires Separate(bars)
    ensures forall a, b :: a in bars && b in bars && a.closeTime == b.closeTime ==> a == b
  {
  }

  /** Both audits' checks on a bar they have found. */
  lemma AuditsOnBar(execution: Series, rules: Rules, symbol: string, opensAt: int, closesAt: int, bar: Bar,
                    approved: real)
    requires BarAt(MarketData.Get(execution, symbol), opensAt) == Some(bar)
    requires MinuteBar(bar, closesAt) && MinuteOpen(closesAt) == opensAt && approved > 0.0
    ensures var cap := CapAt(rules, symbol, bar.volume, closesAt);
      && (NoFillCapacity(execution, rules, symbol, opensAt, closesAt, approved) <==> cap.Some? && approved > cap.value)
      && (FillCapacity(execution, rules, symbol, closesAt, approved, approved) <==> cap.Some? && approved <= cap.value)
  {
    if bar.volume == 0.0 && CapAt(rules, symbol, 0.0, closesAt).Some? {
      NoVolumeNoCap(rules, symbol, closesAt);
    }
  }

  lemma CompleteMinute(config: Config, symbol: string, selectedOpen: int)
    requires config.intervalMinutes == 1 && SelectedBar(config, symbol, selectedOpen).Some?
    ensures var bar := SelectedBar(config, symbol, selectedOpen).value;
      && MinuteBar(bar, Instant(bar.closeTime)) && bar.volume >= 0.0
      && MinuteOpen(Instant(bar.closeTime)) == selectedOpen
  {
    MillisOfInstant(SelectedBar(config, symbol, selectedOpen).value.closeTime);
  }

  lemma BarOpens(bars: seq<Bar>, at: int)
    requires BarAt(bars, at).Some?
    ensures Instant(BarAt(bars, at).value.openTime) == at
  {
  }

  /** Two bars found at their opens that close in the same minute are one bar. */
  lemma SameMinuteSameBar(bars: seq<Bar>, first: int, second: int, closesAt: int)
    requires BarAt(bars, first).Some? && BarAt(bars, second).Some?
    requires MinuteBar(BarAt(bars, first).value, closesAt) && MinuteBar(BarAt(bars, second).value, closesAt)
    ensures first == second
  {
    BarOpens(bars, first);
    BarOpens(bars, second);
  }

  /** Whatever bars and instants they look at: where the no-fill audit accepts a cancellation, the
      fill audit refuses every fill of that order at the same instant. */
  lemma AuditsExclude(execution: Series, rules: Rules, symbol: string, selectedOpen: int, evaluatedAt: int,
                      approved: real, filled: real)
    requires NoFillCapacity(execution, rules, symbol, selectedOpen, evaluatedAt, approved)
    ensures !FillCapacity(execution, rules, symbol, evaluatedAt, approved, filled)
  {
    if FillCapacity(execution, rules, symbol, evaluatedAt, approved, filled) {
      SameMinuteSameBar(MarketData.Get(execution, symbol), selectedOpen, MinuteOpen(evaluatedAt), evaluatedAt);
      assert false;
    }
  }

  // ---------- The zero-volume rule of v3 ----------

  /** What the v3 broker does with an approved order once it sees the selected bar, which it fills at its
      open. */
  function BrokerDecidesV3(config: Config, symbol: string, selectedOpen: int): Decision {
    match SelectedBar(config, symbol, selectedOpen)
    case None => Decision.Failed
    case Some(bar) => if bar.volume == 0.0 then Cancelled(Instant(bar.closeTime)) else PassedOn
  }

  /** The no-fill audit's check that the bar of a cancelled order traded nothing. */
  predicate NoTrades(execution: Series, symbol: string, selectedOpen: int, evaluatedAt: int) {
    match BarAt(MarketData.Get(execution, symbol), selectedOpen)
    case None => false
    case Some(bar) => MinuteBar(bar, evaluatedAt) && bar.volume == 0.0
  }

  /** The replay's check that the bar of a fill traded. */
  predicate Traded(execution: Series, symbol: string, at: int) {
    match BarAt(MarketData.Get(execution, symbol), at)
    case None => false
    case Some(bar) => bar.volume > 0.0
  }

  /** On a bar the v3 broker can select it cancels exactly where the no-fill audit finds no trades, on minute
      bars, and passes the order on exactly where the replay takes a fill. */
  lemma V3AuditsAgreeWithBroker(config: Config, symbol: string, selectedOpen: int)
    requires SelectedBar(config, symbol, selectedOpen).Some?
    ensures var closesAt := Instant(SelectedBar(config, symbol, selectedOpen).value.closeTime);
      var decision := BrokerDecidesV3(config, symbol, selectedOpen);
      && (decision.PassedOn? <==> Traded(config.execution, symbol, selectedOpen))
      && (NoTrades(config.execution, symbol, selectedOpen, closesAt) <==>
            decision.Cancelled? && config.intervalMinutes == 1)
      && (decision.Cancelled? ==> decision.evaluatedAt == closesAt)
  {
    SelectedIsBarAt(config, symbol, selectedOpen);
    MillisOfInstant(SelectedBar(config, symbol, selectedOpen).value.closeTime);
  }

  /** Where an order was cancelled for want of trades the v3 replay admits no fill. */
  lemma NoTradesNoFill(st: Replay.State, f: Replay.FillArtifact, ctx: Replay.Context, evaluatedAt: int)
    requires !ctx.policy.V4? && NoTrades(ctx.execution, f.symbol, f.at, evaluatedAt)
    ensures Replay.Admit(st, f, ctx).Denied?
  {
    assert Replay.FillBar(ctx, f) == BarAt(MarketData.Get(ctx.execution, f.symbol), f.at);
  }

  // ---------- Whole replays under v4 ----------

  /** The v4 admission rule of the fill replay: an order fills once, its other bindings hold, and it
      fits the cap. */
  function Admission(rules: Rules, binding: (Replay.FillArtifact, Bar) -> bool)
    : (set<string>, Replay.FillArtifact, Bar) -> bool
  {
    (orders: set<string>, f: Replay.FillArtifact, bar: Bar) =>
      f.orderId !in orders && binding(f, bar) && FitsCap(rules, f, bar)
  }

  predicate FitsCap(rules: Rules, f: Replay.FillArtifact, bar: Bar) {
    && MinuteBar(bar, f.at)
    && var cap := CapAt(rules, f.symbol, bar.volume, f.at); cap.Some? && f.quantity <= cap.value
  }

  /** The fill takes at most a tenth of its bar, in whole lots' worth. */
  predicate TakesAtMostATenth(f: Replay.FillArtifact, ctx: Replay.Context) {
    var bar := Replay.FillBar(ctx, f);
    bar.Some? && f.quantity <= bar.value.volume / 10.0
  }

  lemma AdmittedFillFits(st: Replay.State, f: Replay.FillArtifact, ctx: Replay.Context, rules: Rules,
                         binding: (Replay.FillArtifact, Bar) -> bool)
    requires ctx.policy == Replay.V4(Admission(rules, binding)) && Replay.Admit(st, f, ctx).Next?
    ensures TakesAtMostATenth(f, ctx) && f.orderId !in st.filledOrders
    ensures Replay.Admit(st, f, ctx).state.filledOrders == st.filledOrders + {f.orderId}
  {
    var bar := Replay.FillBar(ctx, f).value;
    assert Admission(rules, binding)(st.filledOrders, f, bar) && FitsCap(rules, f, bar);
    CapIsGreatestMultiple(bar.volume, ConstraintValues(rules, f.symbol, f.at).value.lot);
  }

  lemma ReplayKeepsOrders(st: Replay.State, f: Replay.FillArtifact, ctx: Replay.Context)
    requires Replay.ReplayOne(st, f, ctx).Next?
    ensures Replay.Admit(st, f, ctx).Next?
    ensures Replay.ReplayOne(st, f, ctx).state.filledOrders == Replay.Admit(st, f, ctx).state.filledOrders
  {
  }

  /** No fill takes more than a tenth of its minute's volume and no order fills twice, or at all if it
      is among those given. */
  ghost predicate RespectsCap(orders: set<string>, fills: seq<Replay.FillArtifact>, ctx: Replay.Context) {
    && (forall i :: 0 <= i < |fills| ==> TakesAtMostATenth(fills[i], ctx) && fills[i].orderId !in orders)
    && (forall i, j :: 0 <= i < j < |fills| ==> fills[i].orderId != fills[j].orderId)
  }

  lemma RespectsMore(orders: set<string>, f: Replay.FillArtifact, rest: seq<Replay.FillArtifact>, ctx: Replay.Context)
    requires RespectsCap(orders + {f.orderId}, rest, ctx) && TakesAtMostATenth(f, ctx) && f.orderId !in orders
    ensures RespectsCap(orders, [f] + rest, ctx)
  {
  }

  lemma FirstFillFits(st: Replay.State, fills: seq<Replay.FillArtifact>, ctx: Replay.Context, rules: Rules,
                      binding: (Replay.FillArtifact, Bar) -> bool)
    returns (next: Replay.State)
    requires ctx.policy == Replay.V4(Admission(rules, binding))
    requires fills != [] && Replay.ReplayFrom(st, fills, ctx).Next?
    ensures TakesAtMostATenth(fills[0], ctx) && fills[0].orderId !in st.filledOrders
    ensures next.filledOrders == st.filledOrders + {fills[0].orderId}
    ensures Replay.ReplayFrom(next, fills[1..], ctx).Next?
  {
    next := Replay.ReplayOne(st, fills[0], ctx).state;
    ReplayKeepsOrders(st, fills[0], ctx);
    AdmittedFillFits(st, fills[0], ctx, rules, binding);
  }

  /** Every replay accepted under v4 respects the cap. */
  lemma {:induction false} AcceptedRunRespectsCap(st: Replay.State, fills: seq<Replay.FillArtifact>,
                                                  ctx: Replay.Context, rules: Rules,
                                                  binding: (Replay.FillArtifact, Bar) -> bool)
    requires ctx.policy == Replay.V4(Admission(rules, binding)) && Replay.ReplayFrom(st, fills, ctx).Next?
    ensures RespectsCap(st.filledOrders, fills, ctx)
    decreases |fills|
  {
    if fills != [] {
      var next := FirstFillFits(st, fills, ctx, rules, binding);
      AcceptedRunRespectsCap(next, fills[1..], ctx, rules, binding);
      RespectsMore(st.filledOrders, fills[0], fills[1..], ctx);
      assert fills == [fills[0]] + fills[1..];
    }
  }
}
