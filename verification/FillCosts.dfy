/** Execution prices and fees: how the broker computes them, and how the fill audit re-derives them
    from the bar close. Prices and ticks are integer counts of 10^-18 units; quantities and the
    recorded price and fee are arbitrary rationals, as the audit reads them from text. */
module FillCosts {
  import opened Orders
  import opened Rounding

  const BPS: int := 10_000

  /** A price tick: none, or a text that may fail to be a positive step. */
  datatype Tick = NoTick | Unreadable | Step(units: int)

  predicate ValidTick(tick: Tick) {
    tick.NoTick? || (tick.Step? && tick.units > 0)
  }

  /** Rational product in lowest terms, as math/big forms it. */
  function Product(a: Rat, b: Rat): (r: Rat)
    requires a.den > 0 && b.den > 0
    ensures r.den > 0
  {
    DenominatorPositive(a.den, b.den);
    Lowest(a.num * b.num, a.den * b.den)
  }

  lemma DenominatorPositive(a: int, b: int)
    requires a > 0 && b > 0
    ensures a * b > 0
  {
  }

  function SlipFactor(side: Side, slippageBps: int): int {
    if side.Buy? then BPS + slippageBps else BPS - slippageBps
  }

  /** Ticks in value, truncated, and one more for a buy that is not on a tick. */
  function TickUnits(value: int, step: int, side: Side): int
    requires step > 0
  {
    var ratio := Lowest(value, step);
    var units := Quo(ratio.num, ratio.den);
    if side.Buy? && units * ratio.den < ratio.num then units + 1 else units
  }

  // ---------- The broker ----------

  /** The broker's conversion of a rational to an 18-place decimal: it divides the scaled numerator
      without reducing it first. */
  function RatDecimal(value: Rat): int
    requires value.den > 0
  {
    var quotient := Quo(value.num * UNIT, value.den);
    if 2 * Abs(Rem(value.num * UNIT, value.den)) >= Abs(value.den) then
      if value.num < 0 then quotient - 1 else quotient + 1
    else quotient
  }

  /** Reference price with adverse slippage, moved to the adverse tick. */
  function BrokerPrice(reference: int, side: Side, slippageBps: int, tick: Tick): int
    requires ValidTick(tick)
  {
    var slipped := RatDecimal(Product(Lowest(reference, UNIT), Lowest(SlipFactor(side, slippageBps), BPS)));
    match tick
    case Step(step) => RatDecimal(Product(Lowest(TickUnits(slipped, step, side), 1), Lowest(step, UNIT)))
    case _ => slipped
  }

  function BrokerFee(quantity: Rat, price: Rat, feeBps: int): int
    requires quantity.den > 0 && price.den > 0
  {
    RatDecimal(Product(Product(quantity, price), Lowest(feeBps, BPS)))
  }

  // ---------- The audit ----------

  datatype AuditError =
    | InvalidBasisPoints | UnsupportedClose | InvalidAmounts | NonpositiveFactor | InvalidTick
    | PriceDiffers | FeeDiffers
  datatype AuditResult = Accepted | Refused(error: AuditError)

  /** A bar close as an exact decimal, when it has one of at most 18 places. */
  datatype Close = Inexact | Exact(units: int)

  datatype FillRecord = FillRecord(side: Side, quantity: Rat, price: Rat, fee: Rat)

  predicate WellFormed(fill: FillRecord) {
    fill.quantity.den > 0 && fill.price.den > 0 && fill.fee.den > 0
  }

  /** value == units / UNIT. */
  predicate IsUnits(value: Rat, units: int) {
    value.num * UNIT == units * value.den
  }

  function ExpectedPrice(close: int, side: Side, factor: int, tick: Tick): int
    requires ValidTick(tick)
  {
    var expected := RoundRat18(Product(Lowest(close, UNIT), Lowest(factor, BPS)));
    match tick
    case Step(step) => RoundRat18(Product(Lowest(TickUnits(expected, step, side), 1), Lowest(step, UNIT)))
    case _ => expected
  }

  function VerifyFillCosts(fill: FillRecord, close: Close, tick: Tick, feeBps: real, slippageBps: real): AuditResult
    requires WellFormed(fill)
  {
    if feeBps < 0.0 || slippageBps < 0.0 || feeBps != feeBps.Floor as real || slippageBps != slippageBps.Floor as real
    then Refused(InvalidBasisPoints)
    else if close.Inexact? then Refused(UnsupportedClose)
    else if fill.quantity.num <= 0 || fill.price.num <= 0 || fill.fee.num < 0 then Refused(InvalidAmounts)
    else
      var factor := SlipFactor(fill.side, slippageBps.Floor);
      if factor <= 0 then Refused(NonpositiveFactor)
      else if !ValidTick(tick) then Refused(InvalidTick)
      else if !IsUnits(fill.price, ExpectedPrice(close.units, fill.side, factor, tick)) then Refused(PriceDiffers)
      else
        var fee := RoundRat18(Product(Product(fill.quantity, fill.price), Lowest(feeBps.Floor, BPS)));
        if IsUnits(fill.fee, fee) then Accepted else Refused(FeeDiffers)
  }

  // ---------- The two agree ----------

  lemma RatDecimalIsRoundRat18(value: Rat)
    requires value.den > 0
    ensures RatDecimal(value) == RoundRat18(value)
  {
    RoundRat18IsRoundQuotient(value);
    MulAbs(value.num, UNIT);
  }

  lemma ExpectedIsBrokerPrice(close: int, side: Side, slippageBps: int, tick: Tick)
    requires ValidTick(tick)
    ensures ExpectedPrice(close, side, SlipFactor(side, slippageBps), tick)
         == BrokerPrice(close, side, slippageBps, tick)
  {
    var factor := SlipFactor(side, slippageBps);
    RatDecimalIsRoundRat18(Product(Lowest(close, UNIT), Lowest(factor, BPS)));
    if tick.Step? {
      var slipped := RatDecimal(Product(Lowest(close, UNIT), Lowest(factor, BPS)));
      RatDecimalIsRoundRat18(Product(Lowest(TickUnits(slipped, tick.units, side), 1), Lowest(tick.units, UNIT)));
    }
  }

  /** The audit accepts a fill exactly when its price and fee are the ones the broker computes from
      the bar close under the same cost policy. */
  lemma AuditAcceptsBrokerFills(fill: FillRecord, close: int, tick: Tick, feeBps: nat, slippageBps: nat)
    requires WellFormed(fill)
    ensures VerifyFillCosts(fill, Exact(close), tick, feeBps as real, slippageBps as real).Accepted? <==>
      && fill.quantity.num > 0 && fill.price.num > 0 && fill.fee.num >= 0
      && ValidTick(tick)
      && (fill.side.Sell? ==> slippageBps < BPS)
      && IsUnits(fill.price, BrokerPrice(close, fill.side, slippageBps, tick))
      && IsUnits(fill.fee, BrokerFee(fill.quantity, fill.price, feeBps))
  {
    if ValidTick(tick) {
      ExpectedIsBrokerPrice(close, fill.side, slippageBps, tick);
    }
    RatDecimalIsRoundRat18(Product(Product(fill.quantity, fill.price), Lowest(feeBps, BPS)));
  }

  // ---------- What an accepted fill means ----------

  /** Rounding a product of two fractions in lowest terms is rounding the plain fraction. */
  lemma RoundProduct(a: Rat, b: Rat, n: int, d: int)
    requires a.den > 0 && b.den > 0 && d != 0
    requires a.num * b.num * d == n * (a.den * b.den)
    ensures RoundRat18(Product(a, b)) == RoundQuotient(n * UNIT, d)
  {
    DenominatorPositive(a.den, b.den);
    RoundingsAgree(a.num * b.num, a.den * b.den);
    CrossUnit(a.num * b.num, d, n, a.den * b.den);
    EqualFractionsRoundAlike(a.num * b.num * UNIT, a.den * b.den, n * UNIT, d);
  }

  /** The slipped price: the close times factor, rounded once. */
  function Slipped(close: int, factor: int): int {
    RoundQuotient(close * factor, BPS)
  }

  lemma CrossProduct(a: Rat, b: Rat, n1: int, d1: int, n2: int, d2: int)
    requires a.num * d1 == n1 * a.den && b.num * d2 == n2 * b.den
    ensures a.num * b.num * (d1 * d2) == n1 * n2 * (a.den * b.den)
  {
    assert a.num * b.num * (d1 * d2) == (a.num * d1) * (b.num * d2);
    assert n1 * n2 * (a.den * b.den) == (n1 * a.den) * (n2 * b.den);
  }

  lemma ExpectedWithoutTick(close: int, factor: int)
    ensures RoundRat18(Product(Lowest(close, UNIT), Lowest(factor, BPS))) == Slipped(close, factor)
  {
    var a, b := Lowest(close, UNIT), Lowest(factor, BPS);
    CrossProduct(a, b, close, UNIT, factor, BPS);
    RoundProduct(a, b, close * factor, UNIT * BPS);
    assert (close * factor * UNIT) * BPS == (close * factor) * (UNIT * BPS);
    EqualFractionsRoundAlike(close * factor * UNIT, UNIT * BPS, close * factor, BPS);
  }

  lemma ExpectedOnTick(units: int, step: int)
    ensures RoundRat18(Product(Lowest(units, 1), Lowest(step, UNIT))) == units * step
  {
    var a, b := Lowest(units, 1), Lowest(step, UNIT);
    CrossProduct(a, b, units, 1, step, UNIT);
    RoundProduct(a, b, units * step, UNIT);
    WholeQuotientIsExact(units * step, UNIT);
  }

  lemma QuoBounds(n: int, d: int)
    requires d > 0
    ensures n > 0 ==> Quo(n, d) * d <= n < (Quo(n, d) + 1) * d
    ensures n <= 0 ==> Quo(n, d) <= 0
  {
    QuoRemSplit(n, d);
    var q := Quo(n, d);
    assert (q + 1) * d == q * d + d;
    if n <= 0 {
      MulSign(q, d);
    }
  }

  /** For a positive value, the smallest tick count covering it (buy) or the largest within it (sell). */
  lemma TickUnitsMeaning(value: int, step: int, side: Side)
    requires step > 0
    ensures var t := TickUnits(value, step, side);
      && (value > 0 && side.Buy? ==> (t - 1) * step < value <= t * step)
      && (value > 0 && side.Sell? ==> t * step <= value < (t + 1) * step)
      && (value <= 0 ==> t <= 0)
  {
    var ratio := Lowest(value, step);
    SameSign(ratio, value, step);
    QuoBounds(ratio.num, ratio.den);
    TickChoice(Quo(ratio.num, ratio.den), ratio, value, step);
  }

  lemma SameSign(ratio: Rat, value: int, step: int)
    requires ratio.den > 0 && step > 0 && ratio.num * step == value * ratio.den
    ensures ratio.num > 0 <==> value > 0
  {
    MulSign(ratio.num, step);
    MulSign(value, ratio.den);
  }

  lemma TickChoice(q: int, ratio: Rat, value: int, step: int)
    requires ratio.den > 0 && step > 0 && ratio.num * step == value * ratio.den
    ensures q * ratio.den < ratio.num <==> q * step < value
    ensures q * ratio.den == ratio.num <==> q * step == value
    ensures (q + 1) * ratio.den > ratio.num <==> (q + 1) * step > value
    ensures (q - 1) * step == q * step - step
    ensures q <= 0 ==> q * ratio.den <= 0
  {
    Compare(q, ratio, value, step);
    Compare(q + 1, ratio, value, step);
    if q <= 0 {
      MulSign(q, ratio.den);
    }
  }

  /** Comparing t with a ratio is comparing t steps with the value. */
  lemma Compare(t: int, ratio: Rat, value: int, step: int)
    requires ratio.den > 0 && step > 0 && ratio.num * step == value * ratio.den
    ensures t * ratio.den < ratio.num <==> t * step < value
    ensures t * ratio.den == ratio.num <==> t * step == value
  {
    MulOrder(t * ratio.den, ratio.num, step);
    MulOrder(t * step, value, ratio.den);
    assert (t * ratio.den) * step == (t * step) * ratio.den;
  }

  /** One tick, or nothing when there is none. */
  function TickSize(tick: Tick): int {
    if tick.Step? then tick.units else 0
  }

  lemma NeighbourTicks(t: int, step: int)
    requires step > 0
    ensures (t - 1) * step == t * step - step && (t + 1) * step == t * step + step
    ensures t <= 0 ==> t * step <= 0
  {
    MulSign(t, step);
  }

  lemma OnTickMeaning(slipped: int, step: int, side: Side, p: int)
    requires step > 0 && p == TickUnits(slipped, step, side) * step && p > 0
    ensures slipped > 0
    ensures side.Buy? ==> slipped <= p < slipped + step
    ensures side.Sell? ==> slipped - step < p <= slipped
  {
    TickUnitsMeaning(slipped, step, side);
    NeighbourTicks(TickUnits(slipped, step, side), step);
  }

  ghost predicate OnTick(price: int, step: int) {
    exists t :: price == t * step
  }

  lemma ExpectedPriceMeaning(close: int, side: Side, factor: int, tick: Tick)
    requires ValidTick(tick)
    requires ExpectedPrice(close, side, factor, tick) > 0
    ensures var p, slipped := ExpectedPrice(close, side, factor, tick), Slipped(close, factor);
      && slipped > 0
      && (tick.NoTick? ==> p == slipped)
      && (tick.Step? ==> OnTick(p, tick.units))
      && (tick.Step? && side.Buy? ==> slipped <= p < slipped + tick.units)
      && (tick.Step? && side.Sell? ==> slipped - tick.units < p <= slipped)
  {
    ExpectedWithoutTick(close, factor);
    if tick.Step? {
      var slipped, step := Slipped(close, factor), tick.units;
      ExpectedOnTick(TickUnits(slipped, step, side), step);
      OnTickMeaning(slipped, step, side, ExpectedPrice(close, side, factor, tick));
    }
  }

  lemma SlippedIsAdverse(close: int, side: Side, slippageBps: nat)
    requires Slipped(close, SlipFactor(side, slippageBps)) > 0 && SlipFactor(side, slippageBps) > 0
    ensures side.Buy? ==> Slipped(close, BPS + slippageBps) >= close
    ensures side.Sell? ==> Slipped(close, BPS - slippageBps) <= close
  {
    var factor := SlipFactor(side, slippageBps);
    WholeQuotientIsExact(close, BPS);
    WholeQuotientIsExact(0, BPS);
    if close <= 0 {
      MulSign(-close, factor);
      assert close * factor == -(-close * factor);
      RoundQuotientIsMonotone(close * factor, 0 * BPS, BPS);
    } else if side.Buy? {
      MulLe(BPS, factor, close);
      RoundQuotientIsMonotone(close * BPS, close * factor, BPS);
    } else {
      MulLe(factor, BPS, close);
      RoundQuotientIsMonotone(close * factor, close * BPS, BPS);
    }
  }

  /** An accepted fill is never better than the bar close, and less than one tick worse than the
      rounded slipped close; its fee is the once-rounded fee on quantity times price. */
  lemma AcceptedFillIsAdverse(fill: FillRecord, close: int, tick: Tick, feeBps: nat, slippageBps: nat)
    returns (price: int, fee: int)
    requires WellFormed(fill)
    requires VerifyFillCosts(fill, Exact(close), tick, feeBps as real, slippageBps as real).Accepted?
    ensures IsUnits(fill.price, price) && IsUnits(fill.fee, fee) && price > 0
    ensures var slipped := Slipped(close, SlipFactor(fill.side, slippageBps));
      if fill.side.Buy? then
        close <= slipped <= price <= slipped + TickSize(tick) && (tick.Step? ==> price < slipped + tick.units)
      else
        slipped - TickSize(tick) <= price <= slipped <= close && (tick.Step? ==> price > slipped - tick.units)
    ensures tick.Step? ==> OnTick(price, tick.units)
    ensures fill.quantity.den * fill.price.den * BPS != 0
    ensures fee == RoundQuotient(fill.quantity.num * fill.price.num * feeBps * UNIT,
                                 fill.quantity.den * fill.price.den * BPS)
  {
    var factor := SlipFactor(fill.side, slippageBps);
    price := ExpectedPrice(close, fill.side, factor, tick);
    assert price > 0 by {
      UnitsPositive(fill.price, price);
    }
    ExpectedPriceMeaning(close, fill.side, factor, tick);
    SlippedIsAdverse(close, fill.side, slippageBps);
    fee := RoundRat18(Product(Product(fill.quantity, fill.price), Lowest(feeBps, BPS)));
    FeeMeaning(fill.quantity, fill.price, feeBps);
  }

  lemma UnitsPositive(value: Rat, units: int)
    requires value.den > 0 && value.num > 0 && IsUnits(value, units)
    ensures units > 0
  {
    MulSign(-units, value.den);
  }

  lemma FeeMeaning(q: Rat, p: Rat, feeBps: int)
    requires q.den > 0 && p.den > 0
    ensures q.den * p.den * BPS > 0
    ensures RoundRat18(Product(Product(q, p), Lowest(feeBps, BPS)))
         == RoundQuotient(q.num * p.num * feeBps * UNIT, q.den * p.den * BPS)
  {
    DenominatorPositive(q.den, p.den);
    DenominatorPositive(q.den * p.den, BPS);
    var notional, rate := Product(q, p), Lowest(feeBps, BPS);
    CrossProduct(notional, rate, q.num * p.num, q.den * p.den, feeBps, BPS);
    RoundProduct(notional, rate, q.num * p.num * feeBps, q.den * p.den * BPS);
  }

  // ---------- Two readings of one close ----------

  /** Two closes slip to one price: to the same tick, or to the same amount without one. */
  predicate SameSlip(a: int, b: int, side: Side, slippageBps: int, tick: Tick)
    requires ValidTick(tick)
  {
    var factor := SlipFactor(side, slippageBps);
    match tick
    case Step(step) => TickUnits(Slipped(a, factor), step, side) == TickUnits(Slipped(b, factor), step, side)
    case _ => Slipped(a, factor) == Slipped(b, factor)
  }

  lemma BrokerPriceMeaning(reference: int, side: Side, slippageBps: int, tick: Tick)
    requires ValidTick(tick)
    ensures var slipped := Slipped(reference, SlipFactor(side, slippageBps));
      BrokerPrice(reference, side, slippageBps, tick)
      == if tick.Step? then TickUnits(slipped, tick.units, side) * tick.units else slipped
  {
    var factor := SlipFactor(side, slippageBps);
    ExpectedIsBrokerPrice(reference, side, slippageBps, tick);
    ExpectedWithoutTick(reference, factor);
    if tick.Step? {
      ExpectedOnTick(TickUnits(Slipped(reference, factor), tick.units, side), tick.units);
    }
  }

  lemma SamePriceIff(a: int, b: int, side: Side, slippageBps: int, tick: Tick)
    requires ValidTick(tick)
    ensures BrokerPrice(a, side, slippageBps, tick) == BrokerPrice(b, side, slippageBps, tick)
      <==> SameSlip(a, b, side, slippageBps, tick)
  {
    hide BrokerPrice, Slipped, TickUnits;
    BrokerPriceMeaning(a, side, slippageBps, tick);
    BrokerPriceMeaning(b, side, slippageBps, tick);
    if tick.Step? {
      var factor := SlipFactor(side, slippageBps);
      MulOrder(TickUnits(Slipped(a, factor), tick.units, side), TickUnits(Slipped(b, factor), tick.units, side),
               tick.units);
    }
  }

  lemma SlippedNeedsFactor(close: int, factor: int)
    requires close >= 0 && Slipped(close, factor) > 0
    ensures factor > 0
  {
    if factor <= 0 {
      MulLe(0, -factor, close);
      NegatedProduct(close, factor);
      WholeQuotientIsExact(0, BPS);
      RoundQuotientIsMonotone(close * factor, 0 * BPS, BPS);
    }
  }

  lemma NegatedProduct(a: int, b: int)
    ensures a * b == -(-b * a)
  {
  }

  /** A sell with a price left after slippage gave up less than the whole. */
  lemma PricedBelowWhole(close: int, side: Side, slippageBps: nat, tick: Tick)
    requires close >= 0 && ValidTick(tick) && BrokerPrice(close, side, slippageBps, tick) > 0
    ensures side.Sell? ==> slippageBps < BPS
  {
    hide BrokerPrice, ExpectedPrice, Slipped;
    var factor := SlipFactor(side, slippageBps);
    ExpectedIsBrokerPrice(close, side, slippageBps, tick);
    ExpectedPriceMeaning(close, side, factor, tick);
    SlippedNeedsFactor(close, factor);
  }

  lemma FeeIsNotNegative(quantity: Rat, price: Rat, feeBps: nat)
    requires quantity.den > 0 && price.den > 0 && quantity.num >= 0 && price.num >= 0
    ensures BrokerFee(quantity, price, feeBps) >= 0
  {
    var d := quantity.den * price.den * BPS;
    FeeMeaning(quantity, price, feeBps);
    RatDecimalIsRoundRat18(Product(Product(quantity, price), Lowest(feeBps, BPS)));
    MulLe(0, quantity.num, price.num);
    MulLe(0, quantity.num * price.num, feeBps);
    WholeQuotientIsExact(0, d);
    RoundQuotientIsMonotone(0 * d, quantity.num * price.num * feeBps * UNIT, d);
  }

  lemma SignOfUnits(value: Rat, units: int)
    requires value.den > 0 && IsUnits(value, units)
    ensures value.num > 0 <==> units > 0
    ensures value.num >= 0 <==> units >= 0
  {
    MulSign(value.num, UNIT);
    MulSign(units, value.den);
  }

  lemma UnitsAreUnique(value: Rat, a: int, b: int)
    requires value.den > 0 && IsUnits(value, a)
    ensures IsUnits(value, b) <==> a == b
  {
    MulOrder(a, b, value.den);
  }

  /** A fill the broker prices from its own reading of the close is accepted exactly when that reading and
      the audit's slip to one price. */
  lemma AuditAcceptsReadingIff(fill: FillRecord, reference: int, close: int, tick: Tick, feeBps: nat, slippageBps: nat)
    requires WellFormed(fill) && ValidTick(tick) && reference > 0 && fill.quantity.num > 0
    requires BrokerPrice(reference, fill.side, slippageBps, tick) > 0
    requires IsUnits(fill.price, BrokerPrice(reference, fill.side, slippageBps, tick))
    requires IsUnits(fill.fee, BrokerFee(fill.quantity, fill.price, feeBps))
    ensures VerifyFillCosts(fill, Exact(close), tick, feeBps as real, slippageBps as real).Accepted?
      <==> SameSlip(reference, close, fill.side, slippageBps, tick)
  {
    hide BrokerPrice, BrokerFee, VerifyFillCosts, SameSlip;
    var price := BrokerPrice(reference, fill.side, slippageBps, tick);
    AuditAcceptsBrokerFills(fill, close, tick, feeBps, slippageBps);
    SamePriceIff(reference, close, fill.side, slippageBps, tick);
    PricedBelowWhole(reference, fill.side, slippageBps, tick);
    SignOfUnits(fill.price, price);
    FeeIsNotNegative(fill.quantity, fill.price, feeBps);
    SignOfUnits(fill.fee, BrokerFee(fill.quantity, fill.price, feeBps));
    UnitsAreUnique(fill.price, price, BrokerPrice(close, fill.side, slippageBps, tick));
  }

  lemma UnslippedIsItself(close: int, side: Side)
    ensures Slipped(close, SlipFactor(side, 0)) == close
  {
    WholeQuotientIsExact(close, BPS);
  }

  /** Without slippage and without a tick only equal readings will do. With a close on a tick, read by the
      broker less than a tick off, a buy must not be read high nor a sell low. */
  lemma UnslippedSameSlipIff(reference: int, close: int, side: Side, tick: Tick)
    requires ValidTick(tick) && reference > 0 && close > 0
    requires tick.Step? ==> OnTick(close, tick.units) && Abs(reference - close) < tick.units
    ensures SameSlip(reference, close, side, 0, tick)
      <==> if tick.NoTick? then reference == close else if side.Buy? then reference <= close else reference >= close
  {
    UnslippedIsItself(reference, side);
    UnslippedIsItself(close, side);
    if tick.Step? {
      var k :| close == k * tick.units;
      NearTick(reference, k, tick.units, side);
      NearTick(close, k, tick.units, side);
    }
  }

  lemma NearTick(value: int, k: int, step: int, side: Side)
    requires step > 0 && value > 0 && Abs(value - k * step) < step
    ensures TickUnits(value, step, side) == k <==> if side.Buy? then value <= k * step else value >= k * step
  {
    var t := TickUnits(value, step, side);
    TickUnitsMeaning(value, step, side);
    NeighbourTicks(k, step);
    NeighbourTicks(t, step);
    MulOrder(t - 1, k, step);
    MulOrder(k - 1, t, step);
    MulOrder(t, k, step);
    MulOrder(k, t + 1, step);
  }

  // ---------- Closes that are read apart ----------

  /** From 64 to 128 the program's binary numbers are the multiples of 2^-46. */
  const TWO_TO_46: int := 0x4000_0000_0000

  /** The binary number m/2^46 is the one nearest to a decimal between 64 and 128, and units is its text to
      18 places. */
  predicate BinaryReading(close: real, m: int, units: int) {
    && 64.0 <= close < 128.0
    && -1.0 < 2.0 * (close * TWO_TO_46 as real - m as real) < 1.0
    && Abs(2 * (units * TWO_TO_46 - m * UNIT)) < TWO_TO_46
  }

  /** Closes of 100.37 and 100.2: at 5 basis points the audit refuses the broker's fill, without a tick and
      with a tick of 0.0001. */
  lemma ReadingsDiffer()
    ensures BinaryReading(100.37, 7_062_910_853_112_136, 100_370_000_000_000_004_547)
    ensures !SameSlip(100_370_000_000_000_004_547, 100_370_000_000_000_000_000, Buy, 5, NoTick)
    ensures BinaryReading(100.2, 7_050_948_166_601_933, 100_200_000_000_000_002_842)
    ensures !SameSlip(100_200_000_000_000_002_842, 100_200_000_000_000_000_000, Buy, 5, Step(100_000_000_000_000))
  {
    SlipOf(100_370_000_000_000_004_547, 100_420_185_000_000_004_549);
    SlipOf(100_370_000_000_000_000_000, 100_420_185_000_000_000_000);
    SlipOf(100_200_000_000_000_002_842, 100_250_100_000_000_002_843);
    SlipOf(100_200_000_000_000_000_000, 100_250_100_000_000_000_000);
    TickUnitsMeaning(100_250_100_000_000_002_843, 100_000_000_000_000, Buy);
    TickUnitsMeaning(100_250_100_000_000_000_000, 100_000_000_000_000, Buy);
  }

  lemma SlipOf(close: int, slipped: int)
    requires NearestAway(close * 10_005, BPS, slipped)
    ensures Slipped(close, SlipFactor(Buy, 5)) == slipped
  {
    RoundQuotientMeaning(close * 10_005, BPS, slipped);
  }
}
