/** Protective exits inside a decision bar: the minute bars are scanned in order, the first that
    touches the stop or the target decides, and the trailing stop in force at a minute comes from the
    minutes before it only. */
module Intrabar {
  import opened RealMath
  import opened MarketData
  import opened Causality

  datatype ExitReason = StopLoss | TakeProfit | AtrTrailing | TrailingStop
  datatype Exit = Exit(price: real, orderAt: int, fillAt: int, reason: ExitReason)

  datatype Trailing = Trailing(atrEnabled: bool, atrMult: real, percentEnabled: bool, percent: real)

  /** The fixed part of a position. */
  datatype Terms = Terms(entryAt: int, entryPrice: real, lastAtr: real, stop: Option<real>, target: Option<real>)

  // ---------- Ratchets ----------

  /** The higher of a stop and a candidate, either of which may be missing. */
  function Higher(existing: Option<real>, candidate: Option<real>): Option<real> {
    if candidate.None? then existing
    else if existing.None? || candidate.value > existing.value then candidate
    else existing
  }

  function PercentCandidate(price: real, entry: real, percent: real): Option<real> {
    var candidate := price * (1.0 - percent / 100.0);
    if percent <= 0.0 || price <= 0.0 || (entry > 0.0 && price <= entry) || candidate <= 0.0 then None
    else Some(candidate)
  }

  function AtrCandidate(price: real, entry: real, atr: real, mult: real): Option<real> {
    var candidate := (if entry > 0.0 && price < entry then entry else price) - atr * mult;
    if atr <= 0.0 || mult <= 0.0 || price <= 0.0 || candidate <= 0.0 then None else Some(candidate)
  }

  method RatchetPercentTrailingStop(existing: Option<real>, price: real, entry: real, percent: real)
    returns (r: Option<real>)
    ensures r == Higher(existing, PercentCandidate(price, entry, percent))
  {
    if percent <= 0.0 || price <= 0.0 {
      return existing;
    }
    if entry > 0.0 && price <= entry {
      return existing;
    }
    var candidate := price * (1.0 - percent / 100.0);
    if candidate <= 0.0 {
      return existing;
    }
    r := if existing.None? || candidate > existing.value then Some(candidate) else existing;
  }

  method RatchetATRTrailingStop(existing: Option<real>, price: real, entry: real, atr: real, mult: real)
    returns (r: Option<real>)
    ensures r == Higher(existing, AtrCandidate(price, entry, atr, mult))
  {
    if atr <= 0.0 || mult <= 0.0 || price <= 0.0 {
      return existing;
    }
    var reference := price;
    if entry > 0.0 && reference < entry {
      reference := entry;
    }
    var candidate := reference - atr * mult;
    if candidate <= 0.0 {
      return existing;
    }
    r := if existing.None? || candidate > existing.value then Some(candidate) else existing;
  }

  /** The stop level a closed minute suggests. */
  function Candidate(terms: Terms, rule: Trailing, bar: Bar): Option<real> {
    if rule.atrEnabled && rule.atrMult > 0.0 && terms.lastAtr > 0.0 then
      AtrCandidate(bar.high, terms.entryPrice, terms.lastAtr, rule.atrMult)
    else if rule.percentEnabled then
      PercentCandidate(bar.high, terms.entryPrice, rule.percent)
    else
      None
  }

  // ---------- One minute ----------

  function OrZero(level: Option<real>): real {
    if level.Some? then level.value else 0.0
  }

  /** The stop in force: the fixed one, or the trailing one when that is higher. */
  function StopLevel(terms: Terms, trailing: Option<real>): real {
    if trailing.Some? && trailing.value > OrZero(terms.stop) then trailing.value else OrZero(terms.stop)
  }

  predicate TouchesStop(terms: Terms, trailing: Option<real>, bar: Bar) {
    StopLevel(terms, trailing) > 0.0 && bar.low <= StopLevel(terms, trailing)
  }

  predicate TouchesTarget(terms: Terms, bar: Bar) {
    OrZero(terms.target) > 0.0 && bar.high >= OrZero(terms.target)
  }

  predicate Touches(terms: Terms, trailing: Option<real>, bar: Bar) {
    TouchesStop(terms, trailing, bar) || TouchesTarget(terms, bar)
  }

  function StopReason(terms: Terms, rule: Trailing, trailing: Option<real>, bar: Bar): ExitReason {
    if TouchesTarget(terms, bar) || trailing.None? || trailing.value < StopLevel(terms, trailing) then StopLoss
    else if rule.atrEnabled then AtrTrailing
    else TrailingStop
  }

  /** The exit at a minute that touches: the stop first, at the stop or at a lower open; else the
      target, at the target or at a higher open. An exit at the open fills then, any other at the close. */
  function ExitOn(terms: Terms, rule: Trailing, trailing: Option<real>, bar: Bar): Exit {
    var opens, closes := Instant(bar.openTime), Instant(bar.closeTime);
    if TouchesStop(terms, trailing, bar) then
      var level := StopLevel(terms, trailing);
      Exit(Min(bar.open, level), terms.entryAt, if bar.open <= level then opens else closes,
           StopReason(terms, rule, trailing, bar))
    else
      var level := OrZero(terms.target);
      Exit(Max(bar.open, level), terms.entryAt, if bar.open >= level then opens else closes, TakeProfit)
  }

  // ---------- The scan, declaratively ----------

  /** Index of the first minute that opens in the decision bar and not before the position. */
  function ScanStart(terms: Terms, minutes: seq<Bar>, decision: Bar): (i: nat)
    ensures i <= |minutes|
  {
    var from := if terms.entryAt > Instant(decision.openTime) then terms.entryAt else Instant(decision.openTime);
    FirstOpenFrom(minutes, Instant(Millis(from)))
  }

  /** All minutes from start to i close within the decision bar. */
  ghost predicate Within(minutes: seq<Bar>, decision: Bar, start: nat, i: nat) {
    i < |minutes| && forall k :: start <= k <= i ==> minutes[k].closeTime <= decision.closeTime
  }

  /** The trailing stop in force at minute i, ratcheted by the minutes from start up to but not
      including i. */
  function TrailAt(terms: Terms, rule: Trailing, minutes: seq<Bar>, initial: Option<real>, start: nat, i: nat)
    : Option<real>
    requires start <= i <= |minutes|
  {
    if i == start then initial
    else Higher(TrailAt(terms, rule, minutes, initial, start, i - 1), Candidate(terms, rule, minutes[i - 1]))
  }

  /** Minute i is the first to touch. */
  ghost predicate FirstTouch(terms: Terms, rule: Trailing, minutes: seq<Bar>, decision: Bar, initial: Option<real>,
                             start: nat, i: nat)
  {
    && start <= i && Within(minutes, decision, start, i)
    && Touches(terms, TrailAt(terms, rule, minutes, initial, start, i), minutes[i])
    && forall k :: start <= k < i ==> !Touches(terms, TrailAt(terms, rule, minutes, initial, start, k), minutes[k])
  }

  /** A minute of the decision bar and of the position: it opens no earlier than either and closes within
      the bar. */
  predicate InScan(terms: Terms, minute: Bar, decision: Bar) {
    && minute.openTime >= Millis(terms.entryAt) && minute.openTime >= decision.openTime
    && minute.closeTime <= decision.closeTime
  }

  /** Some such minute touches, with the trailing stop in force there. */
  ghost predicate SomeTouch(terms: Terms, rule: Trailing, minutes: seq<Bar>, decision: Bar, initial: Option<real>,
                            start: nat)
  {
    exists k :: start <= k < |minutes| && InScan(terms, minutes[k], decision)
             && Touches(terms, TrailAt(terms, rule, minutes, initial, start, k), minutes[k])
  }

  /** Some level is set, above zero, and the minute's low has reached it. */
  predicate Reaches(level: Option<real>, bar: Bar) {
    level.Some? && level.value > 0.0 && bar.low <= level.value
  }

  /** An exit at the price is no worse than a level and the open allow. */
  predicate NotBelow(price: real, level: Option<real>, bar: Bar) {
    level.Some? ==> price >= Min(bar.open, level.value)
  }

  /** What an exit on a minute must be. A touched stop, fixed or trailing, wins over the target: the exit is
      at the higher level, or at the open when that is lower. Otherwise it is at the target, or at the open
      when that is higher. It fills when the minute opens if it is at the open, and else when it closes. A
      stop exit is blamed on the trailing stop when that sets the level and the target was not touched too. */
  predicate Fair(terms: Terms, trailing: Option<real>, bar: Bar, exit: Exit) {
    var stopped := Reaches(terms.stop, bar) || Reaches(trailing, bar);
    && (SoundPrices(bar) ==> bar.low <= exit.price <= bar.high)
    && exit.orderAt == terms.entryAt
    && exit.fillAt == (if exit.price == bar.open then Instant(bar.openTime) else Instant(bar.closeTime))
    && (if stopped then
          && exit.reason != TakeProfit && exit.price <= bar.open
          && (exit.price == bar.open || Some(exit.price) in {terms.stop, trailing})
          && NotBelow(exit.price, terms.stop, bar) && NotBelow(exit.price, trailing, bar)
        else
          && exit.reason == TakeProfit && exit.price >= bar.open
          && terms.target.Some? && terms.target.value > 0.0 && bar.high >= terms.target.value
          && (exit.price == bar.open || exit.price == terms.target.value) && exit.price >= terms.target.value)
    && (exit.reason in {AtrTrailing, TrailingStop} <==>
          && stopped && trailing.Some? && (terms.stop.Some? ==> trailing.value >= terms.stop.value)
          && trailing.value >= 0.0
          && !(terms.target.Some? && terms.target.value > 0.0 && bar.high >= terms.target.value))
  }

  /** The scan exits at minute i, the one that decides, with the trailing stop in force there. */
  ghost predicate ExitsAt(terms: Terms, rule: Trailing, minutes: seq<Bar>, decision: Bar, initial: Option<real>,
                          start: nat, i: nat, trailing: Option<real>, exit: Exit)
  {
    && FirstTouch(terms, rule, minutes, decision, initial, start, i)
    && trailing == TrailAt(terms, rule, minutes, initial, start, i)
    && exit == ExitOn(terms, rule, trailing, minutes[i]) && Fair(terms, trailing, minutes[i], exit)
    && forall j: nat :: FirstTouch(terms, rule, minutes, decision, initial, start, j) ==> j == i
  }

  /** The scan has passed minutes start to i, all in the decision bar and none touching. */
  ghost predicate Passed(terms: Terms, rule: Trailing, minutes: seq<Bar>, decision: Bar, initial: Option<real>,
                         start: nat, i: nat, trailing: Option<real>)
  {
    && start <= i <= |minutes| && trailing == TrailAt(terms, rule, minutes, initial, start, i)
    && (forall k :: start <= k < i ==> minutes[k].closeTime <= decision.closeTime)
    && (forall k :: start <= k < i ==> !Touches(terms, TrailAt(terms, rule, minutes, initial, start, k), minutes[k]))
  }

  /** The scan runs out at minute i, the first past the decision bar, ratcheted by all before it. */
  ghost predicate RunsOutAt(terms: Terms, rule: Trailing, minutes: seq<Bar>, decision: Bar, initial: Option<real>,
                            start: nat, i: nat, trailing: Option<real>)
  {
    && Passed(terms, rule, minutes, decision, initial, start, i, trailing)
    && (i < |minutes| ==> minutes[i].closeTime > decision.closeTime)
  }

  lemma PassMinute(terms: Terms, rule: Trailing, minutes: seq<Bar>, decision: Bar, initial: Option<real>,
                   start: nat, i: nat, trailing: Option<real>)
    requires Passed(terms, rule, minutes, decision, initial, start, i, trailing)
    requires i < |minutes| && minutes[i].closeTime <= decision.closeTime && !Touches(terms, trailing, minutes[i])
    ensures Passed(terms, rule, minutes, decision, initial, start, i + 1,
                   Higher(trailing, Candidate(terms, rule, minutes[i])))
  {
  }

  lemma ExitIsFair(terms: Terms, rule: Trailing, trailing: Option<real>, bar: Bar)
    requires Touches(terms, trailing, bar)
    ensures Fair(terms, trailing, bar, ExitOn(terms, rule, trailing, bar))
  {
  }

  lemma TouchesFirst(terms: Terms, rule: Trailing, minutes: seq<Bar>, decision: Bar, initial: Option<real>,
                     start: nat, i: nat, trailing: Option<real>)
    requires Passed(terms, rule, minutes, decision, initial, start, i, trailing)
    requires i < |minutes| && minutes[i].closeTime <= decision.closeTime && Touches(terms, trailing, minutes[i])
    ensures FirstTouch(terms, rule, minutes, decision, initial, start, i)
    ensures forall j: nat :: FirstTouch(terms, rule, minutes, decision, initial, start, j) ==> j == i
  {
    hide TrailAt, Touches;
  }

  lemma StopAtMinute(terms: Terms, rule: Trailing, minutes: seq<Bar>, decision: Bar, initial: Option<real>,
                     start: nat, i: nat, trailing: Option<real>)
    requires Passed(terms, rule, minutes, decision, initial, start, i, trailing)
    requires i < |minutes| && minutes[i].closeTime <= decision.closeTime && Touches(terms, trailing, minutes[i])
    ensures ExitsAt(terms, rule, minutes, decision, initial, start, i, trailing,
                    ExitOn(terms, rule, trailing, minutes[i]))
  {
    hide TrailAt, Touches, ExitOn, Fair, Within;
    ExitIsFair(terms, rule, trailing, minutes[i]);
    TouchesFirst(terms, rule, minutes, decision, initial, start, i, trailing);
  }

  /** An open position; only its trailing stop moves during a scan. */
  class PositionState {
    const terms: Terms
    var trailingStop: Option<real>

    constructor (terms: Terms, trailingStop: Option<real>)
      ensures this.terms == terms && this.trailingStop == trailingStop
    {
      this.terms, this.trailingStop := terms, trailingStop;
    }

    /** Moves the trailing stop with a closed minute. */
    method Ratchet(rule: Trailing, bar: Bar)
      modifies this`trailingStop
      ensures trailingStop == Higher(old(trailingStop), Candidate(terms, rule, bar))
    {
      if rule.atrEnabled && rule.atrMult > 0.0 && terms.lastAtr > 0.0 {
        trailingStop := RatchetATRTrailingStop(trailingStop, bar.high, terms.entryPrice, terms.lastAtr, rule.atrMult);
      } else if rule.percentEnabled {
        trailingStop := RatchetPercentTrailingStop(trailingStop, bar.high, terms.entryPrice, rule.percent);
      }
    }

    /** The exit on one minute, if it touches. */
    method CheckMinute(rule: Trailing, bar: Bar) returns (r: Option<Exit>)
      ensures r == if Touches(terms, trailingStop, bar) then Some(ExitOn(terms, rule, trailingStop, bar)) else None
    {
      var tpPrice := if terms.target.Some? then terms.target.value else 0.0;
      var stopPrice := if terms.stop.Some? then terms.stop.value else 0.0;
      if trailingStop.Some? && trailingStop.value > stopPrice {
        stopPrice := trailingStop.value;
      }
      var orderAt, availableAt := Instant(bar.openTime), Instant(bar.closeTime);
      var stopHit := stopPrice > 0.0 && bar.low <= stopPrice;
      var tpHit := tpPrice > 0.0 && bar.high >= tpPrice;
      if stopHit && tpHit {
        var price, fillAt := stopPrice, availableAt;
        if bar.open <= stopPrice {
          price, fillAt := bar.open, orderAt;
        }
        return Some(Exit(price, terms.entryAt, fillAt, StopLoss));
      }
      if stopHit {
        var price, fillAt, reason := stopPrice, availableAt, StopLoss;
        if bar.open <= stopPrice {
          price, fillAt := bar.open, orderAt;
        }
        if trailingStop.Some? && trailingStop.value >= stopPrice {
          reason := if rule.atrEnabled then AtrTrailing else TrailingStop;
        }
        return Some(Exit(price, terms.entryAt, fillAt, reason));
      }
      if tpHit {
        var price, fillAt := tpPrice, availableAt;
        if bar.open >= tpPrice {
          price, fillAt := bar.open, orderAt;
        }
        return Some(Exit(price, terms.entryAt, fillAt, TakeProfit));
      }
      r := None;
    }

    /** Scans the minutes of a decision bar. With an exit the trailing stop is the one in force there;
        without one it has been ratcheted by every minute of the bar. */
    method EvaluateIntrabarProtectiveExit(minutes: seq<Bar>, decision: Bar, rule: Trailing) returns (r: Option<Exit>)
      modifies this`trailingStop
      ensures r.Some? ==> exists i: nat :: ExitsAt(
        terms, rule, minutes, decision, old(trailingStop), ScanStart(terms, minutes, decision), i, trailingStop,
        r.value)
      ensures r.None? ==> exists i: nat :: RunsOutAt(
        terms, rule, minutes, decision, old(trailingStop), ScanStart(terms, minutes, decision), i, trailingStop)
      ensures Ordered(minutes) ==> (r.Some? <==>
        SomeTouch(terms, rule, minutes, decision, old(trailingStop), ScanStart(terms, minutes, decision)))
    {
      var start := ScanStart(terms, minutes, decision);
      ghost var initial := trailingStop;
      var i := start;
      while i < |minutes|
        invariant Passed(terms, rule, minutes, decision, initial, start, i, trailingStop)
      {
        var bar := minutes[i];
        if bar.closeTime > decision.closeTime {
          break;
        }
        r := CheckMinute(rule, bar);
        if r.Some? {
          StopAtMinute(terms, rule, minutes, decision, initial, start, i, trailingStop);
          if Ordered(minutes) {
            ExitsOnlyTouched(terms, rule, minutes, decision, initial, i, trailingStop, r.value);
          }
          return;
        }
        PassMinute(terms, rule, minutes, decision, initial, start, i, trailingStop);
        Ratchet(rule, bar);
        i := i + 1;
      }
      r := None;
      assert RunsOutAt(terms, rule, minutes, decision, initial, start, i, trailingStop);
      if Ordered(minutes) {
        RunsOutUntouched(terms, rule, minutes, decision, initial, i, trailingStop);
      }
    }
  }

  // ---------- What the scan means ----------

  /** On ordered minutes the scan covers exactly those of the decision bar and of the position. */
  lemma ScanCovers(terms: Terms, minutes: seq<Bar>, decision: Bar, k: nat)
    requires Ordered(minutes) && k < |minutes|
    ensures var start := ScanStart(terms, minutes, decision);
      start <= k && Within(minutes, decision, start, k) <==> InScan(terms, minutes[k], decision)
  {
    var from := if terms.entryAt > Instant(decision.openTime) then terms.entryAt else Instant(decision.openTime);
    MillisOfInstant(decision.openTime);
    FirstOpenFromMeaning(minutes, Instant(Millis(from)));
  }

  /** So the scan exits only if some minute of the decision bar and of the position touches, */
  lemma ExitsOnlyTouched(terms: Terms, rule: Trailing, minutes: seq<Bar>, decision: Bar, initial: Option<real>,
                         i: nat, trailing: Option<real>, exit: Exit)
    requires Ordered(minutes)
    requires ExitsAt(terms, rule, minutes, decision, initial, ScanStart(terms, minutes, decision), i, trailing, exit)
    ensures SomeTouch(terms, rule, minutes, decision, initial, ScanStart(terms, minutes, decision))
  {
    hide ScanStart, Touches, TrailAt, Ordered, ExitOn, Fair, InScan;
    ScanCovers(terms, minutes, decision, i);
  }

  /** and runs out only if none does. */
  lemma RunsOutUntouched(terms: Terms, rule: Trailing, minutes: seq<Bar>, decision: Bar, initial: Option<real>,
                         i: nat, trailing: Option<real>)
    requires Ordered(minutes)
    requires RunsOutAt(terms, rule, minutes, decision, initial, ScanStart(terms, minutes, decision), i, trailing)
    ensures !SomeTouch(terms, rule, minutes, decision, initial, ScanStart(terms, minutes, decision))
  {
    hide ScanStart, Touches, TrailAt, Ordered, InScan;
    var start := ScanStart(terms, minutes, decision);
    forall k: nat | start <= k < |minutes| && InScan(terms, minutes[k], decision)
      ensures !Touches(terms, TrailAt(terms, rule, minutes, initial, start, k), minutes[k])
    {
      ScanCovers(terms, minutes, decision, k);
      assert k < i;
    }
  }

  /** The trailing stop in force at a minute is the highest of the initial one and the candidates of
      the minutes before it. */
  lemma {:induction false} TrailIsHighestBefore(terms: Terms, rule: Trailing, minutes: seq<Bar>, initial: Option<real>,
                                                start: nat, i: nat)
    requires start <= i <= |minutes|
    ensures var trail := TrailAt(terms, rule, minutes, initial, start, i);
      && (initial.Some? ==> trail.Some? && trail.value >= initial.value)
      && (forall k :: start <= k < i && Candidate(terms, rule, minutes[k]).Some? ==>
            trail.Some? && trail.value >= Candidate(terms, rule, minutes[k]).value)
      && (trail == initial || exists k :: start <= k < i && Candidate(terms, rule, minutes[k]) == trail)
    decreases i
  {
    if i > start {
      TrailIsHighestBefore(terms, rule, minutes, initial, start, i - 1);
    }
  }

  /** It never falls. */
  lemma {:induction false} TrailNeverFalls(terms: Terms, rule: Trailing, minutes: seq<Bar>, initial: Option<real>,
                                           start: nat, i: nat, j: nat)
    requires start <= i <= j <= |minutes|
    ensures var early, late := TrailAt(terms, rule, minutes, initial, start, i),
                               TrailAt(terms, rule, minutes, initial, start, j);
      early.Some? ==> late.Some? && late.value >= early.value
    decreases j
  {
    if i < j {
      TrailNeverFalls(terms, rule, minutes, initial, start, i, j - 1);
    }
  }

  lemma {:induction false} TrailIgnoresLater(terms: Terms, rule: Trailing, first: seq<Bar>, second: seq<Bar>,
                                             initial: Option<real>, start: nat, i: nat)
    requires start <= i <= |first| && i <= |second| && first[..i] == second[..i]
    ensures TrailAt(terms, rule, first, initial, start, i) == TrailAt(terms, rule, second, initial, start, i)
    decreases i
  {
    if i > start {
      assert first[i - 1] == first[..i][i - 1] && second[i - 1] == second[..i][i - 1];
      assert first[..i - 1] == first[..i][..i - 1] && second[..i - 1] == second[..i][..i - 1];
      TrailIgnoresLater(terms, rule, first, second, initial, start, i - 1);
    }
  }

  /** No look-ahead: the deciding minute, and so the exit, is the same whatever follows it. */
  lemma FirstTouchIgnoresLater(terms: Terms, rule: Trailing, first: seq<Bar>, second: seq<Bar>, decision: Bar,
                               initial: Option<real>, start: nat, i: nat)
    requires FirstTouch(terms, rule, first, decision, initial, start, i)
    requires i < |second| && first[..i + 1] == second[..i + 1]
    ensures FirstTouch(terms, rule, second, decision, initial, start, i)
    ensures ExitOn(terms, rule, TrailAt(terms, rule, first, initial, start, i), first[i])
         == ExitOn(terms, rule, TrailAt(terms, rule, second, initial, start, i), second[i])
  {
    forall k | start <= k <= i
      ensures first[k] == second[k]
      ensures TrailAt(terms, rule, first, initial, start, k) == TrailAt(terms, rule, second, initial, start, k)
    {
      assert first[k] == first[..i + 1][k] && second[k] == second[..i + 1][k];
      assert first[..k] == first[..i + 1][..k] && second[..k] == second[..i + 1][..k];
      TrailIgnoresLater(terms, rule, first, second, initial, start, k);
    }
  }

  // ---------- From the levels and highs themselves ----------

  /** A minute touches when its low reaches either stop, or its high the target. */
  lemma TouchesIff(terms: Terms, trailing: Option<real>, bar: Bar)
    ensures Touches(terms, trailing, bar) <==>
      || Reaches(terms.stop, bar) || Reaches(trailing, bar)
      || (terms.target.Some? && terms.target.value > 0.0 && bar.high >= terms.target.value)
  {
  }

  /** What a percent trail would be behind a high. */
  function Behind(high: real, percent: real): real {
    high * (1.0 - percent / 100.0)
  }

  /** A percent trail follows the highest high above entry: it is never further behind any of the minutes
      before, and it is the initial stop or just that far behind one of them. */
  lemma PercentTrailFollowsHighs(terms: Terms, rule: Trailing, minutes: seq<Bar>, initial: Option<real>, start: nat,
                                 i: nat)
    requires start <= i <= |minutes| && !rule.atrEnabled && rule.percentEnabled && 0.0 < rule.percent < 100.0
    ensures var trail := TrailAt(terms, rule, minutes, initial, start, i);
      && (forall k :: start <= k < i && minutes[k].high > 0.0 && minutes[k].high > terms.entryPrice ==>
            trail.Some? && trail.value >= Behind(minutes[k].high, rule.percent))
      && (trail == initial
          || exists k :: start <= k < i && trail == Some(Behind(minutes[k].high, rule.percent)))
  {
    hide TrailAt, Candidate, Behind;
    TrailIsHighestBefore(terms, rule, minutes, initial, start, i);
    forall k | start <= k < i ensures BehindHigh(terms, rule, minutes[k]) {
      CandidateIsBehind(terms, rule, minutes[k]);
    }
  }

  /** The stop a minute suggests is behind its high, if that is above entry. */
  predicate BehindHigh(terms: Terms, rule: Trailing, minute: Bar) {
    var candidate := Candidate(terms, rule, minute);
    && (candidate.Some? ==> candidate == Some(Behind(minute.high, rule.percent)))
    && (minute.high > 0.0 && minute.high > terms.entryPrice ==> candidate.Some?)
  }

  lemma CandidateIsBehind(terms: Terms, rule: Trailing, minute: Bar)
    requires !rule.atrEnabled && rule.percentEnabled && 0.0 < rule.percent < 100.0
    ensures BehindHigh(terms, rule, minute)
  {
    if minute.high > 0.0 {
      BehindIsPositive(minute.high, rule.percent);
    }
  }

  lemma BehindIsPositive(high: real, percent: real)
    requires high > 0.0 && percent < 100.0
    ensures Behind(high, percent) > 0.0
  {
  }

  /** A fixed distance under a high, or under entry when that is higher. */
  function Under(terms: Terms, rule: Trailing, high: real): real {
    Max(high, terms.entryPrice) - terms.lastAtr * rule.atrMult
  }

  predicate UnderHigh(terms: Terms, rule: Trailing, minute: Bar) {
    var candidate := Candidate(terms, rule, minute);
    && (candidate.Some? ==> candidate == Some(Under(terms, rule, minute.high)))
    && (minute.high > 0.0 && Under(terms, rule, minute.high) > 0.0 ==> candidate.Some?)
  }

  lemma CandidateIsUnder(terms: Terms, rule: Trailing, minute: Bar)
    requires rule.atrEnabled && rule.atrMult > 0.0 && terms.lastAtr > 0.0
    ensures UnderHigh(terms, rule, minute)
  {
    var distance := terms.lastAtr * rule.atrMult;
    assert Candidate(terms, rule, minute) == AtrCandidate(minute.high, terms.entryPrice, terms.lastAtr, rule.atrMult);
    if minute.high > 0.0 && terms.entryPrice <= 0.0 {
      assert Max(minute.high, terms.entryPrice) == minute.high;
    }
  }

  /** An ATR trail follows the highest high so. */
  lemma AtrTrailFollowsHighs(terms: Terms, rule: Trailing, minutes: seq<Bar>, initial: Option<real>, start: nat, i: nat)
    requires start <= i <= |minutes| && rule.atrEnabled && rule.atrMult > 0.0 && terms.lastAtr > 0.0
    ensures var trail := TrailAt(terms, rule, minutes, initial, start, i);
      && (forall k :: start <= k < i && minutes[k].high > 0.0 && Under(terms, rule, minutes[k].high) > 0.0 ==>
            trail.Some? && trail.value >= Under(terms, rule, minutes[k].high))
      && (trail == initial || exists k :: start <= k < i && trail == Some(Under(terms, rule, minutes[k].high)))
  {
    hide TrailAt, Candidate, Under;
    TrailIsHighestBefore(terms, rule, minutes, initial, start, i);
    forall k | start <= k < i ensures UnderHigh(terms, rule, minutes[k]) {
      CandidateIsUnder(terms, rule, minutes[k]);
    }
  }
}
