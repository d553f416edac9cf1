/** Bar coverage validation: what a series that passes it is guaranteed to look like. */
module Coverage {
  import opened MarketData
  import opened Causality

  datatype Reason =
    | NoReason | MissingSeries | InvalidBarWidth | DuplicateTimestamp | NonMonotonic | InternalGap | Bounds
  datatype Status = Ok | Warning | Rejected

  /** Intervals and widths in nanoseconds; start and end are absent when unset. */
  datatype Request = Request(feature: bool, interval: int, start: Option<int>, end: Option<int>)
  datatype Policy = Policy(maxMissingIntervals: int, requireBounds: bool)

  datatype Diagnostic = Diagnostic(status: Status, reason: Reason, gaps: nat)

  /** Duration division truncates toward zero. */
  function Truncated(n: int, d: int): int
    requires d > 0
  {
    if n >= 0 then n / d else -(-n / d)
  }

  function Width(bar: Bar): int {
    (bar.closeTime - bar.openTime) * NS_PER_MS
  }

  /** A bar spans the interval, with either an exclusive or an inclusive (1 ms shorter) close. */
  predicate ValidWidth(bar: Bar, r: Request) {
    if r.interval > 0 && !r.feature then
      Width(bar) == r.interval || (r.interval >= NS_PER_MS && Width(bar) == r.interval - NS_PER_MS)
    else Width(bar) > 0
  }

  function Missing(previous: int, bar: Bar, interval: int): nat
    requires interval > 0
  {
    var n := Truncated((bar.openTime - previous) * NS_PER_MS, interval) - 1;
    if n > 0 then n else 0
  }

  function Gaps(bars: seq<Bar>, interval: int): nat
    requires interval > 0
  {
    if |bars| < 2 then 0
    else Gaps(bars[..|bars| - 1], interval) + Missing(bars[|bars| - 2].openTime, bars[|bars| - 1], interval)
  }

  /** Every bar spans its interval and they open in strictly increasing order. */
  ghost predicate Clean(bars: seq<Bar>, r: Request) {
    (forall i :: 0 <= i < |bars| ==> ValidWidth(bars[i], r)) && Increasing(bars)
  }

  ghost predicate Increasing(bars: seq<Bar>) {
    forall i, j :: 0 <= i < j < |bars| ==> bars[i].openTime < bars[j].openTime
  }

  function OpenTimes(bars: seq<Bar>): set<int> {
    set b | b in bars :: b.openTime
  }

  predicate BoundsMissing(bars: seq<Bar>, r: Request)
    requires bars != []
  {
    || (r.start.Some? && Instant(bars[0].openTime) > r.start.value)
    || (r.end.Some? && var lastClose := Instant(bars[|bars| - 1].closeTime);
          lastClose < r.end.value && lastClose + NS_PER_MS < r.end.value)
  }

  /** What is wrong with a bar after the bars before it; the last check that fails names it. */
  function Fault(before: seq<Bar>, bar: Bar, r: Request): Reason {
    if before != [] && bar.openTime < before[|before| - 1].openTime then NonMonotonic
    else if bar.openTime in OpenTimes(before) then DuplicateTimestamp
    else if !ValidWidth(bar, r) then InvalidBarWidth
    else NoReason
  }

  /** The fault of the last faulty bar. */
  function LastFault(bars: seq<Bar>, r: Request): Reason {
    if bars == [] then NoReason
    else
      var before, bar := bars[..|bars| - 1], bars[|bars| - 1];
      if Fault(before, bar, r).NoReason? then LastFault(before, r) else Fault(before, bar, r)
  }

  /** The checks inside the loop. */
  method ScanBars(bars: seq<Bar>, r: Request) returns (d: Diagnostic)
    ensures d.status.Ok? || d.status.Rejected?
    ensures d.reason == LastFault(bars, r)
    ensures d.status.Ok? <==> Clean(bars, r)
    ensures d.status.Ok? <==> d.reason.NoReason?
    ensures d.gaps == if r.interval > 0 then Gaps(bars, r.interval) else 0
  {
    var status, reason, gaps := Ok, NoReason, 0;
    var seen: set<int> := {};
    var previous := 0;
    for i := 0 to |bars|
      invariant status.Ok? || status.Rejected?
      invariant status.Ok? <==> reason.NoReason?
      invariant reason == LastFault(bars[..i], r)
      invariant status.Ok? <==> Clean(bars[..i], r)
      invariant seen == OpenTimes(bars[..i])
      invariant i > 0 ==> previous == bars[i - 1].openTime
      invariant gaps == if r.interval > 0 then Gaps(bars[..i], r.interval) else 0
    {
      var bar := bars[i];
      PrefixStep(bars, i, r);
      assert bars[..i + 1][..i] == bars[..i];
      if !ValidWidth(bar, r) {
        status, reason := Rejected, InvalidBarWidth;
      }
      if bar.openTime in seen {
        status, reason := Rejected, DuplicateTimestamp;
      }
      seen := seen + {bar.openTime};
      if i > 0 && bar.openTime < previous {
        status, reason := Rejected, NonMonotonic;
      }
      if i > 0 && r.interval > 0 {
        gaps := gaps + Missing(previous, bar, r.interval);
      }
      previous := bar.openTime;
    }
    assert bars[..|bars|] == bars;
    d := Diagnostic(status, reason, gaps);
  }

  /** One more bar keeps opening times increasing exactly when its time is new and it does not open
      before its predecessor. */
  lemma IncreasingStep(before: seq<Bar>, bar: Bar)
    ensures Increasing(before + [bar]) <==>
      && Increasing(before)
      && bar.openTime !in OpenTimes(before)
      && (before != [] ==> bar.openTime >= before[|before| - 1].openTime)
  {
    var now := before + [bar];
    if Increasing(now) {
      assert forall k :: 0 <= k < |before| ==> before[k] == now[k] && now[k].openTime < now[|before|].openTime;
    }
    if Increasing(before) && bar.openTime !in OpenTimes(before) && before != []
       && bar.openTime >= before[|before| - 1].openTime
    {
      forall k | 0 <= k < |before| ensures before[k].openTime < bar.openTime {
        assert before[k] in before;
      }
    }
  }

  lemma CleanStep(before: seq<Bar>, bar: Bar, r: Request)
    ensures Clean(before + [bar], r) <==>
      && Clean(before, r) && ValidWidth(bar, r)
      && bar.openTime !in OpenTimes(before)
      && (before != [] ==> bar.openTime >= before[|before| - 1].openTime)
  {
    IncreasingStep(before, bar);
    var now := before + [bar];
    assert forall k :: 0 <= k < |before| ==> now[k] == before[k];
    assert now[|before|] == bar;
  }

  lemma PrefixStep(bars: seq<Bar>, i: nat, r: Request)
    requires i < |bars|
    ensures Clean(bars[..i + 1], r) <==>
      && Clean(bars[..i], r) && ValidWidth(bars[i], r)
      && bars[i].openTime !in OpenTimes(bars[..i])
      && (i > 0 ==> bars[i].openTime >= bars[i - 1].openTime)
    ensures OpenTimes(bars[..i + 1]) == OpenTimes(bars[..i]) + {bars[i].openTime}
    ensures r.interval > 0 ==>
      Gaps(bars[..i + 1], r.interval)
      == Gaps(bars[..i], r.interval) + if i > 0 then Missing(bars[i - 1].openTime, bars[i], r.interval) else 0
  {
    assert bars[..i + 1] == bars[..i] + [bars[i]];
    CleanStep(bars[..i], bars[i], r);
    assert bars[..i + 1][..i] == bars[..i];
  }

  method ValidateBarCoverage(bars: seq<Bar>, r: Request, policy: Policy) returns (d: Diagnostic)
    ensures !d.status.Rejected? <==>
      && bars != [] && Clean(bars, r)
      && d.gaps <= policy.maxMissingIntervals
      && !(policy.requireBounds && BoundsMissing(bars, r))
    ensures bars != [] ==> d.gaps == if r.interval > 0 then Gaps(bars, r.interval) else 0
    ensures d.reason ==
      if bars == [] then MissingSeries
      else if !Clean(bars, r) then LastFault(bars, r)
      else if d.gaps > policy.maxMissingIntervals then InternalGap
      else if policy.requireBounds && BoundsMissing(bars, r) then Bounds
      else NoReason
    ensures d.status.Warning? <==> !d.status.Rejected? && d.gaps > 0
  {
    if bars == [] {
      return Diagnostic(Rejected, MissingSeries, 0);
    }
    d := ScanBars(bars, r);
    if d.status.Ok? && d.gaps > policy.maxMissingIntervals {
      d := d.(status := Rejected, reason := InternalGap);
    }
    if d.status.Ok? && policy.requireBounds && BoundsMissing(bars, r) {
      d := d.(status := Rejected, reason := Bounds);
    }
    if d.status.Ok? && d.gaps > 0 {
      d := d.(status := Warning);
    }
  }

  /** A clean series of intervals longer than a millisecond is ordered data: exactly what the
      no-look-ahead results need. */
  lemma CleanIsOrdered(bars: seq<Bar>, r: Request)
    requires Clean(bars, r) && !r.feature && r.interval > NS_PER_MS
    ensures Ordered(bars)
  {
    forall i, j | 0 <= i < j < |bars| ensures bars[i].closeTime <= bars[j].closeTime {
      assert ValidWidth(bars[i], r) && ValidWidth(bars[j], r);
    }
    forall i | 0 <= i < |bars| ensures bars[i].openTime < bars[i].closeTime {
      assert ValidWidth(bars[i], r);
    }
  }

  /** Where the width check is looser, bars without width or inside one another pass it. */
  lemma LooseWidthsMayOverlap(r: Request) returns (bars: seq<Bar>)
    requires r.feature || r.interval <= 0 || r.interval == NS_PER_MS
    ensures Clean(bars, r) && !Ordered(bars)
  {
    if r.interval == NS_PER_MS && !r.feature {
      bars := [Bar(0, 1.0, 1.0, 1.0, 1.0, 0.0, 0)];
      assert ValidWidth(bars[0], r);
      assert !(bars[0].openTime < bars[0].closeTime);
    } else {
      bars := [Bar(0, 1.0, 1.0, 1.0, 1.0, 0.0, 3), Bar(1, 1.0, 1.0, 1.0, 1.0, 0.0, 2)];
      assert ValidWidth(bars[0], r) && ValidWidth(bars[1], r);
      assert !(bars[0].closeTime <= bars[1].closeTime);
    }
  }

  /** Passing coverage makes a series ordered exactly for decision and execution data at any positive
      interval but one millisecond. */
  lemma CleanOrdersIff(r: Request)
    ensures (forall bars :: Clean(bars, r) ==> Ordered(bars)) <==>
            !r.feature && r.interval > 0 && r.interval != NS_PER_MS
  {
    if !r.feature && r.interval > 0 && r.interval != NS_PER_MS {
      forall bars | Clean(bars, r) ensures Ordered(bars) {
        if r.interval > NS_PER_MS {
          CleanIsOrdered(bars, r);
        } else if bars != [] {
          NothingSoNarrow(bars, r);
        }
      }
    } else {
      var bars := LooseWidthsMayOverlap(r);
    }
  }

  /** Bar times are whole milliseconds, so no bar is narrower. */
  lemma NothingSoNarrow(bars: seq<Bar>, r: Request)
    requires bars != [] && !r.feature && 0 < r.interval < NS_PER_MS
    ensures !Clean(bars, r)
  {
    assert !ValidWidth(bars[0], r);
  }

  // ---------- Regular series ----------

  /** Bars on the grid of an interval: bar k opens a whole number of intervals after the first. */
  ghost predicate OnGrid(bars: seq<Bar>, slots: seq<nat>, interval: int) {
    && |slots| == |bars| && (forall i, j :: 0 <= i < j < |bars| ==> slots[i] < slots[j])
    && (forall k :: 0 <= k < |bars| ==> (bars[k].openTime - bars[0].openTime) * NS_PER_MS == slots[k] * interval)
  }

  lemma WholeQuotient(n: nat, interval: int)
    requires interval > 0
    ensures Truncated(n * interval, interval) == n
  {
  }

  lemma StepOnGrid(bars: seq<Bar>, slots: seq<nat>, interval: int, k: nat)
    requires OnGrid(bars, slots, interval) && interval > 0 && k + 1 < |bars|
    ensures Missing(bars[k].openTime, bars[k + 1], interval) == slots[k + 1] - slots[k] - 1
  {
    var n: nat := slots[k + 1] - slots[k];
    assert (bars[k + 1].openTime - bars[k].openTime) * NS_PER_MS == n * interval by {
      assert slots[k + 1] * interval - slots[k] * interval == n * interval;
    }
    WholeQuotient(n, interval);
  }

  /** The gaps of a series on a grid are the intervals between its first and last bar that have none. */
  lemma {:induction false} GapsAreEmptySlots(bars: seq<Bar>, slots: seq<nat>, interval: int)
    requires OnGrid(bars, slots, interval) && interval > 0 && bars != []
    ensures Gaps(bars, interval) == slots[|slots| - 1] - slots[0] - (|bars| - 1)
    decreases |bars|
  {
    if |bars| > 1 {
      var last := |bars| - 1;
      assert OnGrid(bars[..last], slots[..last], interval);
      GapsAreEmptySlots(bars[..last], slots[..last], interval);
      StepOnGrid(bars, slots, interval, last - 1);
    }
  }

  /** A series without a hole, each bar as wide as the interval or a millisecond less, passes within bounds
      it reaches. */
  lemma RegularSeriesPasses(bars: seq<Bar>, slots: seq<nat>, r: Request)
    requires OnGrid(bars, slots, r.interval) && r.interval > 0 && bars != []
    requires forall k :: 0 <= k < |bars| ==> slots[k] == k
    requires forall k :: 0 <= k < |bars| ==>
      var width := (bars[k].closeTime - bars[k].openTime) * NS_PER_MS;
      width > 0 && (width == r.interval || width == r.interval - NS_PER_MS)
    ensures Clean(bars, r) && Gaps(bars, r.interval) == 0
  {
    GapsAreEmptySlots(bars, slots, r.interval);
    forall i, j | 0 <= i < j < |bars| ensures bars[i].openTime < bars[j].openTime {
      GridIsIncreasing(i, j, r.interval);
    }
  }

  lemma GridIsIncreasing(i: nat, j: nat, interval: int)
    requires i < j && interval > 0
    ensures i * interval < j * interval
  {
    assert (j - i) * interval > 0;
  }

  /** A series covers the bounds asked for exactly when it starts by the start and ends within a millisecond
      of the end, or later. */
  lemma BoundsMissingIff(bars: seq<Bar>, r: Request)
    requires bars != []
    ensures !BoundsMissing(bars, r) <==>
      && (r.start.Some? ==> bars[0].openTime * NS_PER_MS <= r.start.value)
      && (r.end.Some? ==> (bars[|bars| - 1].closeTime + 1) * NS_PER_MS >= r.end.value)
  {
  }
}
