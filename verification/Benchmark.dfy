/** Cursors that walk a series forward instead of searching it: they answer the same as-of query. */
module Benchmark {
  import opened MarketData
  import opened Causality
  import opened Sequences

  /** Replay state of one symbol: the last completed bar and its close. */
  class SymbolState {
    const series: seq<Bar>
    var lastIndex: int
    var lastPrice: real

    constructor (series: seq<Bar>)
      ensures this.series == series && Valid() && lastIndex == -1
    {
      this.series, lastIndex, lastPrice := series, -1, 0.0;
    }

    ghost predicate Valid()
      reads this
    {
      -1 <= lastIndex < |series| && (lastIndex >= 0 ==> lastPrice == series[lastIndex].close)
    }

    /** Moves past every bar that has closed by currentTime. */
    method Advance(currentTime: int)
      requires Valid()
      modifies this
      ensures Valid() && lastIndex == Advanced(series, old(lastIndex), Millis(currentTime))
      ensures lastIndex == old(lastIndex) ==> lastPrice == old(lastPrice)
    {
      while lastIndex + 1 < |series| && series[lastIndex + 1].closeTime <= Millis(currentTime)
        invariant Valid()
        invariant Advanced(series, lastIndex, Millis(currentTime))
               == Advanced(series, old(lastIndex), Millis(currentTime))
        invariant lastIndex == old(lastIndex) ==> lastPrice == old(lastPrice)
        invariant lastIndex >= old(lastIndex)
        decreases |series| - lastIndex
      {
        lastIndex := lastIndex + 1;
        lastPrice := series[lastIndex].close;
      }
    }
  }

  /** Where a cursor at index stops at a given millisecond. */
  function Advanced(series: seq<Bar>, index: int, ms: int): (r: int)
    requires -1 <= index < |series|
    ensures index <= r < |series|
    decreases |series| - index
  {
    if index + 1 < |series| && series[index + 1].closeTime <= ms then Advanced(series, index + 1, ms) else index
  }

  /** A cursor that starts at or before the as-of position stops exactly there. */
  lemma AdvancedIsAsOf(series: seq<Bar>, index: int, at: int)
    requires Ordered(series) && -1 <= index < |series| && index < CountClosed(series, at)
    ensures Advanced(series, index, Millis(at)) == CountClosed(series, at) - 1
    decreases |series| - index
  {
    CountClosedMeaning(series, at);
    if index + 1 < |series| {
      ClosedByMillis(series[index + 1].closeTime, at);
      if series[index + 1].closeTime <= Millis(at) {
        AdvancedIsAsOf(series, index + 1, at);
      }
    }
  }

  lemma ClosedByMillis(closeTime: int, at: int)
    ensures closeTime <= Millis(at) <==> Instant(closeTime) <= at
  {
  }

  function Walk(series: seq<Bar>, index: int, times: seq<int>): (r: int)
    requires -1 <= index < |series|
    ensures -1 <= r < |series|
    decreases |times|
  {
    if times == [] then index else Walk(series, Advanced(series, index, Millis(times[0])), times[1..])
  }

  ghost predicate Nondecreasing(times: seq<int>) {
    forall i, j :: 0 <= i <= j < |times| ==> times[i] <= times[j]
  }

  /** Stepping a fresh cursor through any clock that never runs back leaves it on the bar a direct
      as-of search finds for the last tick, with that bar's close as the mark. */
  lemma {:induction false} CursorAgreesWithSearch(series: seq<Bar>, times: seq<int>)
    requires Ordered(series) && Nondecreasing(times) && times != []
    ensures var last := times[|times| - 1];
      && Walk(series, -1, times) == CountClosed(series, last) - 1
      && MarkOf(series, last)
         == if Walk(series, -1, times) < 0 then None else Some(series[Walk(series, -1, times)].close)
  {
    CountClosedMeaning(series, times[0]);
    AdvancedIsAsOf(series, -1, times[0]);
    WalkFromAsOf(series, times[0], times[1..]);
    assert times[1..] == [] ==> |times| == 1;
  }

  lemma {:induction false} WalkFromAsOf(series: seq<Bar>, now: int, times: seq<int>)
    requires Ordered(series) && Nondecreasing([now] + times)
    ensures Walk(series, CountClosed(series, now) - 1, times)
         == CountClosed(series, if times == [] then now else times[|times| - 1]) - 1
    decreases |times|
  {
    if times != [] {
      var clock := [now] + times;
      assert clock[0] <= clock[1];
      CountClosedGrows(series, now, times[0]);
      AdvancedIsAsOf(series, CountClosed(series, now) - 1, times[0]);
      assert Nondecreasing([times[0]] + times[1..]) by {
        assert [times[0]] + times[1..] == clock[1..];
      }
      WalkFromAsOf(series, times[0], times[1..]);
    }
  }

  lemma CountClosedGrows(series: seq<Bar>, a: int, b: int)
    requires Ordered(series) && a <= b
    ensures CountClosed(series, a) <= CountClosed(series, b)
  {
    CountClosedMeaning(series, a);
    CountClosedMeaning(series, b);
    var n := CountClosed(series, a);
    if n > 0 {
      assert Instant(series[n - 1].closeTime) <= b;
    }
  }

  // ---------- Aligning a benchmark curve ----------

  datatype Point = Point(at: int, value: real)

  ghost predicate Chronological(curve: seq<Point>) {
    forall i, j :: 0 <= i <= j < |curve| ==> curve[i].at <= curve[j].at
  }

  /** k is the last benchmark point at or before an instant. */
  ghost predicate LastAtOrBefore(curve: seq<Point>, at: int, k: int) {
    && 0 <= k < |curve| && curve[k].at <= at
    && forall j :: k < j < |curve| ==> curve[j].at > at
  }

  ghost predicate LatestValue(baseline: seq<Point>, at: int, value: real) {
    exists k :: LastAtOrBefore(baseline, at, k) && value == baseline[k].value
  }

  /** Where a cursor over the benchmark stops for an instant. */
  function Reached(baseline: seq<Point>, index: nat, at: int): (r: nat)
    requires index < |baseline|
    ensures index <= r < |baseline|
    decreases |baseline| - index
  {
    if index + 1 < |baseline| && baseline[index + 1].at <= at then Reached(baseline, index + 1, at) else index
  }

  /** The values a cursor meets, from where it stands; None once it stands after a candidate point. */
  function AlignFrom(candidate: seq<Point>, baseline: seq<Point>, index: nat): Option<seq<real>>
    requires index < |baseline|
    decreases |candidate|
  {
    if candidate == [] then Some([])
    else
      var k := Reached(baseline, index, candidate[0].at);
      if baseline[k].at > candidate[0].at then None
      else
        match AlignFrom(candidate[1..], baseline, k)
        case None => None
        case Some(rest) => Some([baseline[k].value] + rest)
  }

  function AlignmentOf(candidate: seq<Point>, baseline: seq<Point>): Option<seq<real>> {
    if |candidate| < 2 || |baseline| < 2 then None
    else if baseline[|baseline| - 1].at < candidate[|candidate| - 1].at then None
    else AlignFrom(candidate, baseline, 0)
  }

  function Prepended(values: seq<real>, rest: Option<seq<real>>): Option<seq<real>> {
    match rest
    case None => None
    case Some(more) => Some(values + more)
  }

  lemma PrependNothing(values: seq<real>, rest: Option<seq<real>>)
    ensures Prepended([], rest) == rest && Prepended(values, Some([])) == Some(values)
  {
    assert values + [] == values;
    if rest.Some? {
      assert [] + rest.value == rest.value;
    }
  }

  lemma PrependOne(values: seq<real>, value: real, rest: Option<seq<real>>)
    ensures Prepended(values, Prepended([value], rest)) == Prepended(values + [value], rest)
  {
    if rest.Some? {
      Assoc(values, [value], rest.value);
    }
  }

  method AlignBenchmark(candidate: seq<Point>, baseline: seq<Point>) returns (aligned: Option<seq<real>>)
    ensures aligned == AlignmentOf(candidate, baseline)
  {
    if |candidate| < 2 || |baseline| < 2 {
      return None;
    }
    var values: seq<real> := [];
    var index := 0;
    assert candidate[0..] == candidate;
    PrependNothing([], AlignFrom(candidate, baseline, 0));
    for i := 0 to |candidate|
      invariant 0 <= index < |baseline|
      invariant AlignFrom(candidate, baseline, 0) == Prepended(values, AlignFrom(candidate[i..], baseline, index))
    {
      var at := candidate[i].at;
      assert candidate[i..][0] == candidate[i] && candidate[i..][1..] == candidate[i + 1..];
      ghost var before := index;
      while index + 1 < |baseline| && baseline[index + 1].at <= at
        invariant before <= index < |baseline|
        invariant Reached(baseline, before, at) == Reached(baseline, index, at)
        decreases |baseline| - index
      {
        index := index + 1;
      }
      if baseline[index].at > at {
        return None;
      }
      PrependOne(values, baseline[index].value, AlignFrom(candidate[i + 1..], baseline, index));
      values := values + [baseline[index].value];
    }
    if baseline[|baseline| - 1].at < candidate[|candidate| - 1].at {
      return None;
    }
    assert candidate[|candidate|..] == [];
    PrependNothing(values, None);
    aligned := Some(values);
  }

  lemma ReachedMeaning(baseline: seq<Point>, index: nat, at: int)
    requires Chronological(baseline) && index < |baseline| && (index == 0 || baseline[index].at <= at)
    ensures var k := Reached(baseline, index, at);
      && (k == 0 || baseline[k].at <= at)
      && (forall j :: k < j < |baseline| ==> baseline[j].at > at)
    decreases |baseline| - index
  {
    if index + 1 < |baseline| {
      if baseline[index + 1].at <= at {
        ReachedMeaning(baseline, index + 1, at);
      } else {
        assert forall j :: index + 1 <= j < |baseline| ==> baseline[index + 1].at <= baseline[j].at;
      }
    }
  }

  lemma {:induction false} AlignFromIsLatest(candidate: seq<Point>, baseline: seq<Point>, index: nat)
    requires Chronological(candidate) && Chronological(baseline) && index < |baseline|
    requires index == 0 || (candidate != [] ==> baseline[index].at <= candidate[0].at)
    ensures AlignFrom(candidate, baseline, index).Some? <==> candidate == [] || baseline[0].at <= candidate[0].at
    ensures AlignFrom(candidate, baseline, index).Some? ==>
      var values := AlignFrom(candidate, baseline, index).value;
      && |values| == |candidate|
      && forall i :: 0 <= i < |candidate| ==> LatestValue(baseline, candidate[i].at, values[i])
    decreases |candidate|
  {
    if candidate != [] {
      var at, rest := candidate[0].at, candidate[1..];
      var k := Reached(baseline, index, at);
      ReachedMeaning(baseline, index, at);
      assert baseline[0].at <= baseline[k].at;
      if baseline[k].at <= at {
        assert rest != [] ==> at <= rest[0].at;
        AlignFromIsLatest(rest, baseline, k);
        assert LastAtOrBefore(baseline, at, k);
        assert forall i :: 1 <= i < |candidate| ==> candidate[i] == rest[i - 1];
      }
    }
  }

  /** On curves in time order each candidate point gets the benchmark's latest value and never a later
      one; it fails exactly when the benchmark starts after the candidate or ends before it. */
  lemma AlignmentIsLatest(candidate: seq<Point>, baseline: seq<Point>)
    requires Chronological(candidate) && Chronological(baseline)
    ensures var aligned := AlignmentOf(candidate, baseline);
      && (aligned.None? <==>
            |candidate| < 2 || |baseline| < 2
            || baseline[0].at > candidate[0].at || baseline[|baseline| - 1].at < candidate[|candidate| - 1].at)
      && (aligned.Some? ==>
            && |aligned.value| == |candidate|
            && forall i :: 0 <= i < |candidate| ==> LatestValue(baseline, candidate[i].at, aligned.value[i]))
  {
    if |candidate| >= 2 && |baseline| >= 2 {
      AlignFromIsLatest(candidate, baseline, 0);
    }
  }
}
