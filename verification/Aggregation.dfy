/** Aggregation of bars into wider ones, a fixed number at a time with a shorter last bucket. */
module Aggregation {
  import opened RealMath
  import opened MarketData
  import opened Sequences

  function HighOf(bucket: seq<Bar>): real
    requires bucket != []
  {
    if |bucket| == 1 then bucket[0].high else Max(HighOf(bucket[..|bucket| - 1]), bucket[|bucket| - 1].high)
  }

  function LowOf(bucket: seq<Bar>): real
    requires bucket != []
  {
    if |bucket| == 1 then bucket[0].low else Min(LowOf(bucket[..|bucket| - 1]), bucket[|bucket| - 1].low)
  }

  function VolumeOf(bars: seq<Bar>): real {
    if bars == [] then 0.0 else VolumeOf(bars[..|bars| - 1]) + bars[|bars| - 1].volume
  }

  /** One bar for a bucket. */
  function Merged(bucket: seq<Bar>): Bar
    requires bucket != []
  {
    var first, last := bucket[0], bucket[|bucket| - 1];
    Bar(first.openTime, first.open, HighOf(bucket), LowOf(bucket), last.close, VolumeOf(bucket), last.closeTime)
  }

  /** Buckets of n bars from the front; n of one or less leaves the bars as they are. */
  function Aggregate(series: seq<Bar>, n: int): seq<Bar> {
    if series == [] || n <= 1 then series
    else if |series| <= n then [Merged(series)]
    else [Merged(series[..n])] + Aggregate(series[n..], n)
  }

  /** The inner loop over one bucket. */
  method MergeBucket(bucket: seq<Bar>) returns (merged: Bar)
    requires bucket != []
    ensures merged == Merged(bucket)
  {
    var last := bucket[|bucket| - 1];
    merged := bucket[0].(volume := 0.0, close := last.close, closeTime := last.closeTime);
    for i := 0 to |bucket|
      invariant merged.high == if i == 0 then bucket[0].high else HighOf(bucket[..i])
      invariant merged.low == if i == 0 then bucket[0].low else LowOf(bucket[..i])
      invariant merged == Bar(bucket[0].openTime, bucket[0].open, merged.high, merged.low, last.close,
                              VolumeOf(bucket[..i]), last.closeTime)
    {
      var candle := bucket[i];
      assert bucket[..i + 1][..i] == bucket[..i];
      if candle.high > merged.high {
        merged := merged.(high := candle.high);
      }
      if candle.low < merged.low {
        merged := merged.(low := candle.low);
      }
      merged := merged.(volume := merged.volume + candle.volume);
    }
    assert bucket[..|bucket|] == bucket;
  }

  /** The bars from an index on; none once it is past the end. */
  function From(series: seq<Bar>, start: nat): seq<Bar> {
    if start < |series| then series[start..] else []
  }

  function EndOf(series: seq<Bar>, start: nat, n: nat): nat {
    if start + n > |series| then |series| else start + n
  }

  lemma NextBucket(series: seq<Bar>, start: nat, n: nat)
    requires start < |series| && n > 1
    ensures Aggregate(From(series, start), n)
         == [Merged(series[start..EndOf(series, start, n)])] + Aggregate(From(series, start + n), n)
  {
    var rest := series[start..];
    if |rest| > n {
      assert rest[..n] == series[start..start + n] && rest[n..] == series[start + n..];
    } else {
      assert rest == series[start..|series|] && From(series, start + n) == [];
    }
  }

  method AggregateByBars(series: seq<Bar>, barsPerBucket: int) returns (aggregated: seq<Bar>)
    ensures aggregated == Aggregate(series, barsPerBucket)
  {
    if |series| == 0 || barsPerBucket <= 1 {
      return series;
    }
    aggregated := [];
    var start := 0;
    assert From(series, 0) == series;
    while start < |series|
      invariant Aggregate(series, barsPerBucket) == aggregated + Aggregate(From(series, start), barsPerBucket)
    {
      var end := start + barsPerBucket;
      if end > |series| {
        end := |series|;
      }
      NextBucket(series, start, barsPerBucket);
      var merged := MergeBucket(series[start..end]);
      Assoc(aggregated, [merged], Aggregate(From(series, start + barsPerBucket), barsPerBucket));
      aggregated := aggregated + [merged];
      start := start + barsPerBucket;
    }
  }

  // ---------- Buckets ----------

  /** The bar of two adjacent stretches, from their bars. */
  function Joined(p: Bar, q: Bar): Bar {
    Bar(p.openTime, p.open, Max(p.high, q.high), Min(p.low, q.low), q.close, p.volume + q.volume, q.closeTime)
  }

  lemma {:induction false} ExtremesJoin(x: seq<Bar>, y: seq<Bar>)
    requires x != [] && y != []
    ensures HighOf(x + y) == Max(HighOf(x), HighOf(y)) && LowOf(x + y) == Min(LowOf(x), LowOf(y))
    ensures VolumeOf(x + y) == VolumeOf(x) + VolumeOf(y)
  {
    var front := y[..|y| - 1];
    assert (x + y)[..|x + y| - 1] == x + front;
    if front == [] {
      assert x + front == x && VolumeOf(front) == 0.0;
    } else {
      ExtremesJoin(x, front);
    }
  }

  lemma MergedJoin(x: seq<Bar>, y: seq<Bar>)
    requires x != [] && y != []
    ensures Merged(x + y) == Joined(Merged(x), Merged(y))
  {
    ExtremesJoin(x, y);
  }

  lemma MergedOne(b: Bar)
    ensures Merged([b]) == b
  {
    assert VolumeOf([b]) == VolumeOf([]) + b.volume by {
      assert [b][..0] == [];
    }
  }

  /** High and low are the extremes of the bucket, and volume its total. */
  lemma {:induction false} MergedExtremes(bucket: seq<Bar>)
    requires bucket != []
    ensures forall i :: 0 <= i < |bucket| ==>
              Merged(bucket).low <= bucket[i].low && bucket[i].high <= Merged(bucket).high
    ensures exists i :: 0 <= i < |bucket| && bucket[i].high == Merged(bucket).high
    ensures exists i :: 0 <= i < |bucket| && bucket[i].low == Merged(bucket).low
    ensures var merged, last := Merged(bucket), bucket[|bucket| - 1];
      && merged.openTime == bucket[0].openTime && merged.open == bucket[0].open
      && merged.closeTime == last.closeTime && merged.close == last.close
  {
    if |bucket| == 1 {
      assert bucket[0].high == Merged(bucket).high && bucket[0].low == Merged(bucket).low;
    } else {
      var front := bucket[..|bucket| - 1];
      MergedExtremes(front);
      var h :| 0 <= h < |front| && front[h].high == Merged(front).high;
      var l :| 0 <= l < |front| && front[l].low == Merged(front).low;
      assert bucket[h] == front[h] && bucket[l] == front[l];
      assert forall i :: 0 <= i < |front| ==> bucket[i] == front[i];
      var last := |bucket| - 1;
      assert bucket[if bucket[last].high >= front[h].high then last else h].high == Merged(bucket).high;
      assert bucket[if bucket[last].low <= front[l].low then last else l].low == Merged(bucket).low;
    }
  }

  /** Merging the aggregate of a stretch is merging the stretch. */
  lemma {:induction false} MergedAggregate(s: seq<Bar>, n: int)
    requires s != []
    ensures Aggregate(s, n) != [] && Merged(Aggregate(s, n)) == Merged(s)
    decreases |s|
  {
    if n <= 1 {
    } else if |s| <= n {
      MergedOne(Merged(s));
    } else {
      var head, rest := s[..n], s[n..];
      MergedAggregate(rest, n);
      MergedOne(Merged(head));
      MergedJoin([Merged(head)], Aggregate(rest, n));
      MergedJoin(head, rest);
      assert s == head + rest;
    }
  }

  /** No volume is lost or counted twice. */
  lemma {:induction false} AggregateKeepsVolume(s: seq<Bar>, n: int)
    ensures VolumeOf(Aggregate(s, n)) == VolumeOf(s)
  {
    if s != [] {
      MergedAggregate(s, n);
      assert Merged(Aggregate(s, n)).volume == Merged(s).volume;
    }
  }

  // ---------- Composition ----------

  /** The bucket width a parameter stands for. */
  function Width(n: int): (w: nat)
    ensures w > 0
  {
    if n <= 1 then 1 else n
  }

  function Product(a: nat, b: nat): nat {
    a * b
  }

  lemma ProductStep(a: nat, b: nat)
    requires b > 0
    ensures Product(a, b) == a + Product(a, b - 1)
    ensures Product(a, b) >= a
  {
  }

  /** The first k full buckets of a bars each stand alone. */
  lemma {:induction false} AggregateSplits(s: seq<Bar>, a: int, k: nat)
    requires a > 1 && Product(a, k) <= |s|
    ensures var cut := Product(a, k);
      |Aggregate(s[..cut], a)| == k && Aggregate(s, a) == Aggregate(s[..cut], a) + Aggregate(s[cut..], a)
    decreases k
  {
    var cut := Product(a, k);
    if k == 0 {
      assert s[..cut] == [] && s[cut..] == s;
    } else {
      ProductStep(a, k);
      AggregateSplits(s[a..], a, k - 1);
      SplitMore(s, a, cut, Product(a, k - 1));
    }
  }

  lemma SplitMore(s: seq<Bar>, a: int, cut: nat, inner: nat)
    requires 1 < a && a + inner == cut <= |s|
    requires Aggregate(s[a..], a) == Aggregate(s[a..][..inner], a) + Aggregate(s[a..][inner..], a)
    ensures Aggregate(s, a) == Aggregate(s[..cut], a) + Aggregate(s[cut..], a)
    ensures |Aggregate(s[..cut], a)| == 1 + |Aggregate(s[a..][..inner], a)|
  {
    FrontBucket(s, a);
    FrontBucket(s[..cut], a);
    Slices(s, a, cut, inner);
    Assoc([Merged(s[..a])], Aggregate(s[a..][..inner], a), Aggregate(s[cut..], a));
  }

  lemma Slices(s: seq<Bar>, a: nat, cut: nat, inner: nat)
    requires a + inner == cut <= |s|
    ensures s[..cut][..a] == s[..a] && s[..cut][a..] == s[a..][..inner] && s[a..][inner..] == s[cut..]
  {
  }

  /** A first full bucket stands alone. */
  lemma FrontBucket(s: seq<Bar>, a: int)
    requires 1 < a <= |s|
    ensures Aggregate(s, a) == [Merged(s[..a])] + Aggregate(s[a..], a)
  {
    if |s| == a {
      assert s[..a] == s && s[a..] == [];
    }
  }

  lemma {:induction false} AggregateCount(s: seq<Bar>, a: int, k: nat)
    requires a > 1 && s != [] && |s| <= Product(a, k)
    ensures 1 <= |Aggregate(s, a)| <= k
    decreases k
  {
    assert Product(a, 0) == 0;
    ProductStep(a, k);
    if |s| > a {
      AggregateCount(s[a..], a, k - 1);
    }
  }

  /** With both widths above one. */
  lemma {:induction false} WideAggregationComposes(s: seq<Bar>, a: int, b: int)
    requires a > 1 && b > 1
    ensures Aggregate(Aggregate(s, a), b) == Aggregate(s, Product(a, b))
    decreases |s|
  {
    var cut := Product(a, b);
    ProductStep(a, b);
    if s == [] {
    } else if |s| <= cut {
      AggregateCount(s, a, b);
      MergedAggregate(s, a);
    } else {
      AggregateSplits(s, a, b);
      var head, rest := Aggregate(s[..cut], a), Aggregate(s[cut..], a);
      MergedAggregate(s[..cut], a);
      FrontBucket(head + rest, b);
      assert (head + rest)[..b] == head && (head + rest)[b..] == rest;
      WideAggregationComposes(s[cut..], a, b);
      FrontBucket(s, cut);
    }
  }

  /** Aggregating by a and then by b is aggregating by their product, for any bars and any widths. */
  lemma AggregationComposes(s: seq<Bar>, a: int, b: int)
    ensures Aggregate(Aggregate(s, a), b) == Aggregate(s, Product(Width(a), Width(b)))
  {
    if a > 1 && b > 1 {
      WideAggregationComposes(s, a, b);
    } else {
      ProductOfOne(Width(a), Width(b));
    }
  }

  lemma ProductOfOne(a: nat, b: nat)
    ensures a == 1 ==> Product(a, b) == b
    ensures b == 1 ==> Product(a, b) == a
  {
  }

  /** Bucket k holds the bars from k * n up to the next multiple of n, or to the end. */
  lemma {:induction false} BucketHolds(s: seq<Bar>, n: int, k: nat)
    requires n > 1 && Product(n, k) < |s|
    ensures var from := Product(n, k);
      var to := if from + n <= |s| then from + n else |s|;
      && k < |Aggregate(s, n)|
      && Aggregate(s, n)[k] == Merged(s[from..to])
  {
    var from := Product(n, k);
    AggregateSplits(s, n, k);
    var rest := s[from..];
    if |rest| > n {
      assert rest[..n] == s[from..from + n];
    } else {
      assert rest == s[from..|s|];
    }
  }
}
