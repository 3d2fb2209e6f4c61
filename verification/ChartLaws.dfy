/** What a drawn chart may rely on, stated about the emitted points and the full minute series. */
module ChartLaws {
  import opened Wrappers
  import opened MinuteSeries
  import opened Downsampling
  import opened DownsamplingLaws
  import opened ChartSeries

  const ISOLATED_POINT_SYMBOL_SIZE := 5

  /** A lone point gets a visible symbol, because no line would show it. */
  function IsolatedPointSymbolSize(data: seq<Point>, dataIndex: int): int {
    if !(0 <= dataIndex < |data|) || data[dataIndex].value.None? then 0
    else
      var previousIsBreak := dataIndex == 0 || data[dataIndex - 1].value.None?;
      var nextIsBreak := dataIndex == |data| - 1 || data[dataIndex + 1].value.None?;
      if previousIsBreak && nextIsBreak then ISOLATED_POINT_SYMBOL_SIZE else 0
  }

  /** Consecutive minutes, as FullSeries lists them. */
  ghost predicate IsMinuteGrid(full: seq<Point>) {
    forall i, j | 0 <= i < j < |full| :: full[i].timestampMs < full[j].timestampMs
  }

  lemma FullSeriesIsMinuteGrid(points: seq<RawPoint>, fromUnix: int, toUnix: int, selector: Selector)
    requires fromUnix <= toUnix
    ensures IsMinuteGrid(FullSeries(points, fromUnix, toUnix, selector))
    ensures 1 <= |FullSeries(points, fromUnix, toUnix, selector)|
  {
  }

  /** Where the emitted points come from. */
  ghost function Sources(full: seq<Point>, budget: nat): (sources: seq<int>)
    requires MIN_POINT_BUDGET <= budget && 1 <= |full|
  {
    KeptIndices(Column(full), PlanFor(|full|, budget))
  }

  /** The points are a strictly time-ordered subsequence of the full series, with both its ends. */
  lemma ReductionIsOrderedSubsequence(prepared: PreparedSeries, full: seq<Point>, budget: nat)
    requires MIN_POINT_BUDGET <= budget && 1 <= |full| && IsMinuteGrid(full)
    requires IsReductionOf(prepared, full, budget)
    ensures var data, sources := prepared.data, Sources(full, budget);
      && |data| == |sources|
      && (forall k | 0 <= k < |data| :: 0 <= sources[k] < |full| && data[k] == full[sources[k]])
      && (forall j, k | 0 <= j < k < |data| :: sources[j] < sources[k] && data[j].timestampMs < data[k].timestampMs)
    ensures |prepared.data| > 0
    ensures prepared.data[0] == full[0] && prepared.data[|prepared.data| - 1] == full[|full| - 1]
  {
    var sources := Sources(full, budget);
    var values, plan := Column(full), PlanFor(|full|, budget);
    assert Kept(values, plan, 0) && Kept(values, plan, |full| - 1);
    assert 0 in sources && |full| - 1 in sources;
  }

  /** No drawn line crosses a missing minute. */
  lemma DrawnLinesAreUnbroken(prepared: PreparedSeries, full: seq<Point>, budget: nat, p: nat, i: nat)
    requires MIN_POINT_BUDGET <= budget && 1 <= |full| && IsMinuteGrid(full)
    requires IsReductionOf(prepared, full, budget)
    requires p + 1 < |prepared.data| && prepared.data[p].value.Some? && prepared.data[p + 1].value.Some?
    requires i < |full|
    requires prepared.data[p].timestampMs <= full[i].timestampMs <= prepared.data[p + 1].timestampMs
    ensures full[i].value.Some?
  {
    var values, plan, sources := Column(full), PlanFor(|full|, budget), Sources(full, budget);
    AdjacentPointsAreUnbroken(values, plan, p);
    assert prepared.data[p] == full[sources[p]] && prepared.data[p + 1] == full[sources[p + 1]];
    assert sources[p] <= i <= sources[p + 1];
    assert values[i] == full[i].value;
  }

  /** Every gap shows up as a null point, and every run of values keeps both its ends. */
  lemma BoundariesAreEmitted(prepared: PreparedSeries, full: seq<Point>, budget: nat, i: nat)
    requires MIN_POINT_BUDGET <= budget && 1 <= |full| && i < |full|
    requires IsReductionOf(prepared, full, budget)
    requires full[i].value.None? ==> i == 0 || full[i - 1].value.Some?
    requires full[i].value.Some? ==>
      i == 0 || full[i - 1].value.None? || i == |full| - 1 || full[i + 1].value.None?
    ensures full[i] in prepared.data
  {
    var values, plan, sources := Column(full), PlanFor(|full|, budget), Sources(full, budget);
    assert Kept(values, plan, i);
    var k :| 0 <= k < |sources| && sources[k] == i;
    assert prepared.data[k] == full[i];
  }

  /** The isolated symbol marks exactly the runs of a single minute of the full series. */
  lemma IsolatedSymbolExactly(prepared: PreparedSeries, full: seq<Point>, budget: nat, p: nat)
    requires MIN_POINT_BUDGET <= budget && 1 <= |full|
    requires IsReductionOf(prepared, full, budget) && p < |prepared.data|
    ensures p < |Sources(full, budget)| && 0 <= Sources(full, budget)[p] < |full|
    ensures var i := Sources(full, budget)[p];
      IsolatedPointSymbolSize(prepared.data, p) == ISOLATED_POINT_SYMBOL_SIZE
      <==> full[i].value.Some? && (i == 0 || full[i - 1].value.None?) && (i == |full| - 1 || full[i + 1].value.None?)
  {
    var values, plan, sources := Column(full), PlanFor(|full|, budget), Sources(full, budget);
    assert prepared.data[p] == full[sources[p]];
    if values[sources[p]].Some? {
      IsolatedExactly(values, plan, p);
      assert p > 0 ==> prepared.data[p - 1] == full[sources[p - 1]];
      assert p < |sources| - 1 ==> prepared.data[p + 1] == full[sources[p + 1]];
    }
  }

  // Buckets, in numbers

  /** Over a budget of P points, a chart has (P - 2) / 4 buckets, of equal size but for the last ones. */
  lemma BucketsInNumbers(minuteCount: nat, budget: nat)
    requires 160 <= budget < minuteCount
    ensures
      var buckets := (budget - 2) / 4;
      && BucketCount(minuteCount, budget) == buckets
      && PlanFor(minuteCount, budget) == Bucketed((minuteCount + buckets - 1) / buckets)
  {
  }

  /** Minute i is the first, the last, the earliest smallest or the earliest largest finite one of minutes lo to hi. */
  predicate IsOutstanding(full: seq<Point>, lo: int, hi: int, i: int)
    requires 0 <= lo <= i < hi <= |full|
  {
    full[i].value.Some? &&
    (|| (forall k | lo <= k < i :: full[k].value.None?)
     || (forall k | i < k < hi :: full[k].value.None?)
     || (&& (forall k | lo <= k < i && full[k].value.Some? :: full[i].value.value < full[k].value.value)
         && (forall k | i < k < hi && full[k].value.Some? :: full[i].value.value <= full[k].value.value))
     || (&& (forall k | lo <= k < i && full[k].value.Some? :: full[k].value.value < full[i].value.value)
         && (forall k | i < k < hi && full[k].value.Some? :: full[k].value.value <= full[i].value.value)))
  }

  /** Minute i lies at an end of the range, begins a gap, or begins or ends a run. */
  predicate IsBoundary(full: seq<Point>, i: int)
    requires 0 <= i < |full|
  {
    || i == 0 || i == |full| - 1
    || (full[i].value.None? && full[i - 1].value.Some?)
    || (full[i].value.Some? && (full[i - 1].value.None? || full[i + 1].value.None?))
  }

  lemma OutstandingIsExtreme(full: seq<Point>, lo: int, hi: int, i: int)
    requires 0 <= lo <= i < hi <= |full|
    ensures IsOutstanding(full, lo, hi, i) <==> IsExtreme(Column(full), lo, hi, i)
  {
    var values := Column(full);
    assert forall k | 0 <= k < |full| :: values[k] == full[k].value;
  }

  /** Exactly these minutes are emitted over budget; within it, all are. */
  lemma EmittedExactly(prepared: PreparedSeries, full: seq<Point>, budget: nat, buckets: nat, size: Positive, i: nat)
    requires 160 <= budget && i < |full| && IsMinuteGrid(full)
    requires buckets == (budget - 2) / 4 && size == (|full| + buckets - 1) / buckets
    requires IsReductionOf(prepared, full, budget)
    ensures i % size <= i
    ensures full[i] in prepared.data <==>
      || |full| <= budget
      || IsBoundary(full, i)
      || IsOutstanding(full, i - i % size, Min(|full|, i - i % size + size), i)
  {
    EmittedIsKept(prepared, full, budget, i);
    KeptInNumbers(full, size, i);
    if |full| > budget {
      BucketsInNumbers(|full|, budget);
      assert PlanFor(|full|, budget) == Bucketed(size);
    }
  }

  lemma KeptInNumbers(full: seq<Point>, size: Positive, i: nat)
    requires i < |full|
    ensures i % size <= i
    ensures Kept(Column(full), Bucketed(size), i) <==>
      IsBoundary(full, i) || IsOutstanding(full, i - i % size, Min(|full|, i - i % size + size), i)
  {
    BucketOf(i, size, |full|);
    assert i - i % size == BucketStart(i, size);
    BoundaryIsKept(full, size, i);
    OutstandingIsExtreme(full, BucketStart(i, size), Min(|full|, BucketStart(i, size) + size), i);
  }

  lemma BoundaryIsKept(full: seq<Point>, size: Positive, i: nat)
    requires i < |full|
    ensures Kept(Column(full), Bucketed(size), i) <==> IsBoundary(full, i) || IsBucketExtreme(Column(full), size, i)
  {
    var values := Column(full);
    assert forall k | 0 <= k < |full| :: values[k] == full[k].value;
    BucketOf(i, size, |full|);
  }

  lemma EmittedIsKept(prepared: PreparedSeries, full: seq<Point>, budget: nat, i: nat)
    requires 160 <= budget && i < |full| && IsMinuteGrid(full)
    requires IsReductionOf(prepared, full, budget)
    ensures full[i] in prepared.data <==> Kept(Column(full), PlanFor(|full|, budget), i)
  {
    var sources := Sources(full, budget);
    if full[i] in prepared.data {
      var k :| 0 <= k < |prepared.data| && prepared.data[k] == full[i];
      assert full[sources[k]] == full[i];
      assert sources[k] == i;
    }
    if Kept(Column(full), PlanFor(|full|, budget), i) {
      var k :| 0 <= k < |sources| && sources[k] == i;
      assert prepared.data[k] == full[i];
    }
  }

  /** Every finite minute lies between two emitted values less than a bucket away, in numbers. */
  lemma EveryMinuteIsNear(prepared: PreparedSeries, full: seq<Point>, budget: nat, buckets: nat, size: Positive, i: nat)
    returns (low: nat, high: nat)
    requires 160 <= budget < |full| && i < |full| && full[i].value.Some?
    requires buckets == (budget - 2) / 4 && size == (|full| + buckets - 1) / buckets
    requires IsReductionOf(prepared, full, budget)
    ensures low < |full| && high < |full| && full[low] in prepared.data && full[high] in prepared.data
    ensures full[low].value.Some? && full[high].value.Some?
    ensures full[low].value.value <= full[i].value.value <= full[high].value.value
    ensures i < low + size && low < i + size && i < high + size && high < i + size
  {
    BucketsInNumbers(|full|, budget);
    assert BucketSize(|full|, budget) == size;
    low, high := EveryMinuteIsBracketed(prepared, full, budget, i);
    SameStart(i, low, size);
    SameStart(i, high, size);
  }

  lemma SameStart(i: nat, j: nat, size: nat)
    requires 1 <= size && BucketStart(i, size) == BucketStart(j, size)
    ensures i < j + size && j < i + size
  {
    assert i == i / size * size + i % size && j == j / size * size + j % size;
  }

  /** The number of points is bounded by the budget and the number of gaps alone. */
  lemma PointCountBound(prepared: PreparedSeries, full: seq<Point>, budget: nat)
    requires MIN_POINT_BUDGET <= budget && 1 <= |full|
    requires IsReductionOf(prepared, full, budget)
    ensures var g, r := GapCount(Column(full), |full|), RunCount(Column(full), |full|);
      && |prepared.data| <= budget + g + 2 * r <= budget + 3 * g + 2
      && (|full| > budget ==> |prepared.data| <= 4 * ((budget - 2) / 4) + 2 + g + 2 * r)
  {
    KeptCount(Column(full), budget);
  }

  lemma FullMeansKeepsEverything(prepared: PreparedSeries, full: seq<Point>, budget: nat)
    requires MIN_POINT_BUDGET <= budget && 1 <= |full| && IsMinuteGrid(full)
    requires IsReductionOf(prepared, full, budget)
    ensures prepared.data == full <==> KeepsEverything(Column(full), PlanFor(|full|, budget))
  {
    ReductionIsOrderedSubsequence(prepared, full, budget);
    if |prepared.data| == |full| {
      StrictlyIncreasingIsIdentity(Sources(full, budget), |full|);
      assert prepared.data == full;
    }
  }

  /** Nothing is dropped exactly when the range fits the budget or no minute is redundant. */
  lemma FullSeriesExactly(prepared: PreparedSeries, full: seq<Point>, budget: nat)
    requires MIN_POINT_BUDGET <= budget && 1 <= |full| && IsMinuteGrid(full)
    requires IsReductionOf(prepared, full, budget)
    ensures prepared.data == full <==>
      || |full| <= budget
      || forall k | 0 < k < |full| - 1 :: !Redundant(Column(full), BucketSize(|full|, budget), k)
  {
    FullMeansKeepsEverything(prepared, full, budget);
    KeepsEverythingExactly(Column(full), budget);
  }

  lemma StrictlyIncreasingIsIdentity(indices: seq<int>, n: nat)
    requires |indices| == n
    requires forall k | 0 <= k < n :: 0 <= indices[k] < n
    requires forall j, k | 0 <= j < k < n :: indices[j] < indices[k]
    ensures forall k | 0 <= k < n :: indices[k] == k
  {
    forall k | 0 <= k < n
      ensures indices[k] == k
    {
      AtLeastPosition(indices, k);
      AtMostPosition(indices, n, k);
    }
  }

  lemma {:induction false} AtLeastPosition(indices: seq<int>, k: nat)
    requires k < |indices| && 0 <= indices[0]
    requires forall i, j | 0 <= i < j < |indices| :: indices[i] < indices[j]
    ensures k <= indices[k]
  {
    if k > 0 {
      AtLeastPosition(indices, k - 1);
    }
  }

  lemma {:induction false} AtMostPosition(indices: seq<int>, n: nat, k: nat)
    requires k < |indices| == n && indices[n - 1] < n
    requires forall i, j | 0 <= i < j < |indices| :: indices[i] < indices[j]
    ensures indices[k] <= k
    decreases n - k
  {
    if k < n - 1 {
      AtMostPosition(indices, n, k + 1);
    }
  }

  /** Without gaps, the budget alone decides. */
  lemma GapFreeFullSeriesExactly(prepared: PreparedSeries, full: seq<Point>, budget: nat)
    requires MIN_POINT_BUDGET <= budget && 1 <= |full| && IsMinuteGrid(full)
    requires IsReductionOf(prepared, full, budget)
    requires forall i | 0 <= i < |full| :: full[i].value.Some?
    ensures prepared.data == full <==> |full| <= budget
  {
    FullMeansKeepsEverything(prepared, full, budget);
    GapFreeKeepsEverythingExactly(Column(full), budget);
  }

  /** Every finite minute, emitted or not, lies between two emitted values. */
  lemma EveryMinuteIsBracketed(prepared: PreparedSeries, full: seq<Point>, budget: nat, i: nat)
    returns (low: nat, high: nat)
    requires MIN_POINT_BUDGET <= budget && 1 <= |full|
    requires IsReductionOf(prepared, full, budget)
    requires i < |full| && full[i].value.Some?
    ensures low < |full| && high < |full| && full[low] in prepared.data && full[high] in prepared.data
    ensures full[low].value.Some? && full[high].value.Some?
    ensures full[low].value.value <= full[i].value.value <= full[high].value.value
    ensures |full| > budget ==>
      var size := BucketSize(|full|, budget);
      BucketStart(low, size) == BucketStart(i, size) == BucketStart(high, size)
  {
    var values, plan, sources := Column(full), PlanFor(|full|, budget), Sources(full, budget);
    low, high := EveryValueIsBracketed(values, plan, i);
    var l :| 0 <= l < |sources| && sources[l] == low;
    var h :| 0 <= h < |sources| && sources[h] == high;
    assert prepared.data[l] == full[low] && prepared.data[h] == full[high];
  }

  /** The legend's maximum is the largest value of the whole range. */
  lemma LargestMinute(prepared: PreparedSeries, full: seq<Point>, budget: nat) returns (i: nat)
    requires MIN_POINT_BUDGET <= budget && 1 <= |full|
    requires IsReductionOf(prepared, full, budget) && prepared.stats.maximum.Some?
    ensures i < |full| && full[i].value == prepared.stats.maximum
    ensures forall k | 0 <= k < |full| && full[k].value.Some? :: full[k].value.value <= full[i].value.value
  {
    var values := Column(full);
    var k :| 0 <= k < |values| && values[k] == prepared.stats.maximum;
    assert forall j | 0 <= j < |full| :: values[j] == full[j].value;
    i := k;
  }

  /** ... and one of the drawn points shows it. */
  lemma MaximumIsDrawn(prepared: PreparedSeries, full: seq<Point>, budget: nat)
    requires MIN_POINT_BUDGET <= budget && 1 <= |full|
    requires IsReductionOf(prepared, full, budget) && prepared.stats.maximum.Some?
    ensures exists k :: 0 <= k < |prepared.data| && prepared.data[k].value == prepared.stats.maximum
  {
    var i := LargestMinute(prepared, full, budget);
    var low, high := EveryMinuteIsBracketed(prepared, full, budget, i);
    var k :| 0 <= k < |prepared.data| && prepared.data[k] == full[high];
  }

  lemma {:induction false} SumIsBounded(values: Values, n: nat, high: real)
    requires n <= |values|
    requires forall k | 0 <= k < n && values[k].Some? :: values[k].value <= high
    ensures FiniteSum(values, n) <= high * FiniteCount(values, n) as real
  {
    if n > 0 {
      SumIsBounded(values, n - 1, high);
    }
  }

  lemma {:induction false} NothingToCount(values: Values, n: nat)
    requires n <= |values|
    ensures FiniteCount(values, n) == 0 <==> NoneFinite(values, 0, n)
  {
    if n > 0 {
      NothingToCount(values, n - 1);
    }
  }

  /** The three statistics exist together; the mean never exceeds the maximum; the current value is the latest one. */
  lemma StatisticsAgree(prepared: PreparedSeries, full: seq<Point>, budget: nat)
    requires MIN_POINT_BUDGET <= budget && 1 <= |full|
    requires IsReductionOf(prepared, full, budget)
    ensures var stats := prepared.stats;
      && (stats.current.None? <==> stats.maximum.None?)
      && (stats.average.None? <==> stats.maximum.None?)
      && (stats.average.Some? && stats.maximum.Some? ==> stats.average.value <= stats.maximum.value)
    ensures prepared.stats.current.Some? ==> exists i ::
      0 <= i < |full| && full[i].value == prepared.stats.current && forall k | i < k < |full| :: full[k].value.None?
  {
    var values, stats := Column(full), prepared.stats;
    NothingToCount(values, |values|);
    assert forall i | 0 <= i < |full| :: values[i] == full[i].value;
    var last := LastFinite(values, |values|);
    if stats.maximum.Some? {
      SumIsBounded(values, |values|, stats.maximum.value);
      QuotientAtMost(FiniteSum(values, |values|), FiniteCount(values, |values|) as real, stats.maximum.value);
      assert full[last.value].value == stats.current;
    }
  }

  lemma {:induction false} SumIsAtLeast(values: Values, n: nat, low: real)
    requires n <= |values|
    requires forall k | 0 <= k < n && values[k].Some? :: low <= values[k].value
    ensures low * FiniteCount(values, n) as real <= FiniteSum(values, n)
  {
    if n > 0 {
      SumIsAtLeast(values, n - 1, low);
    }
  }

  lemma QuotientAtLeast(sum: real, count: real, low: real)
    requires count > 0.0 && low * count <= sum
    ensures low <= sum / count
  {
  }

  lemma MeanIsAtLeast(values: Values, stats: SeriesStats, low: real)
    requires AreStatsOf(values, stats) && stats.average.Some?
    requires forall k | 0 <= k < |values| && values[k].Some? :: low <= values[k].value
    ensures low <= stats.average.value
  {
    SumIsAtLeast(values, |values|, low);
    QuotientAtLeast(FiniteSum(values, |values|), FiniteCount(values, |values|) as real, low);
  }

  lemma MeanIsAtMost(values: Values, stats: SeriesStats, high: real)
    requires AreStatsOf(values, stats) && stats.average.Some?
    requires forall k | 0 <= k < |values| && values[k].Some? :: values[k].value <= high
    ensures stats.average.value <= high
  {
    SumIsBounded(values, |values|, high);
    QuotientAtMost(FiniteSum(values, |values|), FiniteCount(values, |values|) as real, high);
  }

  /** Whatever bounds all values of the full series bounds their mean. */
  lemma MeanIsWithin(prepared: PreparedSeries, full: seq<Point>, budget: nat, low: real, high: real)
    requires 160 <= budget && 1 <= |full|
    requires IsReductionOf(prepared, full, budget) && prepared.stats.average.Some?
    requires forall k | 0 <= k < |full| && full[k].value.Some? :: low <= full[k].value.value <= high
    ensures low <= prepared.stats.average.value <= high
  {
    var values := Column(full);
    assert forall i | 0 <= i < |full| :: values[i] == full[i].value;
    MeanIsAtLeast(values, prepared.stats, low);
    MeanIsAtMost(values, prepared.stats, high);
  }

  lemma QuotientAtMost(sum: real, count: real, high: real)
    requires count > 0.0 && sum <= high * count
    ensures sum / count <= high
  {
  }
}
