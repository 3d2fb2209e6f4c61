/** The single-pass chart downsampler, proved against the whole-series description in Downsampling. */
module ChartSeries {
  import opened Wrappers
  import opened MinuteSeries
  import opened Downsampling

  datatype SeriesStats = SeriesStats(current: Option<real>, average: Option<real>, maximum: Option<real>)

  datatype PreparedSeries = PreparedSeries(data: seq<Point>, stats: SeriesStats)

  datatype PreparedChart = PreparedChart(
    valid: bool, minuteCount: nat, pointBudget: nat, series: seq<PreparedSeries>)

  // Widths

  function Clamp(points: int): (budget: nat)
    ensures MIN_POINT_BUDGET <= budget <= MAX_POINT_BUDGET
  {
    if points < MIN_POINT_BUDGET then MIN_POINT_BUDGET
    else if points > MAX_POINT_BUDGET then MAX_POINT_BUDGET
    else points
  }

  /** Two points per pixel, rounded half up, between fixed limits; unusable widths count as the default one. */
  function ChartPointBudget(width: Number): (budget: nat)
    ensures 160 <= budget <= 1_600
    ensures width.Finite? && width.value > 0.0 ==>
      && (budget > 160 ==> budget as real - 0.5 <= width.value * 2.0)
      && (budget < 1_600 ==> width.value * 2.0 < budget as real + 0.5)
    ensures !(width.Finite? && width.value > 0.0) ==> budget == 1_280
  {
    var safeWidth := if width.Finite? && width.value > 0.0 then width.value else DEFAULT_CHART_WIDTH;
    Clamp((safeWidth * POINTS_PER_PIXEL + 0.5).Floor)
  }

  // Running values, as functions of the prefix already scanned

  function LastFinite(values: Values, n: nat): (last: Option<nat>)
    requires n <= |values|
    ensures last.Some? ==> last.value < n && values[last.value].Some? && NoneFinite(values, last.value + 1, n)
    ensures last.None? ==> NoneFinite(values, 0, n)
  {
    if n == 0 then None
    else if values[n - 1].Some? then Some(n - 1)
    else LastFinite(values, n - 1)
  }

  function FiniteSum(values: Values, n: nat): real
    requires n <= |values|
  {
    if n == 0 then 0.0 else FiniteSum(values, n - 1) + if values[n - 1].Some? then values[n - 1].value else 0.0
  }

  function FiniteCount(values: Values, n: nat): nat
    requires n <= |values|
  {
    if n == 0 then 0 else FiniteCount(values, n - 1) + if values[n - 1].Some? then 1 else 0
  }

  ghost predicate IsLargest(values: Values, n: nat, maximum: Option<real>)
    requires n <= |values|
  {
    match maximum
    case None => NoneFinite(values, 0, n)
    case Some(m) =>
      && (exists k :: 0 <= k < n && values[k] == Some(m))
      && forall k | 0 <= k < n && values[k].Some? :: values[k].value <= m
  }

  /** Latest value, mean and maximum over the finite minutes of a series. */
  ghost predicate AreStatsOf(values: Values, stats: SeriesStats) {
    var n := |values|;
    var last := LastFinite(values, n);
    && stats.current == (if last.Some? then values[last.value] else None)
    && stats.average == (if FiniteCount(values, n) == 0 then None
                         else Some(FiniteSum(values, n) / FiniteCount(values, n) as real))
    && IsLargest(values, n, stats.maximum)
  }

  // Transitions noticed while scanning

  predicate Transition(values: Values, n: nat, k: int) {
    GapStart(values, k) || (0 < k && RunStart(values, k)) || (k + 1 < n && RunEnd(values, k))
  }

  /** Run boundaries visible in the first n minutes. */
  function Transitions(values: Values, n: nat): set<int> {
    set k | 0 <= k < n && Transition(values, n, k)
  }

  function NewTransitions(values: Values, n: nat): set<int>
    requires n < |values|
  {
    if values[n].Some? then
      if n > 0 && values[n - 1].None? then {n} else {}
    else if n == 0 then {n}
    else if values[n - 1].Some? then {n - 1, n}
    else {}
  }

  lemma TransitionsStep(values: Values, n: nat)
    requires n < |values|
    ensures Transitions(values, n + 1) == Transitions(values, n) + NewTransitions(values, n)
  {
  }

  // One series

  datatype BucketAccumulator = BucketAccumulator(
    first: Option<nat>, last: Option<nat>,
    minimumIndex: Option<nat>, minimumValue: Option<real>,
    maximumIndex: Option<nat>, maximumValue: Option<real>)
  {
    function Add(index: nat, value: real): BucketAccumulator {
      var withRange := this.(first := if first.None? then Some(index) else first, last := Some(index));
      var withMinimum :=
        if minimumValue.None? || value < minimumValue.value
        then withRange.(minimumIndex := Some(index), minimumValue := Some(value)) else withRange;
      if maximumValue.None? || value > maximumValue.value
      then withMinimum.(maximumIndex := Some(index), maximumValue := Some(value)) else withMinimum
    }
  }

  /** An empty bucket: no minimum stands for positive infinity, no maximum for negative infinity. */
  const EMPTY_BUCKET := BucketAccumulator(None, None, None, None, None, None)

  ghost predicate Summarizes(bucket: BucketAccumulator, values: Values, lo: nat, hi: nat)
    requires hi <= |values|
  {
    if NoneFinite(values, lo, hi) then bucket == EMPTY_BUCKET
    else
      && bucket.first.Some? && bucket.last.Some? && bucket.minimumIndex.Some? && bucket.maximumIndex.Some?
      && IsFirst(values, lo, hi, bucket.first.value)
      && IsLast(values, lo, hi, bucket.last.value)
      && IsMinimum(values, lo, hi, bucket.minimumIndex.value)
      && IsMaximum(values, lo, hi, bucket.maximumIndex.value)
      && bucket.minimumValue == values[bucket.minimumIndex.value]
      && bucket.maximumValue == values[bucket.maximumIndex.value]
  }

  lemma SummaryStep(bucket: BucketAccumulator, values: Values, lo: nat, n: nat)
    requires lo <= n < |values| && Summarizes(bucket, values, lo, n)
    ensures Summarizes(if values[n].Some? then bucket.Add(n, values[n].value) else bucket, values, lo, n + 1)
  {
    if NoneFinite(values, lo, n) {
      assert values[n].Some? ==> !NoneFinite(values, lo, n + 1);
    } else {
      assert !NoneFinite(values, lo, n + 1);
      assert IsFirst(values, lo, n + 1, bucket.first.value);
    }
  }

  lemma LargestStep(values: Values, n: nat, maximum: Option<real>)
    requires n < |values| && IsLargest(values, n, maximum)
    ensures values[n].None? ==> IsLargest(values, n + 1, maximum)
    ensures values[n].Some? ==>
      IsLargest(values, n + 1, if maximum.None? || maximum.value < values[n].value then values[n] else maximum)
  {
    if maximum.Some? {
      var k :| 0 <= k < n && values[k] == maximum;
    }
  }

  /** The four recorded indices are the extremes of the bucket, and nothing else is. */
  lemma SummaryNamesExtremes(bucket: BucketAccumulator, values: Values, lo: nat, hi: nat, i: int)
    requires hi <= |values| && Summarizes(bucket, values, lo, hi)
    ensures lo <= i < hi && IsExtreme(values, lo, hi, i)
      <==> 0 <= i && Some(i) in [bucket.first, bucket.last, bucket.minimumIndex, bucket.maximumIndex]
  {
  }

  function ExtremesIn(values: Values, lo: nat, hi: nat): set<int>
    requires hi <= |values|
  {
    set i: int | lo <= i < hi && IsExtreme(values, lo, hi, i)
  }

  class SeriesScan {
    var candidates: set<int>
    var sum: real
    var count: nat
    var maximum: Option<real>
    var current: Option<real>
    var gapOpen: bool
    var lastFiniteIndex: Option<nat>
    var bucket: BucketAccumulator

    ghost predicate Scanned(values: Values, lo: nat, n: nat)
      reads this
    {
      && n <= |values|
      && gapOpen == (n > 0 && values[n - 1].None?)
      && lastFiniteIndex == LastFinite(values, n)
      && current == (if lastFiniteIndex.Some? then values[lastFiniteIndex.value] else None)
      && sum == FiniteSum(values, n)
      && count == FiniteCount(values, n)
      && IsLargest(values, n, maximum)
      && Summarizes(bucket, values, lo, n)
    }

    constructor (minuteCount: nat, ghost values: Values)
      ensures candidates == {0, minuteCount - 1}
      ensures Scanned(values, 0, 0)
    {
      candidates := {0, minuteCount - 1};
      sum, count, maximum, current := 0.0, 0, None, None;
      gapOpen, lastFiniteIndex, bucket := false, None, EMPTY_BUCKET;
    }

    /** A range within the budget keeps every minute. */
    method SelectAll(minuteCount: nat, ghost values: Values)
      requires Scanned(values, 0, 0)
      modifies this`candidates
      ensures Scanned(values, 0, 0)
      ensures forall i :: i in candidates <==> i in old(candidates) || 0 <= i < minuteCount
    {
      for index := 0 to minuteCount
        invariant Scanned(values, 0, 0)
        invariant forall i :: i in candidates <==> i in old(candidates) || 0 <= i < index
      {
        candidates := candidates + {index};
      }
    }

    method StartBucket(ghost values: Values, ghost lo: nat, n: nat)
      requires Scanned(values, lo, n)
      modifies this`bucket
      ensures Scanned(values, n, n)
    {
      bucket := EMPTY_BUCKET;
    }

    method AddMinute(index: nat, value: Option<real>, ghost values: Values, ghost lo: nat)
      requires index < |values| && value == values[index] && lo <= index
      requires Scanned(values, lo, index)
      modifies this
      ensures Scanned(values, lo, index + 1)
      ensures candidates == old(candidates) + NewTransitions(values, index)
    {
      SummaryStep(bucket, values, lo, index);
      if value.None? {
        if !gapOpen {
          if lastFiniteIndex.Some? {
            candidates := candidates + {lastFiniteIndex.value};
          }
          candidates := candidates + {index};
          gapOpen := true;
        }
        return;
      }
      if gapOpen {
        candidates := candidates + {index};
      }
      gapOpen := false;
      AddValue(index, value, values);
    }

    method AddValue(index: nat, value: Option<real>, ghost values: Values)
      requires index < |values| && value == values[index] && value.Some?
      requires sum == FiniteSum(values, index) && count == FiniteCount(values, index)
      requires !gapOpen && IsLargest(values, index, maximum)
      modifies this
      ensures sum == FiniteSum(values, index + 1) && count == FiniteCount(values, index + 1)
      ensures !gapOpen && candidates == old(candidates) && IsLargest(values, index + 1, maximum)
      ensures lastFiniteIndex == Some(index) && current == value
      ensures bucket == old(bucket).Add(index, value.value)
    {
      LargestStep(values, index, maximum);
      lastFiniteIndex := Some(index);
      current := value;
      sum := sum + value.value;
      count := count + 1;
      maximum := if maximum.None? || maximum.value < value.value then value else maximum;
      bucket := bucket.Add(index, value.value);
    }

    method AddBucketCandidates(ghost values: Values, ghost lo: nat, ghost hi: nat)
      requires Scanned(values, lo, hi)
      modifies this`candidates
      ensures candidates == old(candidates) + ExtremesIn(values, lo, hi)
    {
      var indices := [bucket.first, bucket.last, bucket.minimumIndex, bucket.maximumIndex];
      for k := 0 to |indices|
        invariant forall i :: i in candidates <==> i in old(candidates) || Some(i) in indices[..k]
      {
        if indices[k].Some? {
          candidates := candidates + {indices[k].value};
        }
      }
      forall i: int
        ensures lo <= i < hi && IsExtreme(values, lo, hi, i) <==> 0 <= i && Some(i) in indices
      {
        SummaryNamesExtremes(bucket, values, lo, hi, i);
      }
    }
  }

  // All series of a chart

  /** The values of a series, without their times. */
  function Column(full: seq<Point>): Values {
    seq(|full|, i requires 0 <= i < |full| => full[i].value)
  }

  function Pick(full: seq<Point>, indices: seq<int>): seq<Point>
    requires forall k | 0 <= k < |indices| :: 0 <= indices[k] < |full|
  {
    seq(|indices|, k requires 0 <= k < |indices| => full[indices[k]])
  }

  /** Candidates after the buckets below lo and the first n minutes. */
  function Chosen(values: Values, plan: Plan, lo: nat, n: nat): set<int> {
    set i | 0 <= i < |values| && IsChosen(values, plan, lo, n, i)
  }

  predicate IsChosen(values: Values, plan: Plan, lo: nat, n: nat, i: int)
    requires 0 <= i < |values|
  {
    || plan.Whole? || i == 0 || i == |values| - 1
    || (i < n && Transition(values, n, i))
    || (i < lo && IsBucketExtreme(values, plan.size, i))
  }

  lemma ChosenAfterMinute(values: Values, plan: Plan, lo: nat, n: nat)
    requires n < |values|
    ensures Chosen(values, plan, lo, n + 1) == Chosen(values, plan, lo, n) + NewTransitions(values, n)
  {
    TransitionsStep(values, n);
    forall i | 0 <= i < |values|
      ensures IsChosen(values, plan, lo, n + 1, i)
              <==> IsChosen(values, plan, lo, n, i) || i in NewTransitions(values, n)
    {
      assert i in Transitions(values, n + 1) <==> i in Transitions(values, n) || i in NewTransitions(values, n);
    }
  }

  /** Buckets past the end of the range are empty and add nothing. */
  lemma ChosenAfterBucket(values: Values, size: Positive, bucket: nat, lo: nat)
    requires lo == bucket * size
    ensures var from, hi := Min(|values|, lo), Min(|values|, lo + size);
      Chosen(values, Bucketed(size), lo + size, hi)
      == Chosen(values, Bucketed(size), lo, hi) + ExtremesIn(values, from, hi)
  {
    var hi := Min(|values|, lo + size);
    forall i | lo <= i < hi
      ensures IsBucketExtreme(values, size, i) <==> IsExtreme(values, lo, hi, i)
    {
      SameBucket(bucket, size, i);
    }
  }

  lemma ChosenIsKept(values: Values, plan: Plan, lo: nat)
    requires |values| <= lo
    ensures Chosen(values, plan, lo, |values|) == KeptSet(values, plan)
  {
  }

  ghost predicate Distinct(scans: seq<SeriesScan>) {
    forall j, k | 0 <= j < k < |scans| :: scans[j] != scans[k]
  }

  /** Each scan has read the first n minutes of its own column, the current bucket starting at lo. */
  ghost predicate InStep(scans: seq<SeriesScan>, columns: seq<Values>, plan: Plan, below: nat, lo: nat, n: nat)
    requires |scans| == |columns|
    reads scans
  {
    forall j | 0 <= j < |scans| :: AtMinute(scans[j], columns[j], plan, below, lo, n)
  }

  ghost predicate AtMinute(scan: SeriesScan, values: Values, plan: Plan, below: nat, lo: nat, n: nat)
    reads scan
  {
    scan.Scanned(values, lo, n) && scan.candidates == Chosen(values, plan, below, n)
  }

  method NewScans(minuteCount: nat, plan: Plan, ghost columns: seq<Values>, count: nat) returns (scans: seq<SeriesScan>)
    requires |columns| == count && 1 <= minuteCount && forall j | 0 <= j < |columns| :: |columns[j]| == minuteCount
    ensures |scans| == |columns| && fresh(scans) && Distinct(scans)
    ensures InStep(scans, columns, plan, 0, 0, 0)
  {
    scans := [];
    for j := 0 to count
      invariant |scans| == j && fresh(scans) && Distinct(scans)
      invariant forall k | 0 <= k < j :: AtMinute(scans[k], columns[k], plan, 0, 0, 0)
    {
      var scan := new SeriesScan(minuteCount, columns[j]);
      if plan.Whole? {
        scan.SelectAll(minuteCount, columns[j]);
      }
      assert scan.candidates == Chosen(columns[j], plan, 0, 0);
      scans := scans + [scan];
    }
  }

  method StepScan(scan: SeriesScan, value: Option<real>, index: nat,
                  ghost values: Values, ghost plan: Plan, ghost below: nat, ghost lo: nat)
    requires lo <= index < |values| && values[index] == value
    requires AtMinute(scan, values, plan, below, lo, index)
    modifies scan
    ensures AtMinute(scan, values, plan, below, lo, index + 1)
  {
    ChosenAfterMinute(values, plan, below, index);
    scan.AddMinute(index, value, values, lo);
  }

  /** One minute, every series. */
  method ScanMinute(scans: seq<SeriesScan>, selectors: seq<Selector>, record: Option<RawPoint>, index: nat,
                    ghost columns: seq<Values>, ghost plan: Plan, ghost below: nat, ghost lo: nat)
    requires |scans| == |columns| == |selectors| && Distinct(scans) && lo <= index
    requires forall j | 0 <= j < |columns| ::
      index < |columns[j]| && columns[j][index] == SelectedValue(selectors[j], record)
    requires InStep(scans, columns, plan, below, lo, index)
    modifies scans
    ensures InStep(scans, columns, plan, below, lo, index + 1)
  {
    for j := 0 to |selectors|
      invariant forall k | 0 <= k < |scans| ::
                  AtMinute(scans[k], columns[k], plan, below, lo, if k < j then index + 1 else index)
    {
      StepScan(scans[j], SelectedValue(selectors[j], record), index, columns[j], plan, below, lo);
    }
  }

  function ColumnOf(records: seq<Option<RawPoint>>, selector: Selector): Values {
    seq(|records|, i requires 0 <= i < |records| => SelectedValue(selector, records[i]))
  }

  /** The minutes of one bucket, if it has any. */
  method ScanBucket(scans: seq<SeriesScan>, selectors: seq<Selector>, records: seq<Option<RawPoint>>,
                    start: nat, end: nat, ghost columns: seq<Values>, ghost plan: Plan)
    requires |scans| == |columns| == |selectors| && Distinct(scans) && end <= |records|
    requires forall j | 0 <= j < |columns| :: columns[j] == ColumnOf(records, selectors[j])
    requires InStep(scans, columns, plan, start, Min(|records|, start), Min(|records|, start))
    requires start <= end || end == |records|
    modifies scans
    ensures InStep(scans, columns, plan, start, Min(|records|, start), end)
  {
    if start < end {
      for index := start to end
        invariant InStep(scans, columns, plan, start, start, index)
      {
        ScanMinute(scans, selectors, records[index], index, columns, plan, start, start);
      }
    }
  }

  method CloseScan(scan: SeriesScan, plan: Plan, ghost values: Values, ghost bucket: nat, ghost lo: nat, hi: nat,
                   ghost next: nat)
    requires plan.Bucketed? ==> lo == bucket * plan.size && next == lo + plan.size && hi == Min(|values|, next)
    requires AtMinute(scan, values, plan, lo, Min(|values|, lo), hi)
    modifies scan
    ensures AtMinute(scan, values, plan, next, hi, hi)
  {
    if plan.Bucketed? {
      ChosenAfterBucket(values, plan.size, bucket, lo);
      scan.AddBucketCandidates(values, Min(|values|, lo), hi);
    } else {
      assert Chosen(values, plan, next, hi) == Chosen(values, plan, lo, hi);
    }
    scan.StartBucket(values, Min(|values|, lo), hi);
  }

  /** Adds every series' bucket extremes when the chart is bucketed, and starts the next bucket. */
  method CloseBucket(scans: seq<SeriesScan>, plan: Plan, ghost columns: seq<Values>, ghost minuteCount: nat,
                     ghost bucket: nat, ghost lo: nat, hi: nat, ghost next: nat)
    requires |scans| == |columns| && Distinct(scans)
    requires forall j | 0 <= j < |columns| :: |columns[j]| == minuteCount
    requires plan.Bucketed? ==> lo == bucket * plan.size && next == lo + plan.size && hi == Min(minuteCount, next)
    requires InStep(scans, columns, plan, lo, Min(minuteCount, lo), hi)
    modifies scans
    ensures InStep(scans, columns, plan, next, hi, hi)
  {
    for j := 0 to |scans|
      invariant forall k | 0 <= k < j :: AtMinute(scans[k], columns[k], plan, next, hi, hi)
      invariant forall k | j <= k < |scans| :: AtMinute(scans[k], columns[k], plan, lo, Min(minuteCount, lo), hi)
    {
      CloseScan(scans[j], plan, columns[j], bucket, lo, hi, next);
    }
  }

  /** Sorted candidates become points; the running sums become the legend's statistics. */
  method FinishScan(scan: SeriesScan, selector: Selector, records: seq<Option<RawPoint>>, fromUnix: int,
                    ghost plan: Plan, ghost below: nat, ghost lo: nat) returns (prepared: PreparedSeries)
    requires |records| <= below
    requires AtMinute(scan, ColumnOf(records, selector), plan, below, lo, |records|)
    ensures var values := ColumnOf(records, selector);
      && prepared.data == PointsAt(values, fromUnix, KeptIndices(values, plan))
      && AreStatsOf(values, prepared.stats)
  {
    ghost var values := ColumnOf(records, selector);
    ChosenIsKept(values, plan, below);
    var indices := Ascending(scan.candidates, |records|);
    assert indices == KeptIndices(values, plan);
    var data := [];
    for k := 0 to |indices|
      invariant |data| == k
      invariant forall j | 0 <= j < k :: data[j] == PointAt(values, fromUnix, indices[j])
    {
      var index := indices[k];
      data := data + [Point((fromUnix + index * 60) * 1_000, SelectedValue(selector, records[index]))];
    }
    var average := if scan.count == 0 then None else Some(scan.sum / scan.count as real);
    prepared := PreparedSeries(data, SeriesStats(scan.current, average, scan.maximum));
  }

  function PointAt(values: Values, fromUnix: int, index: int): Point
    requires 0 <= index < |values|
  {
    Point((fromUnix + index * 60) * 1_000, values[index])
  }

  function PointsAt(values: Values, fromUnix: int, indices: seq<int>): seq<Point>
    requires forall k | 0 <= k < |indices| :: 0 <= indices[k] < |values|
  {
    seq(|indices|, k requires 0 <= k < |indices| => PointAt(values, fromUnix, indices[k]))
  }

  /** One round of the bucket loop, over all series. */
  method ProcessBucket(scans: seq<SeriesScan>, selectors: seq<Selector>, records: seq<Option<RawPoint>>,
                       plan: Plan, ghost bucket: nat, start: nat, bucketSize: nat, ghost columns: seq<Values>)
    returns (next: nat)
    requires |scans| == |columns| == |selectors| && Distinct(scans)
    requires forall j | 0 <= j < |columns| :: columns[j] == ColumnOf(records, selectors[j])
    requires start == bucket * bucketSize && (plan.Bucketed? ==> bucketSize == plan.size)
    requires BetweenBuckets(scans, columns, plan, start, |records|)
    modifies scans
    ensures next == (bucket + 1) * bucketSize
    ensures BetweenBuckets(scans, columns, plan, next, |records|)
  {
    NextMultiple(bucket, bucketSize);
    next := start + bucketSize;
    var end := Min(|records|, next);
    ScanBucket(scans, selectors, records, start, end, columns, plan);
    CloseBucket(scans, plan, columns, |records|, bucket, start, end, next);
  }

  ghost predicate BetweenBuckets(scans: seq<SeriesScan>, columns: seq<Values>, plan: Plan, below: nat, minuteCount: nat)
    requires |scans| == |columns|
    reads scans
  {
    InStep(scans, columns, plan, below, Min(minuteCount, below), Min(minuteCount, below))
  }

  lemma NextMultiple(count: nat, size: nat)
    ensures (count + 1) * size == count * size + size
  {
  }

  /** The bucket loop. */
  method ScanChart(scans: seq<SeriesScan>, selectors: seq<Selector>, records: seq<Option<RawPoint>>,
                   plan: Plan, bucketCount: nat, bucketSize: nat, ghost columns: seq<Values>)
    returns (below: nat)
    requires |scans| == |columns| == |selectors| && Distinct(scans)
    requires forall j | 0 <= j < |columns| :: columns[j] == ColumnOf(records, selectors[j])
    requires plan.Bucketed? ==> bucketSize == plan.size
    requires BetweenBuckets(scans, columns, plan, 0, |records|)
    modifies scans
    ensures below == bucketCount * bucketSize
    ensures BetweenBuckets(scans, columns, plan, below, |records|)
  {
    below := 0;
    for bucket := 0 to bucketCount
      invariant below == bucket * bucketSize
      invariant BetweenBuckets(scans, columns, plan, below, |records|)
    {
      below := ProcessBucket(scans, selectors, records, plan, bucket, below, bucketSize, columns);
    }
  }

  method PrepareChartSeries(history: History, selectors: seq<Selector>, width: Number) returns (chart: PreparedChart)
    ensures chart.pointBudget == ChartPointBudget(width)
    ensures chart.valid <==> IsAlignable(history)
    ensures !chart.valid ==> chart.minuteCount == 0 && chart.series == []
    ensures chart.valid ==>
      var points, from, to := history.points.value, history.fromUnix.value, history.toUnix.value;
      && chart.minuteCount == MinuteCount(from, to)
      && |chart.series| == |selectors|
      && forall j | 0 <= j < |selectors| ::
           IsReductionOf(chart.series[j], FullSeries(points, from, to, selectors[j]), chart.pointBudget)
  {
    var budget := ChartPointBudget(width);
    var index := GetAlignedHistoryIndex(history);
    if index.None? {
      return PreparedChart(false, 0, budget, []);
    }
    var records, minuteCount := index.value.records, index.value.minuteCount;
    var plan := PlanFor(minuteCount, budget);
    ghost var columns := seq(|selectors|, j requires 0 <= j < |selectors| => ColumnOf(records, selectors[j]));
    var scans := NewScans(minuteCount, plan, columns, |selectors|);
    var bucketCount, bucketSize := BucketCount(minuteCount, budget), BucketSize(minuteCount, budget);
    var below := ScanChart(scans, selectors, records, plan, bucketCount, bucketSize, columns);
    var series := FinishScans(scans, selectors, index.value, history, budget, plan, below);
    return PreparedChart(true, minuteCount, budget, series);
  }

  method FinishScans(scans: seq<SeriesScan>, selectors: seq<Selector>, index: AlignedHistoryIndex,
                     ghost history: History, ghost budget: nat, ghost plan: Plan, ghost below: nat)
    returns (series: seq<PreparedSeries>)
    requires |scans| == |selectors|
    requires IsAlignment(history, index) && MIN_POINT_BUDGET <= budget && plan == PlanFor(index.minuteCount, budget)
    requires index.minuteCount <= below
    requires forall j | 0 <= j < |scans| ::
      AtMinute(scans[j], ColumnOf(index.records, selectors[j]), plan, below, index.minuteCount, index.minuteCount)
    ensures |series| == |selectors|
    ensures forall j | 0 <= j < |selectors| ::
      IsReductionOf(series[j], FullSeries(history.points.value, index.fromUnix, index.toUnix, selectors[j]), budget)
  {
    series := [];
    for j := 0 to |selectors|
      invariant |series| == j
      invariant forall k | 0 <= k < j ::
        IsReductionOf(series[k], FullSeries(history.points.value, index.fromUnix, index.toUnix, selectors[k]), budget)
    {
      var prepared := FinishScan(scans[j], selectors[j], index.records, index.fromUnix, plan, below, index.minuteCount);
      ReductionFromScan(history, index, selectors[j], budget, prepared);
      series := series + [prepared];
    }
  }

  /** The emitted points are the kept ones of the full series, and the statistics are those of all of it. */
  ghost predicate IsReductionOf(prepared: PreparedSeries, full: seq<Point>, budget: nat)
    requires MIN_POINT_BUDGET <= budget && 1 <= |full|
  {
    var values := Column(full);
    && prepared.data == Pick(full, KeptIndices(values, PlanFor(|full|, budget)))
    && AreStatsOf(values, prepared.stats)
  }

  ghost predicate IsAlignment(history: History, index: AlignedHistoryIndex) {
    && IsAlignable(history)
    && index.fromUnix == history.fromUnix.value && index.toUnix == history.toUnix.value
    && index.minuteCount == |index.records| == MinuteCount(index.fromUnix, index.toUnix)
    && forall i | 0 <= i < |index.records| ::
         index.records[i] == LastRecord(history.points.value, index.fromUnix + 60 * i)
  }

  /** The aligned records carry the same values as the map-based full series. */
  lemma AlignmentAgrees(history: History, index: AlignedHistoryIndex, selector: Selector)
    requires IsAlignment(history, index)
    ensures var full := FullSeries(history.points.value, index.fromUnix, index.toUnix, selector);
      && Column(full) == ColumnOf(index.records, selector)
      && forall i | 0 <= i < |full| :: full[i] == PointAt(ColumnOf(index.records, selector), index.fromUnix, i)
  {
  }

  lemma ReductionFromScan(history: History, index: AlignedHistoryIndex, selector: Selector, budget: nat,
                          prepared: PreparedSeries)
    requires IsAlignment(history, index) && MIN_POINT_BUDGET <= budget
    requires var values := ColumnOf(index.records, selector);
      && prepared.data == PointsAt(values, index.fromUnix, KeptIndices(values, PlanFor(index.minuteCount, budget)))
      && AreStatsOf(values, prepared.stats)
    ensures IsReductionOf(prepared, FullSeries(history.points.value, index.fromUnix, index.toUnix, selector), budget)
  {
    AlignmentAgrees(history, index, selector);
    var full := FullSeries(history.points.value, index.fromUnix, index.toUnix, selector);
    var indices := KeptIndices(Column(full), PlanFor(|full|, budget));
    assert prepared.data == Pick(full, indices);
  }
}