/**
 What the chart downsampler is supposed to keep, said about a whole series of minute values at once:
 no scan, no running state. ChartSeries proves the scan against it.
 */
module Downsampling {
  import opened Wrappers

  type Values = seq<Option<real>>

  const MIN_POINT_BUDGET := 160
  const MAX_POINT_BUDGET := 1_600
  const DEFAULT_CHART_WIDTH := 640.0
  const POINTS_PER_PIXEL := 2.0
  const FINITE_CANDIDATES_PER_BUCKET := 4

  // Runs of missing and of finite minutes

  /** The first minute of a run of missing minutes. */
  predicate GapStart(values: Values, k: int) {
    0 <= k < |values| && values[k].None? && (k == 0 || values[k - 1].Some?)
  }

  /** The first minute of a run of finite minutes. */
  predicate RunStart(values: Values, k: int) {
    0 <= k < |values| && values[k].Some? && (k == 0 || values[k - 1].None?)
  }

  /** The last minute of a run of finite minutes. */
  predicate RunEnd(values: Values, k: int) {
    0 <= k < |values| && values[k].Some? && (k == |values| - 1 || values[k + 1].None?)
  }

  /** Minutes i to j, both included, all have values. */
  predicate Unbroken(values: Values, i: int, j: int) {
    0 <= i <= j < |values| && forall k | i <= k <= j :: values[k].Some?
  }

  // Buckets

  /** As many buckets as the budget has room for, at four points a bucket beside the two ends. */
  function BucketCount(minuteCount: nat, budget: nat): (count: nat)
    requires MIN_POINT_BUDGET <= budget
    ensures 1 <= count && (minuteCount > budget ==> 4 * count + 2 <= budget < 4 * (count + 1) + 2)
  {
    if minuteCount <= budget then 1 else (budget - 2) / FINITE_CANDIDATES_PER_BUCKET
  }

  /** The least size at which that many buckets cover every minute. */
  function BucketSize(minuteCount: nat, budget: nat): (size: nat)
    requires MIN_POINT_BUDGET <= budget && 1 <= minuteCount
    ensures 1 <= size
    ensures (size - 1) * BucketCount(minuteCount, budget) < minuteCount <= size * BucketCount(minuteCount, budget)
  {
    var count := BucketCount(minuteCount, budget);
    CeilingCovers(minuteCount, count);
    (minuteCount + count - 1) / count
  }

  lemma CeilingCovers(n: nat, count: nat)
    requires 1 <= count
    ensures n <= (n + count - 1) / count * count < n + count
  {
    var q := (n + count - 1) / count;
    assert n + count - 1 == q * count + (n + count - 1) % count;
  }

  function BucketStart(i: nat, size: nat): nat
    requires 1 <= size
  {
    i / size * size
  }

  function Min(a: int, b: int): int {
    if a <= b then a else b
  }

  predicate NoneFinite(values: Values, lo: int, hi: int)
    requires 0 <= lo && hi <= |values|
  {
    forall k | lo <= k < hi :: values[k].None?
  }

  /** First, last, earliest smallest and earliest largest finite minute of [lo, hi). */
  predicate IsFirst(values: Values, lo: int, hi: int, i: int)
    requires 0 <= lo && hi <= |values|
  {
    lo <= i < hi && values[i].Some? && NoneFinite(values, lo, i)
  }

  predicate IsLast(values: Values, lo: int, hi: int, i: int)
    requires 0 <= lo && hi <= |values|
  {
    lo <= i < hi && values[i].Some? && NoneFinite(values, i + 1, hi)
  }

  predicate IsMinimum(values: Values, lo: int, hi: int, i: int)
    requires 0 <= lo && hi <= |values|
  {
    && lo <= i < hi && values[i].Some?
    && (forall k | lo <= k < hi && values[k].Some? :: values[i].value <= values[k].value)
    && (forall k | lo <= k < i && values[k].Some? :: values[i].value < values[k].value)
  }

  predicate IsMaximum(values: Values, lo: int, hi: int, i: int)
    requires 0 <= lo && hi <= |values|
  {
    && lo <= i < hi && values[i].Some?
    && (forall k | lo <= k < hi && values[k].Some? :: values[k].value <= values[i].value)
    && (forall k | lo <= k < i && values[k].Some? :: values[k].value < values[i].value)
  }

  predicate IsExtreme(values: Values, lo: int, hi: int, i: int)
    requires 0 <= lo && hi <= |values|
  {
    || IsFirst(values, lo, hi, i) || IsLast(values, lo, hi, i)
    || IsMinimum(values, lo, hi, i) || IsMaximum(values, lo, hi, i)
  }

  predicate IsBucketExtreme(values: Values, size: nat, i: nat)
    requires 1 <= size && i < |values|
  {
    BucketOf(i, size, |values|);
    IsExtreme(values, BucketStart(i, size), Min(|values|, BucketStart(i, size) + size), i)
  }

  lemma BucketOf(i: nat, size: nat, n: nat)
    requires 1 <= size && i < n
    ensures BucketStart(i, size) <= i < Min(n, BucketStart(i, size) + size)
  {
    assert i == i / size * size + i % size;
  }

  lemma {:induction false} TimesMonotone(a: nat, b: nat, factor: nat)
    ensures a < b ==> a * factor + factor <= b * factor
    decreases b
  {
    if a + 1 < b {
      TimesMonotone(a, b - 1, factor);
    }
  }

  lemma SameBucket(bucket: nat, size: nat, i: nat)
    requires 1 <= size && bucket * size <= i < bucket * size + size
    ensures BucketStart(i, size) == bucket * size
  {
    var quotient := i / size;
    assert i == quotient * size + i % size;
    TimesMonotone(quotient, bucket, size);
    TimesMonotone(bucket, quotient, size);
  }

  // The kept minutes

  type Positive = n: nat | 1 <= n witness 1

  /** How a chart of some number of minutes is reduced: not at all, or bucket by bucket. */
  datatype Plan = Whole | Bucketed(size: Positive)

  function PlanFor(minuteCount: nat, budget: nat): Plan
    requires MIN_POINT_BUDGET <= budget && 1 <= minuteCount
  {
    if minuteCount <= budget then Whole else Bucketed(BucketSize(minuteCount, budget))
  }

  predicate Kept(values: Values, plan: Plan, i: int) {
    0 <= i < |values| &&
    (plan.Whole? || i == 0 || i == |values| - 1
    || GapStart(values, i) || RunStart(values, i) || RunEnd(values, i)
    || IsBucketExtreme(values, plan.size, i))
  }

  function KeptSet(values: Values, plan: Plan): set<int> {
    set i | 0 <= i < |values| && Kept(values, plan, i)
  }

  /** The members of s below n, in increasing order. */
  function Ascending(s: set<int>, n: nat): seq<int> {
    if n == 0 then []
    else if n - 1 in s then Ascending(s, n - 1) + [n - 1]
    else Ascending(s, n - 1)
  }

  lemma {:induction false} AscendingLists(s: set<int>, n: nat)
    ensures forall k | 0 <= k < |Ascending(s, n)| :: Ascending(s, n)[k] in s && 0 <= Ascending(s, n)[k] < n
    ensures forall j, k | 0 <= j < k < |Ascending(s, n)| :: Ascending(s, n)[j] < Ascending(s, n)[k]
    ensures forall i | 0 <= i < n && i in s :: i in Ascending(s, n)
  {
    if n > 0 {
      AscendingLists(s, n - 1);
    }
  }

  /** The emitted minutes, in order. */
  function KeptIndices(values: Values, plan: Plan): (indices: seq<int>)
    ensures forall k | 0 <= k < |indices| :: Kept(values, plan, indices[k])
    ensures forall j, k | 0 <= j < k < |indices| :: indices[j] < indices[k]
    ensures forall i | Kept(values, plan, i) :: i in indices
  {
    AscendingLists(KeptSet(values, plan), |values|);
    Ascending(KeptSet(values, plan), |values|)
  }
}
