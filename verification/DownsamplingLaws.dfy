/** Properties of the kept minutes, for every series and every budget. */
module DownsamplingLaws {
  import opened Wrappers
  import opened Downsampling

  // Gaps

  /** A missing minute after a finite one puts a gap start in between. */
  lemma {:induction false} FindGapStart(values: Values, i: nat, j: nat) returns (k: nat)
    requires i < j < |values| && values[i].Some? && values[j].None?
    ensures i < k <= j && GapStart(values, k)
    decreases j
  {
    if values[j - 1].Some? {
      k := j;
    } else {
      k := FindGapStart(values, i, j - 1);
    }
  }

  /** No kept minute lies strictly between two adjacent list entries. */
  lemma NothingBetween(values: Values, plan: Plan, p: nat, i: int)
    requires p + 1 < |KeptIndices(values, plan)|
    requires KeptIndices(values, plan)[p] < i < KeptIndices(values, plan)[p + 1]
    ensures !Kept(values, plan, i)
  {
  }

  /** A line drawn between two adjacent finite points never crosses a missing minute. */
  lemma AdjacentPointsAreUnbroken(values: Values, plan: Plan, p: nat)
    requires p + 1 < |KeptIndices(values, plan)|
    ensures var indices := KeptIndices(values, plan);
      values[indices[p]].Some? && values[indices[p + 1]].Some? ==> Unbroken(values, indices[p], indices[p + 1])
  {
    var indices := KeptIndices(values, plan);
    if values[indices[p]].Some? && values[indices[p + 1]].Some? {
      forall k | indices[p] <= k <= indices[p + 1]
        ensures values[k].Some?
      {
        if values[k].None? {
          var gap := FindGapStart(values, indices[p], k);
          NothingBetween(values, plan, p, gap);
          assert false;
        }
      }
    }
  }

  /** A kept minute has kept neighbours in its own run, or is the whole run. */
  lemma IsolatedExactly(values: Values, plan: Plan, p: nat)
    requires p < |KeptIndices(values, plan)|
    requires values[KeptIndices(values, plan)[p]].Some?
    ensures var indices := KeptIndices(values, plan);
      ((p == 0 || values[indices[p - 1]].None?) && (p == |indices| - 1 || values[indices[p + 1]].None?))
      <==> RunStart(values, indices[p]) && RunEnd(values, indices[p])
  {
    var indices := KeptIndices(values, plan);
    var i := indices[p];
    NeighbourBefore(values, plan, p);
    NeighbourAfter(values, plan, p);
  }

  lemma NeighbourBefore(values: Values, plan: Plan, p: nat)
    requires p < |KeptIndices(values, plan)|
    requires values[KeptIndices(values, plan)[p]].Some?
    ensures var indices := KeptIndices(values, plan);
      (p == 0 || values[indices[p - 1]].None?) <==> RunStart(values, indices[p])
  {
    var indices := KeptIndices(values, plan);
    var i := indices[p];
    if RunStart(values, i) {
      if p > 0 && values[indices[p - 1]].Some? {
        AdjacentPointsAreUnbroken(values, plan, p - 1);
        assert false;
      }
    } else {
      var start := FindRunStart(values, i);
      assert start in indices && start < i;
      var q :| 0 <= q < |indices| && indices[q] == start;
      assert q < p && start <= indices[p - 1] < i;
    }
  }

  lemma NeighbourAfter(values: Values, plan: Plan, p: nat)
    requires p < |KeptIndices(values, plan)|
    requires values[KeptIndices(values, plan)[p]].Some?
    ensures var indices := KeptIndices(values, plan);
      (p == |indices| - 1 || values[indices[p + 1]].None?) <==> RunEnd(values, indices[p])
  {
    var indices := KeptIndices(values, plan);
    var i := indices[p];
    if RunEnd(values, i) {
      if p < |indices| - 1 && values[indices[p + 1]].Some? {
        AdjacentPointsAreUnbroken(values, plan, p);
        assert false;
      }
    } else {
      var end := FindRunEnd(values, i);
      assert end in indices && i < end;
      var q :| 0 <= q < |indices| && indices[q] == end;
      assert p < q && i < indices[p + 1] <= end;
    }
  }

  lemma {:induction false} FindRunStart(values: Values, i: nat) returns (start: nat)
    requires i < |values| && values[i].Some?
    ensures start <= i && RunStart(values, start) && Unbroken(values, start, i)
  {
    if RunStart(values, i) {
      start := i;
    } else {
      start := FindRunStart(values, i - 1);
    }
  }

  lemma {:induction false} FindRunEnd(values: Values, i: nat) returns (end: nat)
    requires i < |values| && values[i].Some?
    ensures i <= end && RunEnd(values, end) && Unbroken(values, i, end)
    decreases |values| - i
  {
    if RunEnd(values, i) {
      end := i;
    } else {
      end := FindRunEnd(values, i + 1);
    }
  }

  // Size

  /** How many indices of [lo, hi) satisfy p. */
  function Count(p: int -> bool, lo: int, hi: int): nat
    decreases hi - lo
  {
    if hi <= lo then 0 else Count(p, lo, hi - 1) + if p(hi - 1) then 1 else 0
  }

  lemma {:induction false} CountWithin(all: int -> bool, a: int -> bool, b: int -> bool, c: int -> bool,
      d: int -> bool, e: int -> bool, lo: int, hi: int)
    requires forall i | lo <= i < hi && all(i) :: a(i) || b(i) || c(i) || d(i) || e(i)
    ensures Count(all, lo, hi) <=
      Count(a, lo, hi) + Count(b, lo, hi) + Count(c, lo, hi) + Count(d, lo, hi) + Count(e, lo, hi)
    decreases hi - lo
  {
    if lo < hi {
      CountWithin(all, a, b, c, d, e, lo, hi - 1);
    }
  }

  lemma {:induction false} CountNone(p: int -> bool, lo: int, hi: int)
    requires forall i | lo <= i < hi :: !p(i)
    ensures Count(p, lo, hi) == 0
    decreases hi - lo
  {
    if lo < hi {
      CountNone(p, lo, hi - 1);
    }
  }

  lemma {:induction false} CountOne(p: int -> bool, lo: int, hi: int)
    requires forall i, j | lo <= i < hi && lo <= j < hi && p(i) && p(j) :: i == j
    ensures Count(p, lo, hi) <= 1
    decreases hi - lo
  {
    if lo < hi {
      if p(hi - 1) {
        CountNone(p, lo, hi - 1);
      } else {
        CountOne(p, lo, hi - 1);
      }
    }
  }

  lemma {:induction false} CountAll(p: int -> bool, lo: int, hi: int)
    requires lo <= hi
    ensures Count(p, lo, hi) <= hi - lo
    ensures Count(p, lo, hi) == hi - lo <==> forall i | lo <= i < hi :: p(i)
    decreases hi - lo
  {
    if lo < hi {
      CountAll(p, lo, hi - 1);
    }
  }

  lemma {:induction false} CountSplit(p: int -> bool, lo: int, mid: int, hi: int)
    requires lo <= mid <= hi
    ensures Count(p, lo, hi) == Count(p, lo, mid) + Count(p, mid, hi)
    decreases hi - mid
  {
    if mid < hi {
      CountSplit(p, lo, mid, hi - 1);
    }
  }

  lemma {:induction false} CountSame(p: int -> bool, q: int -> bool, lo: int, hi: int)
    requires forall i | lo <= i < hi :: p(i) == q(i)
    ensures Count(p, lo, hi) == Count(q, lo, hi)
    decreases hi - lo
  {
    if lo < hi {
      CountSame(p, q, lo, hi - 1);
    }
  }

  /** G: the number of runs of missing minutes among the first n. */
  function GapCount(values: Values, n: nat): nat {
    Count(k => GapStart(values, k), 0, n)
  }

  /** R: the number of runs of finite minutes. */
  function RunCount(values: Values, n: nat): nat {
    Count(k => RunStart(values, k), 0, n)
  }

  function RunEndCount(values: Values, n: nat): nat {
    Count(k => RunEnd(values, k), 0, n)
  }

  /** Every run that starts also ends, unless the prefix is cut inside it. */
  lemma {:induction false} RunsEnd(values: Values, n: nat)
    requires n <= |values|
    ensures RunCount(values, n) ==
      RunEndCount(values, n) + if n > 0 && values[n - 1].Some? && !RunEnd(values, n - 1) then 1 else 0
  {
    if n > 0 {
      RunsEnd(values, n - 1);
    }
  }

  /** Only a gap separates one run from the next: R <= G + 1. */
  lemma {:induction false} RunsWithinGaps(values: Values, n: nat)
    requires n <= |values|
    ensures RunCount(values, n) <= GapCount(values, n) + if n > 0 && values[n - 1].Some? then 1 else 0
  {
    if n > 0 {
      RunsWithinGaps(values, n - 1);
    }
  }

  lemma FourPerBucket(values: Values, lo: int, hi: int)
    requires 0 <= lo && hi <= |values|
    ensures Count(i => IsExtreme(values, lo, hi, i), lo, hi) <= FINITE_CANDIDATES_PER_BUCKET
  {
    var first := i => IsFirst(values, lo, hi, i);
    var last := i => IsLast(values, lo, hi, i);
    var minimum := i => IsMinimum(values, lo, hi, i);
    var maximum := i => IsMaximum(values, lo, hi, i);
    var never := i => false;
    CountOne(first, lo, hi);
    CountOne(last, lo, hi);
    CountOne(minimum, lo, hi);
    CountOne(maximum, lo, hi);
    CountNone(never, lo, hi);
    CountWithin(i => IsExtreme(values, lo, hi, i), first, last, minimum, maximum, never, lo, hi);
  }

  predicate IsExtremeIndex(values: Values, size: nat, i: int)
    requires 1 <= size
  {
    0 <= i < |values| && IsBucketExtreme(values, size, i)
  }

  function ExtremeCount(values: Values, size: nat, limit: int): nat
    requires 1 <= size
  {
    Count(i => IsExtremeIndex(values, size, i), 0, limit)
  }

  lemma {:induction false} ExtremesPerBuckets(values: Values, size: nat, buckets: nat)
    requires 1 <= size
    ensures ExtremeCount(values, size, buckets * size) <= FINITE_CANDIDATES_PER_BUCKET * buckets
  {
    if buckets > 0 {
      ExtremesPerBuckets(values, size, buckets - 1);
      BucketAddsFour(values, size, buckets - 1, (buckets - 1) * size);
    }
  }

  lemma BucketAddsFour(values: Values, size: nat, bucket: nat, lo: int)
    requires 1 <= size && lo == bucket * size
    ensures ExtremeCount(values, size, lo + size) <= ExtremeCount(values, size, lo) + FINITE_CANDIDATES_PER_BUCKET
  {
    var extreme := i => IsExtremeIndex(values, size, i);
    CountSplit(extreme, 0, lo, lo + size);
    if lo < |values| {
      var hi := Min(|values|, lo + size);
      CountSplit(extreme, lo, hi, lo + size);
      CountNone(extreme, hi, lo + size);
      FourInBucket(values, size, bucket, lo, hi);
    } else {
      CountNone(extreme, lo, lo + size);
    }
  }

  lemma FourInBucket(values: Values, size: nat, bucket: nat, lo: int, hi: int)
    requires 1 <= size && lo == bucket * size < |values| && hi == Min(|values|, lo + size)
    ensures Count(i => IsExtremeIndex(values, size, i), lo, hi) <= FINITE_CANDIDATES_PER_BUCKET
  {
    FourPerBucket(values, lo, hi);
    forall i | lo <= i < hi
      ensures IsExtremeIndex(values, size, i) == IsExtreme(values, lo, hi, i)
    {
      SameBucket(bucket, size, i);
    }
    CountSame(i => IsExtremeIndex(values, size, i), i => IsExtreme(values, lo, hi, i), lo, hi);
  }

  lemma ExtremesTotal(values: Values, budget: nat)
    requires MIN_POINT_BUDGET <= budget < |values|
    ensures ExtremeCount(values, BucketSize(|values|, budget), |values|)
      <= FINITE_CANDIDATES_PER_BUCKET * BucketCount(|values|, budget)
  {
    var buckets, size := BucketCount(|values|, budget), BucketSize(|values|, budget);
    ExtremesPerBuckets(values, size, buckets);
    CountSplit(i => IsExtremeIndex(values, size, i), 0, |values|, buckets * size);
  }

  lemma {:induction false} AscendingCount(s: set<int>, n: nat)
    ensures |Ascending(s, n)| == Count(i => i in s, 0, n)
  {
    if n > 0 {
      AscendingCount(s, n - 1);
    }
  }

  lemma KeptWithin(values: Values, size: Positive)
    requires 1 <= |values|
    ensures var n := |values|;
      |KeptIndices(values, Bucketed(size))| <=
        2 + GapCount(values, n) + RunCount(values, n) + RunEndCount(values, n) + ExtremeCount(values, size, n)
  {
    var n, kept := |values|, KeptSet(values, Bucketed(size));
    var border := i => i == 0 || i == n - 1;
    AscendingCount(kept, n);
    CountSplit(border, 0, 1, n);
    CountOne(border, 0, 1);
    CountOne(border, 1, n);
    CountWithin(i => i in kept, border, k => GapStart(values, k), k => RunStart(values, k),
                k => RunEnd(values, k), i => IsExtremeIndex(values, size, i), 0, n);
  }

  /** The bound claimed for chart preparation: 4B + 2 + G + 2R, at most P + G + 2R, at most P + 3G + 2. */
  lemma KeptCount(values: Values, budget: nat)
    requires MIN_POINT_BUDGET <= budget && 1 <= |values|
    ensures var n := |values|;
      var size, g, r := |KeptIndices(values, PlanFor(n, budget))|, GapCount(values, n), RunCount(values, n);
      && (n > budget ==> size <= FINITE_CANDIDATES_PER_BUCKET * BucketCount(n, budget) + 2 + g + 2 * r)
      && size <= budget + g + 2 * r
      && size <= budget + 3 * g + 2
      && r <= g + 1
  {
    var n := |values|;
    RunsEnd(values, n);
    RunsWithinGaps(values, n);
    if n > budget {
      ExtremesTotal(values, budget);
      KeptWithin(values, BucketSize(n, budget));
    } else {
      AscendingFull(KeptSet(values, Whole), n);
    }
  }

  lemma AscendingFull(s: set<int>, n: nat)
    ensures |Ascending(s, n)| == n <==> forall i | 0 <= i < n :: i in s
    ensures |Ascending(s, n)| <= n
  {
    AscendingCount(s, n);
    CountAll(i => i in s, 0, n);
  }

  // Values

  lemma {:induction false} FindMinimum(values: Values, lo: nat, hi: nat) returns (m: nat)
    requires lo <= hi <= |values| && !NoneFinite(values, lo, hi)
    ensures IsMinimum(values, lo, hi, m)
    decreases hi
  {
    if NoneFinite(values, lo, hi - 1) {
      m := hi - 1;
    } else {
      m := FindMinimum(values, lo, hi - 1);
      if values[hi - 1].Some? && values[hi - 1].value < values[m].value {
        m := hi - 1;
      }
    }
  }

  lemma {:induction false} FindMaximum(values: Values, lo: nat, hi: nat) returns (m: nat)
    requires lo <= hi <= |values| && !NoneFinite(values, lo, hi)
    ensures IsMaximum(values, lo, hi, m)
    decreases hi
  {
    if NoneFinite(values, lo, hi - 1) {
      m := hi - 1;
    } else {
      m := FindMaximum(values, lo, hi - 1);
      if values[hi - 1].Some? && values[m].value < values[hi - 1].value {
        m := hi - 1;
      }
    }
  }

  /** Every finite minute lies between two emitted minutes of its own bucket. */
  lemma EveryValueIsBracketed(values: Values, plan: Plan, i: nat) returns (low: nat, high: nat)
    requires i < |values| && values[i].Some?
    ensures low in KeptIndices(values, plan) && high in KeptIndices(values, plan)
    ensures values[low].Some? && values[high].Some?
    ensures values[low].value <= values[i].value <= values[high].value
    ensures plan.Bucketed? ==>
      BucketStart(low, plan.size) == BucketStart(i, plan.size) == BucketStart(high, plan.size)
  {
    if plan.Whole? {
      return i, i;
    }
    var lo := BucketStart(i, plan.size);
    var hi := Min(|values|, lo + plan.size);
    BucketOf(i, plan.size, |values|);
    low := FindMinimum(values, lo, hi);
    high := FindMaximum(values, lo, hi);
    SameBucket(i / plan.size, plan.size, low);
    SameBucket(i / plan.size, plan.size, high);
    assert IsBucketExtreme(values, plan.size, low) && IsBucketExtreme(values, plan.size, high);
  }

  // When nothing is dropped

  ghost predicate KeepsEverything(values: Values, plan: Plan) {
    |KeptIndices(values, plan)| == |values|
  }

  lemma KeepsEverythingMeansAll(values: Values, plan: Plan)
    ensures KeepsEverything(values, plan) <==> forall i | 0 <= i < |values| :: Kept(values, plan, i)
  {
    var kept := KeptSet(values, plan);
    AscendingFull(kept, |values|);
    assert forall i | 0 <= i < |values| :: i in kept <==> Kept(values, plan, i);
    assert KeepsEverything(values, plan) <==> forall i | 0 <= i < |values| :: i in kept;
  }

  /** A missing minute after a missing one, or an ordinary minute inside a run. */
  predicate Redundant(values: Values, size: Positive, k: int)
    requires 0 < k < |values| - 1
  {
    if values[k].None? then values[k - 1].None?
    else values[k - 1].Some? && values[k + 1].Some? && !IsBucketExtreme(values, size, k)
  }

  /** Bucketing emits the whole series exactly when no minute before the last is redundant. */
  lemma BucketingKeepsEverythingExactly(values: Values, size: Positive)
    ensures KeepsEverything(values, Bucketed(size)) <==>
      forall k | 0 < k < |values| - 1 :: !Redundant(values, size, k)
  {
    KeepsEverythingMeansAll(values, Bucketed(size));
    forall k | 0 < k < |values| - 1
      ensures Kept(values, Bucketed(size), k) <==> !Redundant(values, size, k)
    {
    }
  }

  /** The whole series is emitted exactly when it fits the budget or none of its minutes is redundant. */
  lemma KeepsEverythingExactly(values: Values, budget: nat)
    requires MIN_POINT_BUDGET <= budget && 1 <= |values|
    ensures KeepsEverything(values, PlanFor(|values|, budget)) <==>
      || |values| <= budget
      || forall k | 0 < k < |values| - 1 :: !Redundant(values, BucketSize(|values|, budget), k)
  {
    if |values| <= budget {
      KeepsEverythingMeansAll(values, Whole);
    } else {
      BucketingKeepsEverythingExactly(values, BucketSize(|values|, budget));
    }
  }

  /** Without gaps, the budget alone decides. */
  lemma GapFreeKeepsEverythingExactly(values: Values, budget: nat)
    requires MIN_POINT_BUDGET <= budget && 1 <= |values|
    requires forall k | 0 <= k < |values| :: values[k].Some?
    ensures KeepsEverything(values, PlanFor(|values|, budget)) <==> |values| <= budget
  {
    if |values| <= budget {
      KeepsEverythingMeansAll(values, Whole);
    } else {
      var size := BucketSize(|values|, budget);
      WideBuckets(|values|, budget);
      KeepsEverythingMeansAll(values, Bucketed(size));
      var i := OrdinaryMinute(values, size);
      SameBucket(0, size, i);
      assert !Kept(values, Bucketed(size), i);
    }
  }

  lemma OrdinaryMinute(values: Values, size: nat) returns (i: nat)
    requires 5 <= size < |values|
    requires values[0].Some?
    ensures 0 < i < size && !IsExtreme(values, 0, size, i)
  {
    FourPerBucket(values, 0, size);
    CountAll(i => IsExtreme(values, 0, size, i), 0, size);
    assert IsFirst(values, 0, size, 0);
    i :| 0 <= i < size && !IsExtreme(values, 0, size, i);
  }

  /** Over budget, every bucket but the last covers at least five minutes. */
  lemma WideBuckets(minuteCount: nat, budget: nat)
    requires MIN_POINT_BUDGET <= budget < minuteCount
    ensures 5 <= BucketSize(minuteCount, budget) < minuteCount
  {
    var count := BucketCount(minuteCount, budget);
    var size := BucketSize(minuteCount, budget);
    assert minuteCount + count - 1 == size * count + (minuteCount + count - 1) % count;
    TimesMonotone(size, 5, count);
    TimesMonotone(1, count, size);
  }

  /** Alternating minutes overrun the smallest budget and are still all emitted. */
  lemma OverBudgetYetComplete() returns (values: Values)
    ensures |values| > MIN_POINT_BUDGET && KeepsEverything(values, PlanFor(|values|, MIN_POINT_BUDGET))
  {
    values := seq(MIN_POINT_BUDGET + 1, i => if i % 2 == 0 then Some(0.0) else None);
    KeepsEverythingExactly(values, MIN_POINT_BUDGET);
  }
}
