/** The browser's view of a history response: range validation and the full-resolution minute series. */
module MinuteSeries {
  import opened Wrappers
  import opened HistoryModel

  const MAX_SAFE_INTEGER := 9_007_199_254_740_991
  const MAX_HISTORY_SPAN_SECONDS := 30 * 24 * 60 * 60

  /** A JavaScript number used as a time; NotInteger stands for NaN, infinities and fractions. */
  datatype Unix = NotInteger | Integer(value: int) {
    predicate IsSafe() {
      Integer? && -MAX_SAFE_INTEGER <= value <= MAX_SAFE_INTEGER
    }
  }

  /** A JavaScript number used as a measurement. */
  datatype Number = NaN | PosInfinity | NegInfinity | Finite(value: real)

  /** One element of the response's point list, before any validation. */
  datatype RawPoint = Nullish | NotRecord | Record(minuteUnix: Unix, payload: MinutePayload)

  /** What a series selector does with a record. */
  datatype Selected = Threw | Null | Chosen(number: Number)

  type Selector = RawPoint -> Selected

  /** A response; points is None when the field is not an array. */
  datatype History = History(fromUnix: Unix, toUnix: Unix, points: Option<seq<RawPoint>>)

  datatype Point = Point(timestampMs: int, value: Option<real>)

  datatype AlignedHistoryIndex = AlignedHistoryIndex(
    fromUnix: int, toUnix: int, minuteCount: nat, records: seq<Option<RawPoint>>)

  datatype TypeError = CannotReadNullish

  predicate IsValidHistoryRange(fromUnix: Unix, toUnix: Unix) {
    && fromUnix.IsSafe()
    && toUnix.IsSafe()
    && Integer(fromUnix.value * 1_000).IsSafe()
    && Integer(toUnix.value * 1_000).IsSafe()
    && fromUnix.value % 60 == 0
    && toUnix.value % 60 == 0
    && fromUnix.value <= toUnix.value
    && toUnix.value - fromUnix.value <= MAX_HISTORY_SPAN_SECONDS
  }

  /** Whole minutes in order, at most thirty days apart, whose milliseconds are exact numbers. */
  lemma ValidRangeExactly(fromUnix: Unix, toUnix: Unix)
    ensures IsValidHistoryRange(fromUnix, toUnix) <==>
      && fromUnix.Integer? && toUnix.Integer? && fromUnix.value % 60 == 0 == toUnix.value % 60
      && -9_007_199_254_740 <= fromUnix.value <= toUnix.value <= 9_007_199_254_740
      && toUnix.value <= fromUnix.value + 2_592_000
  {
  }

  predicate InRange(point: RawPoint, fromUnix: int, toUnix: int) {
    && point.Record?
    && point.minuteUnix.IsSafe()
    && point.minuteUnix.value % 60 == 0
    && fromUnix <= point.minuteUnix.value <= toUnix
  }

  function SelectedValue(selector: Selector, point: Option<RawPoint>): Option<real> {
    match point
    case None => None
    case Some(p) =>
      match selector(p)
      case Chosen(Finite(v)) => Some(v)
      case _ => None
  }

  function MinuteCount(fromUnix: int, toUnix: int): nat
    requires fromUnix <= toUnix
  {
    (toUnix - fromUnix) / 60 + 1
  }

  predicate IsFor(point: RawPoint, minute: int) {
    point.Record? && point.minuteUnix == Integer(minute)
  }

  /** The record shown for a minute, if the response lists one. */
  function LastRecord(points: seq<RawPoint>, minute: int): Option<RawPoint> {
    if points == [] then None
    else
      var n := |points| - 1;
      if IsFor(points[n], minute) then Some(points[n]) else LastRecord(points[..n], minute)
  }

  /** Of several records for one minute, the last one listed wins. */
  lemma {:induction false} LastListedWins(points: seq<RawPoint>, minute: int)
    ensures LastRecord(points, minute).None? <==> forall k | 0 <= k < |points| :: !IsFor(points[k], minute)
    ensures forall k |
      0 <= k < |points| && IsFor(points[k], minute) && (forall j | k < j < |points| :: !IsFor(points[j], minute)) ::
        LastRecord(points, minute) == Some(points[k])
  {
    if points != [] {
      var n := |points| - 1;
      LastListedWins(points[..n], minute);
      forall k |
        0 <= k < |points| && IsFor(points[k], minute) && (forall j | k < j < |points| :: !IsFor(points[j], minute))
        ensures LastRecord(points, minute) == Some(points[k])
      {
        if k < n {
          assert points[..n][k] == points[k] && IsFor(points[..n][k], minute);
        }
      }
    }
  }

  function FullPoint(points: seq<RawPoint>, minute: int, selector: Selector): Point {
    Point(minute * 1_000, SelectedValue(selector, LastRecord(points, minute)))
  }

  /** The full-resolution series: every minute of the range, null where no usable value exists. */
  function FullSeries(points: seq<RawPoint>, fromUnix: int, toUnix: int, selector: Selector): seq<Point>
    requires fromUnix <= toUnix
  {
    seq(MinuteCount(fromUnix, toUnix), i requires 0 <= i => FullPoint(points, fromUnix + 60 * i, selector))
  }

  /** A point of the list is of a minute, and none after it is. */
  predicate IsListedLast(points: seq<RawPoint>, k: int, minute: int) {
    && 0 <= k < |points| && points[k].Record? && points[k].minuteUnix == Integer(minute)
    && forall j | k < j < |points| :: points[j].Record? ==> points[j].minuteUnix != Integer(minute)
  }

  /** Every minute of the range has its time, and the finite value the selector finds in its last listed record. */
  lemma SeriesTellsRecords(points: seq<RawPoint>, fromUnix: int, toUnix: int, selector: Selector, i: nat)
    requires fromUnix <= toUnix && i <= (toUnix - fromUnix) / 60
    ensures
      var full := FullSeries(points, fromUnix, toUnix, selector);
      && |full| == (toUnix - fromUnix) / 60 + 1
      && full[i].timestampMs == (fromUnix + 60 * i) * 1_000
      && forall v :: full[i].value == Some(v) <==>
           exists k :: IsListedLast(points, k, fromUnix + 60 * i) && selector(points[k]) == Chosen(Finite(v))
  {
    var minute := fromUnix + 60 * i;
    LastListedWins(points, minute);
    if LastRecord(points, minute).Some? {
      var k := LastPosition(points, minute);
      assert LastRecord(points, minute) == Some(points[k]);
      assert forall j | IsListedLast(points, j, minute) :: j == k;
    }
  }

  lemma {:induction false} LastPosition(points: seq<RawPoint>, minute: int) returns (k: nat)
    requires LastRecord(points, minute).Some?
    ensures IsListedLast(points, k, minute) && LastRecord(points, minute) == Some(points[k])
  {
    var n := |points| - 1;
    if IsFor(points[n], minute) {
      k := n;
    } else {
      k := LastPosition(points[..n], minute);
      assert forall j | k < j < n :: points[..n][j] == points[j];
    }
  }

  lemma GridEnd(fromUnix: int, toUnix: int, steps: nat)
    requires fromUnix % 60 == 0 && toUnix % 60 == 0 && fromUnix <= toUnix
    requires toUnix < fromUnix + 60 * steps <= toUnix + 60
    ensures steps == MinuteCount(fromUnix, toUnix)
  {
  }

  /** Map-based construction; reading a field of null or undefined throws. */
  method BuildMinuteSeries(points: seq<RawPoint>, fromUnix: Unix, toUnix: Unix, selector: Selector)
    returns (r: Result<seq<Point>, TypeError>)
    ensures !IsValidHistoryRange(fromUnix, toUnix) ==> r == Success([])
    ensures IsValidHistoryRange(fromUnix, toUnix) ==>
      r == if Nullish in points then Failure(CannotReadNullish)
           else Success(FullSeries(points, fromUnix.value, toUnix.value, selector))
  {
    if !IsValidHistoryRange(fromUnix, toUnix) {
      return Success([]);
    }
    var first, last := fromUnix.value, toUnix.value;
    var byMinute: map<int, RawPoint> := map[];
    for k := 0 to |points|
      invariant Nullish !in points[..k]
      invariant forall minute ::
        (if minute in byMinute then Some(byMinute[minute]) else None)
        == (if InGrid(minute, first, last) then LastRecord(points[..k], minute) else None)
    {
      assert points[..k + 1][..k] == points[..k];
      if points[k] == Nullish {
        return Failure(CannotReadNullish);
      }
      if InRange(points[k], first, last) {
        byMinute := byMinute[points[k].minuteUnix.value := points[k]];
      }
    }
    assert points[..|points|] == points;
    var series := ListMinutes(byMinute, fromUnix, toUnix, selector, points);
    return Success(series);
  }

  method ListMinutes(byMinute: map<int, RawPoint>, fromUnix: Unix, toUnix: Unix, selector: Selector,
                     ghost points: seq<RawPoint>)
    returns (series: seq<Point>)
    requires IsValidHistoryRange(fromUnix, toUnix)
    requires forall minute | InGrid(minute, fromUnix.value, toUnix.value) ::
      (if minute in byMinute then Some(byMinute[minute]) else None) == LastRecord(points, minute)
    ensures series == FullSeries(points, fromUnix.value, toUnix.value, selector)
  {
    var first, last := fromUnix.value, toUnix.value;
    var minute := first;
    series := [];
    while minute <= last
      invariant minute == first + 60 * |series|
      invariant minute <= last + 60
      invariant forall i | 0 <= i < |series| :: series[i] == FullPoint(points, first + 60 * i, selector)
      decreases last - minute
    {
      var point := if minute in byMinute then Some(byMinute[minute]) else None;
      series := series + [Point(minute * 1_000, SelectedValue(selector, point))];
      minute := minute + 60;
    }
    GridEnd(first, last, |series|);
    assert series == FullSeries(points, first, last, selector);
  }

  predicate InGrid(minute: int, fromUnix: int, toUnix: int) {
    minute % 60 == 0 && fromUnix <= minute <= toUnix
  }

  function SlotOf(point: RawPoint, fromUnix: int): int
    requires point.Record? && point.minuteUnix.Integer?
  {
    (point.minuteUnix.value - fromUnix) / 60
  }

  lemma GridArithmetic(minute: int, fromUnix: int, toUnix: int, i: nat)
    requires fromUnix % 60 == 0 && toUnix % 60 == 0 && fromUnix <= toUnix && i < MinuteCount(fromUnix, toUnix)
    ensures minute == fromUnix + 60 * i
      <==> minute % 60 == 0 && fromUnix <= minute <= toUnix && (minute - fromUnix) / 60 == i
  {
    var f, t, m := fromUnix / 60, toUnix / 60, minute / 60;
    assert fromUnix == 60 * f && toUnix == 60 * t;
    assert MinuteCount(fromUnix, toUnix) == t - f + 1;
  }

  /** A record fills slot i exactly when it is for minute i of the range. */
  lemma OneSlotPerMinute(point: RawPoint, fromUnix: Unix, toUnix: Unix, i: nat)
    requires IsValidHistoryRange(fromUnix, toUnix) && i < MinuteCount(fromUnix.value, toUnix.value)
    ensures IsFor(point, fromUnix.value + 60 * i)
      <==> InRange(point, fromUnix.value, toUnix.value) && SlotOf(point, fromUnix.value) == i
  {
    if point.Record? && point.minuteUnix.Integer? {
      GridArithmetic(point.minuteUnix.value, fromUnix.value, toUnix.value, i);
    }
  }

  /** One array slot per minute; later points overwrite earlier ones, malformed ones are skipped. */
  method GetAlignedHistoryIndex(history: History) returns (aligned: Option<AlignedHistoryIndex>)
    ensures aligned.Some? <==> IsAlignable(history)
    ensures aligned.Some? ==>
      var a := aligned.value;
      && a.fromUnix == history.fromUnix.value && a.toUnix == history.toUnix.value
      && a.minuteCount == |a.records| == MinuteCount(a.fromUnix, a.toUnix)
      && forall i | 0 <= i < a.minuteCount ::
           a.records[i] == LastRecord(history.points.value, a.fromUnix + 60 * i)
  {
    if !IsValidHistoryRange(history.fromUnix, history.toUnix) || history.points.None? {
      return None;
    }
    var fromUnix, toUnix, points := history.fromUnix.value, history.toUnix.value, history.points.value;
    var minuteCount := (toUnix - fromUnix) / 60 + 1;
    var records := new Option<RawPoint>[minuteCount](_ => None);
    for k := 0 to |points|
      invariant forall i | 0 <= i < minuteCount :: records[i] == LastRecord(points[..k], fromUnix + 60 * i)
    {
      assert points[..k + 1][..k] == points[..k];
      var point := points[k];
      if InRange(point, fromUnix, toUnix) {
        var index := SlotOf(point, fromUnix);
        records[index] := Some(point);
      }
      forall i | 0 <= i < minuteCount
        ensures records[i] == LastRecord(points[..k + 1], fromUnix + 60 * i)
      {
        OneSlotPerMinute(point, history.fromUnix, history.toUnix, i);
      }
    }
    assert points[..|points|] == points;
    return Some(AlignedHistoryIndex(fromUnix, toUnix, minuteCount, records[..]));
  }

  predicate IsAlignable(history: History) {
    IsValidHistoryRange(history.fromUnix, history.toUnix) && history.points.Some?
  }

  /** A history can be charted if it has a list of points and a range of whole minutes, at most thirty days long. */
  lemma AlignableExactly(history: History)
    ensures IsAlignable(history) <==>
      && history.points.Some? && history.fromUnix.Integer? && history.toUnix.Integer?
      && var from, to := history.fromUnix.value, history.toUnix.value;
         && from % 60 == 0 == to % 60 && from <= to <= from + 2_592_000
         && -9_007_199_254_740 <= from && to <= 9_007_199_254_740
  {
    ValidRangeExactly(history.fromUnix, history.toUnix);
  }
}
