/** Alert rules and the values they compare. */
module AlertMetrics {
  import opened Wrappers
  import opened Protocol
  import opened LiveModel
  import opened Clock

  datatype Metric = OfflineMetric | CpuUsage | MemoryUsage | DiskUsage | DiskFreeBytes | OtherMetric(name: string)

  datatype Operator = GreaterThan | LessThan | OtherOperator(name: string)

  datatype Rule = Rule(
    id: int, serverId: int, metric: Metric, operator: Operator, threshold: real,
    durationSeconds: Duration, repeatSeconds: Duration, enabled: bool)

  function Percentage(used: uint64, total: uint64): real
    requires total != 0
  {
    used as real / total as real * 100.0
  }

  /** The largest usage among the first n disks; disks without a size are passed over. */
  function LargestUsage(disks: seq<DiskStats>, n: nat): real
    requires n <= |disks|
  {
    if n == 0 then 0.0
    else
      var largest := LargestUsage(disks, n - 1);
      var disk := disks[n - 1];
      if disk.totalBytes == 0 then largest
      else
        var usage := Percentage(disk.usedBytes, disk.totalBytes);
        if usage > largest then usage else largest
  }

  /** Unsigned subtraction: a disk that reports more used than it has wraps around. */
  function FreeBytes(disk: DiskStats): (free: uint64)
    ensures free == disk.totalBytes - disk.usedBytes <==> disk.usedBytes <= disk.totalBytes
  {
    (disk.totalBytes - disk.usedBytes) % 0x1_0000_0000_0000_0000
  }

  /** The least free space among the first n disks; None is positive infinity. */
  function SmallestFree(disks: seq<DiskStats>, n: nat): Option<real>
    requires n <= |disks|
  {
    if n == 0 then None
    else
      var smallest := SmallestFree(disks, n - 1);
      var free := FreeBytes(disks[n - 1]) as real;
      if smallest.None? || free < smallest.value then Some(free) else smallest
  }

  ghost predicate HasUsage(disk: DiskStats, usage: real) {
    disk.totalBytes != 0 && Percentage(disk.usedBytes, disk.totalBytes) == usage
  }

  /** The disk usage of a server is that of its fullest disk, and zero if no disk has a size. */
  lemma {:induction false} LargestUsageIsLargest(disks: seq<DiskStats>, n: nat)
    requires n <= |disks|
    ensures LargestUsage(disks, n) >= 0.0
    ensures forall i | 0 <= i < n && disks[i].totalBytes != 0 ::
      Percentage(disks[i].usedBytes, disks[i].totalBytes) <= LargestUsage(disks, n)
    ensures LargestUsage(disks, n) == 0.0 || exists i :: 0 <= i < n && HasUsage(disks[i], LargestUsage(disks, n))
  {
    if n > 0 {
      LargestUsageIsLargest(disks, n - 1);
      var largest := LargestUsage(disks, n);
      if largest == LargestUsage(disks, n - 1) {
        if largest != 0.0 {
          var i :| 0 <= i < n - 1 && HasUsage(disks[i], largest);
          assert 0 <= i < n && HasUsage(disks[i], largest);
        }
      } else {
        assert HasUsage(disks[n - 1], largest);
      }
    }
  }

  /** The free space of a server is that of its disk with the least. */
  lemma {:induction false} SmallestFreeIsSmallest(disks: seq<DiskStats>, n: nat)
    requires n <= |disks|
    ensures SmallestFree(disks, n).None? <==> n == 0
    ensures n > 0 ==> forall i | 0 <= i < n :: SmallestFree(disks, n).value <= FreeBytes(disks[i]) as real
    ensures n > 0 ==> exists i :: 0 <= i < n && SmallestFree(disks, n) == Some(FreeBytes(disks[i]) as real)
  {
    if n > 0 {
      SmallestFreeIsSmallest(disks, n - 1);
      var smallest := SmallestFree(disks, n);
      if smallest == Some(FreeBytes(disks[n - 1]) as real) {
        assert 0 <= n - 1 < n;
      } else {
        var i :| 0 <= i < n - 1 && smallest == Some(FreeBytes(disks[i]) as real);
        assert 0 <= i < n;
      }
    }
  }

  function ValueOf(snapshot: Snapshot, metric: Metric): real {
    var report := snapshot.report;
    match metric
    case OfflineMetric => if snapshot.online then 0.0 else 1.0
    case CpuUsage => report.cpu.usagePercent
    case MemoryUsage =>
      if report.memory.totalBytes == 0 then 0.0 else Percentage(report.memory.usedBytes, report.memory.totalBytes)
    case DiskUsage => LargestUsage(report.disks, |report.disks|)
    case DiskFreeBytes =>
      var smallest := SmallestFree(report.disks, |report.disks|);
      if smallest.None? then 0.0 else smallest.value
    case OtherMetric(_) => 0.0
  }

  method MetricValue(snapshot: Snapshot, metric: Metric) returns (value: real)
    ensures value == ValueOf(snapshot, metric)
  {
    var disks := snapshot.report.disks;
    match metric {
      case OfflineMetric =>
        return if snapshot.online then 0.0 else 1.0;
      case CpuUsage =>
        return snapshot.report.cpu.usagePercent;
      case MemoryUsage =>
        var memory := snapshot.report.memory;
        if memory.totalBytes == 0 {
          return 0.0;
        }
        return Percentage(memory.usedBytes, memory.totalBytes);
      case DiskUsage =>
        value := 0.0;
        for i := 0 to |disks|
          invariant value == LargestUsage(disks, i)
        {
          if disks[i].totalBytes == 0 {
            continue;
          }
          var usage := Percentage(disks[i].usedBytes, disks[i].totalBytes);
          value := if usage > value then usage else value;
        }
      case DiskFreeBytes =>
        var smallest: Option<real> := None;
        for i := 0 to |disks|
          invariant smallest == SmallestFree(disks, i)
        {
          var free := FreeBytes(disks[i]) as real;
          smallest := if smallest.None? || free < smallest.value then Some(free) else smallest;
        }
        value := if smallest.None? then 0.0 else smallest.value;
      case OtherMetric(_) =>
        return 0.0;
    }
  }

  predicate IsBreached(value: real, rule: Rule) {
    match rule.operator
    case GreaterThan => value > rule.threshold
    case LessThan => value < rule.threshold
    case OtherOperator(_) => false
  }

  /** The shape every offline rule is brought into before it is stored. */
  predicate IsOfflineRule(rule: Rule) {
    rule.metric == OfflineMetric && rule.operator == GreaterThan && rule.threshold == 0.0
  }

  /** An offline rule is breached exactly by the snapshots of servers that are offline. */
  lemma OfflineRuleExactly(snapshot: Snapshot, rule: Rule)
    requires IsOfflineRule(rule)
    ensures IsBreached(ValueOf(snapshot, rule.metric), rule) <==> !snapshot.online
  {
    assert ValueOf(snapshot, rule.metric) == if snapshot.online then 0.0 else 1.0;
  }

  /** Offline rules fire at once; the others wait for their duration. */
  function DurationFor(rule: Rule): Duration {
    if rule.metric == OfflineMetric then 0 else Seconds(rule.durationSeconds)
  }

  // Readings, in numbers

  /** Free bytes as unsigned 64-bit numbers count them. */
  predicate IsFree(disk: DiskStats, free: real) {
    var wrap := if disk.usedBytes <= disk.totalBytes then 0 else 0x1_0000_0000_0000_0000;
    free == (disk.totalBytes - disk.usedBytes + wrap) as real
  }

  /** The usage is used * 100 of total. */
  predicate IsUsage(used: uint64, total: uint64, usage: real) {
    total != 0 && usage * total as real == used as real * 100.0
  }

  ghost predicate IsFullest(disks: seq<DiskStats>, value: real) {
    && value >= 0.0
    && (value != 0.0 ==> exists i :: 0 <= i < |disks| && IsUsage(disks[i].usedBytes, disks[i].totalBytes, value))
    && forall i | 0 <= i < |disks| :: IsNoFuller(disks[i], value)
  }

  predicate IsNoFuller(disk: DiskStats, value: real) {
    disk.totalBytes != 0 ==> disk.usedBytes as real * 100.0 <= value * disk.totalBytes as real
  }

  ghost predicate IsLeastFree(disks: seq<DiskStats>, value: real) {
    && (exists i :: 0 <= i < |disks| && IsFree(disks[i], value))
    && forall i, free | 0 <= i < |disks| && IsFree(disks[i], free) :: value <= free
  }

  /** What a metric reads from a snapshot. */
  ghost predicate IsReading(snapshot: Snapshot, metric: Metric, value: real) {
    var disks, memory := snapshot.report.disks, snapshot.report.memory;
    match metric
    case OfflineMetric => value == if snapshot.online then 0.0 else 1.0
    case CpuUsage => value == snapshot.report.cpu.usagePercent
    case MemoryUsage =>
      if memory.totalBytes == 0 then value == 0.0 else IsUsage(memory.usedBytes, memory.totalBytes, value)
    case DiskUsage => IsFullest(disks, value)
    case DiskFreeBytes => if disks == [] then value == 0.0 else IsLeastFree(disks, value)
    case OtherMetric(_) => value == 0.0
  }

  lemma PercentageExactly(used: uint64, total: uint64)
    requires total != 0
    ensures IsUsage(used, total, Percentage(used, total))
  {
    var ratio := used as real / total as real;
    assert ratio * total as real == used as real;
  }

  lemma PercentageAtMost(used: uint64, total: uint64, value: real)
    requires total != 0 && Percentage(used, total) <= value
    ensures used as real * 100.0 <= value * total as real
  {
    PercentageExactly(used, total);
    TimesKeepsOrder(Percentage(used, total), value, total as real);
  }

  lemma TimesKeepsOrder(a: real, b: real, factor: real)
    requires a <= b && factor >= 0.0
    ensures a * factor <= b * factor
  {
  }

  lemma FreeExactly(disk: DiskStats, free: real)
    ensures IsFree(disk, free) <==> free == FreeBytes(disk) as real
  {
  }

  lemma UsageIsRead(disk: DiskStats, value: real)
    requires HasUsage(disk, value)
    ensures IsUsage(disk.usedBytes, disk.totalBytes, value)
  {
    PercentageExactly(disk.usedBytes, disk.totalBytes);
  }

  lemma FullestIsRead(disks: seq<DiskStats>)
    ensures IsFullest(disks, LargestUsage(disks, |disks|))
  {
    var value := LargestUsage(disks, |disks|);
    LargestUsageIsLargest(disks, |disks|);
    if value != 0.0 {
      var i :| 0 <= i < |disks| && HasUsage(disks[i], value);
      UsageIsRead(disks[i], value);
    }
    forall i | 0 <= i < |disks|
      ensures IsNoFuller(disks[i], value)
    {
      if disks[i].totalBytes != 0 {
        PercentageAtMost(disks[i].usedBytes, disks[i].totalBytes, value);
      }
    }
  }

  lemma LeastFreeIsRead(disks: seq<DiskStats>)
    requires disks != []
    ensures SmallestFree(disks, |disks|).Some? && IsLeastFree(disks, SmallestFree(disks, |disks|).value)
  {
    SmallestFreeIsSmallest(disks, |disks|);
    var value := SmallestFree(disks, |disks|).value;
    var i :| 0 <= i < |disks| && Some(value) == Some(FreeBytes(disks[i]) as real);
    FreeExactly(disks[i], value);
    forall j, free | 0 <= j < |disks| && IsFree(disks[j], free)
      ensures value <= free
    {
      FreeExactly(disks[j], free);
    }
  }

  /** Every metric reads the value it stands for. */
  lemma ValuesAreReadings(snapshot: Snapshot, metric: Metric)
    ensures IsReading(snapshot, metric, ValueOf(snapshot, metric))
  {
    var disks, memory := snapshot.report.disks, snapshot.report.memory;
    match metric {
      case MemoryUsage =>
        if memory.totalBytes != 0 {
          PercentageExactly(memory.usedBytes, memory.totalBytes);
        }
      case DiskUsage => FullestIsRead(disks);
      case DiskFreeBytes =>
        if disks != [] {
          LeastFreeIsRead(disks);
        } else {
          assert SmallestFree(disks, 0).None?;
        }
      case _ =>
    }
  }

  /** Greater or less than the threshold, as the rule says; no other operator is ever breached. */
  lemma BreachedExactly(value: real, rule: Rule)
    ensures IsBreached(value, rule) <==>
      || (rule.operator == GreaterThan && value > rule.threshold)
      || (rule.operator == LessThan && value < rule.threshold)
  {
  }

  /** Durations of up to 292 years are taken at their number of seconds, those of offline rules at none. */
  lemma DurationExactly(rule: Rule)
    ensures rule.metric == OfflineMetric ==> DurationFor(rule) == 0
    ensures rule.metric != OfflineMetric && 0 <= rule.durationSeconds <= 9_223_372_036 ==>
      DurationFor(rule) == rule.durationSeconds * 1_000_000_000
  {
    if rule.durationSeconds >= 0 {
      SecondsExactly(rule.durationSeconds);
    }
  }
}
