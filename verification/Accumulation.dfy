/** The per-minute accumulator: running counts, sums, maxima and latest values. */
module Accumulation {
  import opened Wrappers
  import opened Protocol
  import opened HistoryModel
  import opened Sorting
  import opened StringOrder

  datatype Numeric = Numeric(count: nat, sum: real, max: real) {
    function Add(value: real): Numeric {
      Numeric(count + 1, sum + value, if count == 0 || value > max then value else max)
    }

    function ToPair(): Pair {
      if count == 0 then Pair(0.0, 0.0) else Pair(sum / count as real, max)
    }
  }

  const ZERO := Numeric(0, 0.0, 0.0)

  function UsagePercent(used: uint64, total: uint64): real {
    if total == 0 then 0.0 else used as real / total as real * 100.0
  }

  /** lastReceivedAt is None while no ordered report has set the byte counts. */
  datatype DiskAccumulator = DiskAccumulator(
    usage: Numeric, totalBytes: uint64, usedBytes: uint64, lastReceivedAt: Option<int>)

  const NEW_DISK := DiskAccumulator(ZERO, 0, 0, None)

  datatype State = State(
    cpuUsage: Numeric, load1: Numeric, load5: Numeric, load15: Numeric,
    memoryUsage: Numeric, swapUsage: Numeric,
    disks: map<string, DiskAccumulator>,
    diskReadBPS: Numeric, diskWriteBPS: Numeric, uploadBPS: Numeric, downloadBPS: Numeric,
    totalUpload: uint64, totalDownload: uint64, lastTotalsReceivedAt: Option<int>)

  const EMPTY := State(ZERO, ZERO, ZERO, ZERO, ZERO, ZERO, map[], ZERO, ZERO, ZERO, ZERO, 0, 0, None)

  /** A later report replaces the latest values unless it was received before them; an unordered one always does. */
  predicate Supersedes(receivedAt: Option<int>, last: Option<int>) {
    receivedAt.None? || last.None? || receivedAt.value >= last.value
  }

  /** The last entry for each mount point of one report. */
  function DisksByMount(disks: seq<DiskStats>): map<string, DiskStats> {
    if disks == [] then map[]
    else
      var n := |disks| - 1;
      DisksByMount(disks[..n])[disks[n].mountpoint := disks[n]]
  }

  function AddDisk(entry: DiskAccumulator, disk: DiskStats, receivedAt: Option<int>): DiskAccumulator {
    var sampled := entry.(usage := entry.usage.Add(UsagePercent(disk.usedBytes, disk.totalBytes)));
    if Supersedes(receivedAt, entry.lastReceivedAt)
    then sampled.(totalBytes := disk.totalBytes, usedBytes := disk.usedBytes, lastReceivedAt := receivedAt)
    else sampled
  }

  function DiskAt(disks: map<string, DiskAccumulator>, mountpoint: string): DiskAccumulator {
    if mountpoint in disks then disks[mountpoint] else NEW_DISK
  }

  /** All mount points of one report at once. */
  function AddDisks(disks: map<string, DiskAccumulator>, reported: map<string, DiskStats>, receivedAt: Option<int>)
    : map<string, DiskAccumulator>
  {
    map m | m in disks.Keys + reported.Keys ::
      if m in reported then AddDisk(DiskAt(disks, m), reported[m], receivedAt) else disks[m]
  }

  function AddTotals(state: State, network: NetworkStats, receivedAt: Option<int>): State {
    if Supersedes(receivedAt, state.lastTotalsReceivedAt)
    then state.(totalUpload := network.totalUploadBytes, totalDownload := network.totalDownloadBytes,
                lastTotalsReceivedAt := receivedAt)
    else state
  }

  function AddGauges(state: State, report: AgentReport): State {
    state.(
      cpuUsage := state.cpuUsage.Add(report.cpu.usagePercent),
      load1 := state.load1.Add(report.cpu.load1),
      load5 := state.load5.Add(report.cpu.load5),
      load15 := state.load15.Add(report.cpu.load15),
      memoryUsage := state.memoryUsage.Add(UsagePercent(report.memory.usedBytes, report.memory.totalBytes)),
      swapUsage := state.swapUsage.Add(UsagePercent(report.memory.swapUsedBytes, report.memory.swapTotalBytes)))
  }

  function AddRates(state: State, report: AgentReport): State {
    state.(
      diskReadBPS := state.diskReadBPS.Add(report.diskIO.readBytesPerSecond as real),
      diskWriteBPS := state.diskWriteBPS.Add(report.diskIO.writeBytesPerSecond as real),
      uploadBPS := state.uploadBPS.Add(report.network.uploadBytesPerSecond as real),
      downloadBPS := state.downloadBPS.Add(report.network.downloadBytesPerSecond as real))
  }

  /** The whole effect of one report. */
  function AddReport(state: State, report: AgentReport, receivedAt: Option<int>): State {
    var gauged := AddGauges(state, report);
    var withDisks := gauged.(disks := AddDisks(gauged.disks, DisksByMount(report.disks), receivedAt));
    AddTotals(AddRates(withDisks, report), report.network, receivedAt)
  }

  function DiskMinuteOf(mountpoint: string, entry: DiskAccumulator): DiskMinute {
    DiskMinute(mountpoint, entry.usage.ToPair(), entry.totalBytes, entry.usedBytes)
  }

  ghost function DiskMinutes(disks: map<string, DiskAccumulator>): seq<DiskMinute> {
    var listing := Listing(disks.Keys);
    seq(|listing|, i requires 0 <= i < |listing| => DiskMinuteOf(listing[i], disks[listing[i]]))
  }

  ghost function PayloadOf(state: State): MinutePayload {
    MinutePayload(
      state.cpuUsage.ToPair(), state.load1.ToPair(), state.load5.ToPair(), state.load15.ToPair(),
      state.memoryUsage.ToPair(), state.swapUsage.ToPair(), DiskMinutes(state.disks),
      state.diskReadBPS.ToPair(), state.diskWriteBPS.ToPair(), state.uploadBPS.ToPair(), state.downloadBPS.ToPair(),
      state.totalUpload, state.totalDownload)
  }

  class Accumulator {
    var cpuUsage: Numeric
    var load1: Numeric
    var load5: Numeric
    var load15: Numeric
    var memoryUsage: Numeric
    var swapUsage: Numeric
    var disks: map<string, DiskAccumulator>
    var diskReadBPS: Numeric
    var diskWriteBPS: Numeric
    var uploadBPS: Numeric
    var downloadBPS: Numeric
    var totalUpload: uint64
    var totalDownload: uint64
    var lastTotalsReceivedAt: Option<int>

    function Value(): State
      reads this
    {
      State(cpuUsage, load1, load5, load15, memoryUsage, swapUsage, disks,
            diskReadBPS, diskWriteBPS, uploadBPS, downloadBPS, totalUpload, totalDownload, lastTotalsReceivedAt)
    }

    constructor ()
      ensures Value() == EMPTY
    {
      cpuUsage, load1, load5, load15, memoryUsage, swapUsage := ZERO, ZERO, ZERO, ZERO, ZERO, ZERO;
      disks := map[];
      diskReadBPS, diskWriteBPS, uploadBPS, downloadBPS := ZERO, ZERO, ZERO, ZERO;
      totalUpload, totalDownload, lastTotalsReceivedAt := 0, 0, None;
    }

    constructor From(state: State)
      ensures Value() == state
    {
      cpuUsage, load1, load5, load15 := state.cpuUsage, state.load1, state.load5, state.load15;
      memoryUsage, swapUsage, disks := state.memoryUsage, state.swapUsage, state.disks;
      diskReadBPS, diskWriteBPS := state.diskReadBPS, state.diskWriteBPS;
      uploadBPS, downloadBPS := state.uploadBPS, state.downloadBPS;
      totalUpload, totalDownload := state.totalUpload, state.totalDownload;
      lastTotalsReceivedAt := state.lastTotalsReceivedAt;
    }

    method Add(report: AgentReport, receivedAt: Option<int>)
      modifies this
      ensures Value() == AddReport(old(Value()), report, receivedAt)
    {
      SampleGauges(report);
      AddReportedDisks(report.disks, receivedAt);
      SampleRates(report);
      if Supersedes(receivedAt, lastTotalsReceivedAt) {
        totalUpload := report.network.totalUploadBytes;
        totalDownload := report.network.totalDownloadBytes;
        lastTotalsReceivedAt := receivedAt;
      }
    }

    method SampleGauges(report: AgentReport)
      modifies this
      ensures Value() == AddGauges(old(Value()), report)
    {
      cpuUsage := cpuUsage.Add(report.cpu.usagePercent);
      load1 := load1.Add(report.cpu.load1);
      load5 := load5.Add(report.cpu.load5);
      load15 := load15.Add(report.cpu.load15);
      memoryUsage := memoryUsage.Add(UsagePercent(report.memory.usedBytes, report.memory.totalBytes));
      swapUsage := swapUsage.Add(UsagePercent(report.memory.swapUsedBytes, report.memory.swapTotalBytes));
    }

    method SampleRates(report: AgentReport)
      modifies this
      ensures Value() == AddRates(old(Value()), report)
    {
      diskReadBPS := diskReadBPS.Add(report.diskIO.readBytesPerSecond as real);
      diskWriteBPS := diskWriteBPS.Add(report.diskIO.writeBytesPerSecond as real);
      uploadBPS := uploadBPS.Add(report.network.uploadBytesPerSecond as real);
      downloadBPS := downloadBPS.Add(report.network.downloadBytesPerSecond as real);
    }

    /** Duplicate mount points collapse to the last one; the map is then walked in any order. */
    method AddReportedDisks(reported: seq<DiskStats>, receivedAt: Option<int>)
      modifies this`disks
      ensures disks == AddDisks(old(disks), DisksByMount(reported), receivedAt)
    {
      var byMount: map<string, DiskStats> := map[];
      for k := 0 to |reported|
        invariant byMount == DisksByMount(reported[..k])
      {
        assert reported[..k + 1][..k] == reported[..k];
        byMount := byMount[reported[k].mountpoint := reported[k]];
      }
      assert reported[..|reported|] == reported;
      var waiting := byMount.Keys;
      while waiting != {}
        invariant waiting <= byMount.Keys
        invariant disks.Keys == old(disks).Keys + (byMount.Keys - waiting)
        invariant forall m | m in disks ::
          disks[m] == if m in byMount && m !in waiting then AddDisk(DiskAt(old(disks), m), byMount[m], receivedAt)
                      else old(disks)[m]
        decreases waiting
      {
        var m :| m in waiting;
        disks := disks[m := AddDisk(DiskAt(disks, m), byMount[m], receivedAt)];
        waiting := waiting - {m};
      }
    }

    /** The mount points, in whatever order the map yields them. */
    method Mountpoints() returns (mountpoints: seq<string>)
      ensures Distinct(mountpoints)
      ensures forall x :: x in mountpoints <==> x in disks
    {
      mountpoints := [];
      var waiting := disks.Keys;
      while waiting != {}
        invariant waiting <= disks.Keys
        invariant forall x :: x in mountpoints <==> x in disks.Keys && x !in waiting
        invariant Distinct(mountpoints)
        decreases waiting
      {
        var m :| m in waiting;
        mountpoints := mountpoints + [m];
        waiting := waiting - {m};
      }
    }

    method SortedMountpoints() returns (sorted: seq<string>)
      ensures sorted == Listing(disks.Keys)
    {
      var mountpoints := Mountpoints();
      sorted := SortBy(Le, mountpoints);
      SortingLists(mountpoints);
      ListingIsUnique(sorted, Listing(disks.Keys));
    }

    method FinishDisks() returns (diskMinutes: seq<DiskMinute>)
      ensures diskMinutes == DiskMinutes(disks)
    {
      var sorted := SortedMountpoints();
      diskMinutes := [];
      for k := 0 to |sorted|
        invariant |diskMinutes| == k
        invariant forall i | 0 <= i < k :: diskMinutes[i] == DiskMinuteOf(sorted[i], disks[sorted[i]])
      {
        assert sorted[k] in disks;
        diskMinutes := diskMinutes + [DiskMinuteOf(sorted[k], disks[sorted[k]])];
      }
    }

    method Finish(serverId: int, minuteUnix: int) returns (record: MinuteRecord)
      ensures record == MinuteRecord(serverId, minuteUnix, PayloadOf(Value()))
    {
      var diskMinutes := FinishDisks();
      record := MinuteRecord(serverId, minuteUnix, MinutePayload(
        cpuUsage.ToPair(), load1.ToPair(), load5.ToPair(), load15.ToPair(),
        memoryUsage.ToPair(), swapUsage.ToPair(), diskMinutes,
        diskReadBPS.ToPair(), diskWriteBPS.ToPair(), uploadBPS.ToPair(), downloadBPS.ToPair(),
        totalUpload, totalDownload));
    }
  }
}
