/** What a finished minute says about the reports that went into it, whatever their order of arrival. */
module AccumulationLaws {
  import opened Wrappers
  import opened Protocol
  import opened HistoryModel
  import opened StringOrder
  import opened Accumulation
  import opened Folding

  datatype Arrival = Arrival(report: AgentReport, at: int)

  /** The accumulator after a sequence of ordered reports. */
  function Fold(arrivals: seq<Arrival>): State {
    if arrivals == [] then EMPTY
    else
      var n := |arrivals| - 1;
      AddReport(Fold(arrivals[..n]), arrivals[n].report, Some(arrivals[n].at))
  }

  // Gauges and rates

  datatype Metric =
    | CpuUsage | Load1 | Load5 | Load15 | MemoryUsage | SwapUsage
    | DiskReadBPS | DiskWriteBPS | UploadBPS | DownloadBPS

  function Sample(metric: Metric, report: AgentReport): real {
    match metric
    case CpuUsage => report.cpu.usagePercent
    case Load1 => report.cpu.load1
    case Load5 => report.cpu.load5
    case Load15 => report.cpu.load15
    case MemoryUsage => UsagePercent(report.memory.usedBytes, report.memory.totalBytes)
    case SwapUsage => UsagePercent(report.memory.swapUsedBytes, report.memory.swapTotalBytes)
    case DiskReadBPS => report.diskIO.readBytesPerSecond as real
    case DiskWriteBPS => report.diskIO.writeBytesPerSecond as real
    case UploadBPS => report.network.uploadBytesPerSecond as real
    case DownloadBPS => report.network.downloadBytesPerSecond as real
  }

  function NumericOf(metric: Metric, state: State): Numeric {
    match metric
    case CpuUsage => state.cpuUsage
    case Load1 => state.load1
    case Load5 => state.load5
    case Load15 => state.load15
    case MemoryUsage => state.memoryUsage
    case SwapUsage => state.swapUsage
    case DiskReadBPS => state.diskReadBPS
    case DiskWriteBPS => state.diskWriteBPS
    case UploadBPS => state.uploadBPS
    case DownloadBPS => state.downloadBPS
  }

  function PairIn(metric: Metric, payload: MinutePayload): Pair {
    match metric
    case CpuUsage => payload.cpuUsage
    case Load1 => payload.load1
    case Load5 => payload.load5
    case Load15 => payload.load15
    case MemoryUsage => payload.memoryUsage
    case SwapUsage => payload.swapUsage
    case DiskReadBPS => payload.diskReadBps
    case DiskWriteBPS => payload.diskWriteBps
    case UploadBPS => payload.uploadBps
    case DownloadBPS => payload.downloadBps
  }

  function Samples(metric: Metric, arrivals: seq<Arrival>): seq<real> {
    seq(|arrivals|, i requires 0 <= i < |arrivals| => Sample(metric, arrivals[i].report))
  }

  function Sum(samples: seq<real>): real {
    if samples == [] then 0.0 else Sum(samples[..|samples| - 1]) + samples[|samples| - 1]
  }

  /** The mean and the largest of the samples; zeros when there are none. */
  ghost predicate IsPairOf(samples: seq<real>, pair: Pair) {
    if samples == [] then pair == Pair(0.0, 0.0)
    else
      && pair.average * |samples| as real == Sum(samples)
      && pair.maximum in samples
      && forall i | 0 <= i < |samples| :: samples[i] <= pair.maximum
  }

  /** A running numeric is the sum and maximum of its samples. */
  ghost predicate Tallies(numeric: Numeric, samples: seq<real>) {
    && numeric.count == |samples|
    && numeric.sum == Sum(samples)
    && (samples == [] ==> numeric == ZERO)
    && (samples != [] ==> numeric.max in samples && forall i | 0 <= i < |samples| :: samples[i] <= numeric.max)
  }

  lemma TallyStep(numeric: Numeric, samples: seq<real>, value: real)
    requires Tallies(numeric, samples)
    ensures Tallies(numeric.Add(value), samples + [value])
  {
    var all := samples + [value];
    assert all[..|all| - 1] == samples;
    assert all[|samples|] == value;
    if samples != [] {
      var i :| 0 <= i < |samples| && samples[i] == numeric.max;
      assert all[i] == numeric.max;
    }
  }

  lemma TallyPair(numeric: Numeric, samples: seq<real>)
    requires Tallies(numeric, samples)
    ensures IsPairOf(samples, numeric.ToPair())
  {
  }

  lemma {:induction false} FoldTallies(metric: Metric, arrivals: seq<Arrival>)
    ensures Tallies(NumericOf(metric, Fold(arrivals)), Samples(metric, arrivals))
  {
    if arrivals != [] {
      var n := |arrivals| - 1;
      FoldTallies(metric, arrivals[..n]);
      AddReportSamples(metric, Fold(arrivals[..n]), arrivals[n]);
      TallyStep(NumericOf(metric, Fold(arrivals[..n])), Samples(metric, arrivals[..n]),
                Sample(metric, arrivals[n].report));
      assert Samples(metric, arrivals) == Samples(metric, arrivals[..n]) + [Sample(metric, arrivals[n].report)];
    }
  }

  lemma AddReportSamples(metric: Metric, state: State, arrival: Arrival)
    ensures NumericOf(metric, AddReport(state, arrival.report, Some(arrival.at)))
      == NumericOf(metric, state).Add(Sample(metric, arrival.report))
  {
  }

  /** Every gauge and rate of a finished minute is the mean and maximum of one sample per report. */
  lemma GaugesAreMeansAndMaxima(arrivals: seq<Arrival>, metric: Metric)
    ensures IsPairOf(Samples(metric, arrivals), PairIn(metric, PayloadOf(Fold(arrivals))))
  {
    FoldTallies(metric, arrivals);
    TallyPair(NumericOf(metric, Fold(arrivals)), Samples(metric, arrivals));
  }

  // Latest values

  /** Index w holds the greatest receipt time, and among equal ones the last. */
  ghost predicate IsLatest(times: seq<int>, w: int) {
    && 0 <= w < |times|
    && (forall i | 0 <= i < |times| :: times[i] <= times[w])
    && (forall i | w < i < |times| :: times[i] < times[w])
  }

  lemma LatestStep(times: seq<int>, w: int, t: int)
    requires IsLatest(times, w)
    ensures IsLatest(times + [t], if t >= times[w] then |times| else w)
  {
  }

  function Times(arrivals: seq<Arrival>): seq<int> {
    seq(|arrivals|, i requires 0 <= i < |arrivals| => arrivals[i].at)
  }

  ghost predicate HoldsTotalsOf(state: State, arrivals: seq<Arrival>, w: int)
    requires 0 <= w < |arrivals|
  {
    && state.lastTotalsReceivedAt == Some(arrivals[w].at)
    && state.totalUpload == arrivals[w].report.network.totalUploadBytes
    && state.totalDownload == arrivals[w].report.network.totalDownloadBytes
  }

  /** The traffic totals of a minute come from the report received last, ties going to the later arrival. */
  lemma {:induction false} TotalsAreLatest(arrivals: seq<Arrival>) returns (w: int)
    requires arrivals != []
    ensures IsLatest(Times(arrivals), w)
    ensures HoldsTotalsOf(Fold(arrivals), arrivals, w)
    ensures
      var payload, network := PayloadOf(Fold(arrivals)), arrivals[w].report.network;
      payload.totalUpload == network.totalUploadBytes && payload.totalDownload == network.totalDownloadBytes
  {
    var n := |arrivals| - 1;
    if n == 0 {
      w := 0;
      assert Fold(arrivals[..0]) == EMPTY;
    } else {
      var v := TotalsAreLatest(arrivals[..n]);
      LatestStep(Times(arrivals[..n]), v, arrivals[n].at);
      assert Times(arrivals) == Times(arrivals[..n]) + [arrivals[n].at];
      w := if arrivals[n].at >= arrivals[v].at then n else v;
    }
  }

  /** A report without a receipt time brings the totals, and so does whatever comes after it. */
  lemma UnorderedTotalsYield(state: State, report: AgentReport, next: AgentReport, receivedAt: Option<int>)
    ensures
      var first := AddReport(state, report, None);
      var second := AddReport(first, next, receivedAt);
      && first.totalUpload == report.network.totalUploadBytes
      && first.totalDownload == report.network.totalDownloadBytes
      && second.totalUpload == next.network.totalUploadBytes
      && second.totalDownload == next.network.totalDownloadBytes
  {
  }

  /** Percentages are exact, and nothing of nothing is none. */
  lemma UsageIsPercentage(used: uint64, total: uint64)
    ensures total == 0 ==> UsagePercent(used, total) == 0.0
    ensures total != 0 ==> UsagePercent(used, total) * total as real == used as real * 100.0
  {
    if total != 0 {
      var ratio := used as real / total as real;
      assert ratio * total as real == used as real;
    }
  }

  // Disks

  datatype Mention = Mention(disk: DiskStats, at: int)

  /** The last entry of a report for a mount point counts, the others do not. */
  lemma {:induction false} LastDuplicateWins(disks: seq<DiskStats>, m: string)
    ensures m in DisksByMount(disks) <==> exists k :: 0 <= k < |disks| && disks[k].mountpoint == m
    ensures forall k |
      0 <= k < |disks| && disks[k].mountpoint == m && (forall j | k < j < |disks| :: disks[j].mountpoint != m) ::
        m in DisksByMount(disks) && DisksByMount(disks)[m] == disks[k]
  {
    if disks != [] {
      var n := |disks| - 1;
      LastDuplicateWins(disks[..n], m);
      forall k |
        0 <= k < |disks| && disks[k].mountpoint == m && (forall j | k < j < |disks| :: disks[j].mountpoint != m)
        ensures m in DisksByMount(disks) && DisksByMount(disks)[m] == disks[k]
      {
        if k < n {
          assert disks[..n][k] == disks[k];
        }
      }
      if m in DisksByMount(disks[..n]) {
        var k :| 0 <= k < n && disks[..n][k].mountpoint == m;
        assert disks[k].mountpoint == m;
      }
    }
  }

  /** The reports that list a mount point, each with its counting entry. */
  function Mentions(m: string, arrivals: seq<Arrival>): seq<Mention> {
    if arrivals == [] then []
    else
      var n := |arrivals| - 1;
      var reported := DisksByMount(arrivals[n].report.disks);
      Mentions(m, arrivals[..n]) + if m in reported then [Mention(reported[m], arrivals[n].at)] else []
  }

  function Usages(mentions: seq<Mention>): seq<real> {
    seq(|mentions|, i requires 0 <= i < |mentions| =>
      UsagePercent(mentions[i].disk.usedBytes, mentions[i].disk.totalBytes))
  }

  function MentionTimes(mentions: seq<Mention>): seq<int> {
    seq(|mentions|, i requires 0 <= i < |mentions| => mentions[i].at)
  }

  /** A disk's accumulator holds one usage sample per mention and the byte counts of the latest one. */
  ghost predicate Accumulates(entry: DiskAccumulator, mentions: seq<Mention>, w: int) {
    && IsLatest(MentionTimes(mentions), w)
    && Tallies(entry.usage, Usages(mentions))
    && entry.totalBytes == mentions[w].disk.totalBytes
    && entry.usedBytes == mentions[w].disk.usedBytes
    && entry.lastReceivedAt == Some(mentions[w].at)
  }

  lemma FirstMention(mention: Mention)
    ensures Accumulates(AddDisk(NEW_DISK, mention.disk, Some(mention.at)), [mention], 0)
  {
    TallyStep(ZERO, [], Usages([mention])[0]);
    assert Usages([mention]) == [] + [Usages([mention])[0]];
  }

  lemma NextMention(entry: DiskAccumulator, mentions: seq<Mention>, w: int, mention: Mention)
    requires Accumulates(entry, mentions, w)
    ensures Accumulates(AddDisk(entry, mention.disk, Some(mention.at)), mentions + [mention],
                        if mention.at >= mentions[w].at then |mentions| else w)
  {
    var all := mentions + [mention];
    TallyStep(entry.usage, Usages(mentions), Usages(all)[|mentions|]);
    assert Usages(all) == Usages(mentions) + [Usages(all)[|mentions|]];
    LatestStep(MentionTimes(mentions), w, mention.at);
    assert MentionTimes(all) == MentionTimes(mentions) + [mention.at];
  }

  lemma {:induction false} DisksAccumulate(m: string, arrivals: seq<Arrival>) returns (w: int)
    ensures m in Fold(arrivals).disks <==> Mentions(m, arrivals) != []
    ensures m in Fold(arrivals).disks ==> Accumulates(Fold(arrivals).disks[m], Mentions(m, arrivals), w)
  {
    w := 0;
    if arrivals != [] {
      var n := |arrivals| - 1;
      var before, mentions := Fold(arrivals[..n]), Mentions(m, arrivals[..n]);
      var reported := DisksByMount(arrivals[n].report.disks);
      var v := DisksAccumulate(m, arrivals[..n]);
      w := v;
      if m in reported {
        var mention := Mention(reported[m], arrivals[n].at);
        if m in before.disks {
          NextMention(before.disks[m], mentions, v, mention);
          w := if mention.at >= mentions[v].at then |mentions| else v;
        } else {
          FirstMention(mention);
          assert Mentions(m, arrivals) == [mention];
          w := 0;
        }
      } else {
        assert Mentions(m, arrivals) == mentions;
      }
    }
  }

  /** The disks of a finished minute: strictly ascending mount points, each mentioned one exactly once. */
  lemma DisksAreListedOnce(arrivals: seq<Arrival>, m: string)
    ensures var disks := PayloadOf(Fold(arrivals)).disks;
      && (forall i, j | 0 <= i < j < |disks| :: Lt(disks[i].mountpoint, disks[j].mountpoint))
      && ((exists i :: 0 <= i < |disks| && disks[i].mountpoint == m) <==> Mentions(m, arrivals) != [])
  {
    var w := DisksAccumulate(m, arrivals);
    var state := Fold(arrivals);
    var listing, disks := Listing(state.disks.Keys), PayloadOf(state).disks;
    if m in state.disks {
      var i :| 0 <= i < |listing| && listing[i] == m;
      assert disks[i].mountpoint == m;
    }
  }

  /** ... with one usage sample per mentioning report and the byte counts of the latest mention. */
  lemma DisksAreMeansAndLatest(arrivals: seq<Arrival>, i: nat) returns (w: int)
    requires i < |PayloadOf(Fold(arrivals)).disks|
    ensures var disk := PayloadOf(Fold(arrivals)).disks[i];
      var mentions := Mentions(disk.mountpoint, arrivals);
      && IsPairOf(Usages(mentions), disk.usage)
      && IsLatest(MentionTimes(mentions), w)
      && disk.totalBytes == mentions[w].disk.totalBytes
      && disk.usedBytes == mentions[w].disk.usedBytes
  {
    var state := Fold(arrivals);
    var m := Listing(state.disks.Keys)[i];
    w := DisksAccumulate(m, arrivals);
    assert m in state.disks;
    TallyPair(state.disks[m].usage, Usages(Mentions(m, arrivals)));
  }

  // Order of arrival

  lemma NumericCommutes(numeric: Numeric, a: real, b: real)
    ensures numeric.Add(a).Add(b) == numeric.Add(b).Add(a)
  {
  }

  lemma DiskCommutes(entry: DiskAccumulator, x: DiskStats, xAt: int, y: DiskStats, yAt: int)
    requires xAt != yAt
    ensures AddDisk(AddDisk(entry, x, Some(xAt)), y, Some(yAt)) == AddDisk(AddDisk(entry, y, Some(yAt)), x, Some(xAt))
  {
    NumericCommutes(entry.usage, UsagePercent(x.usedBytes, x.totalBytes), UsagePercent(y.usedBytes, y.totalBytes));
  }

  lemma DisksCommute(disks: map<string, DiskAccumulator>, x: map<string, DiskStats>, xAt: int,
                     y: map<string, DiskStats>, yAt: int)
    requires xAt != yAt
    ensures AddDisks(AddDisks(disks, x, Some(xAt)), y, Some(yAt))
            == AddDisks(AddDisks(disks, y, Some(yAt)), x, Some(xAt))
  {
    forall m | m in x && m in y
      ensures AddDisk(AddDisk(DiskAt(disks, m), x[m], Some(xAt)), y[m], Some(yAt))
        == AddDisk(AddDisk(DiskAt(disks, m), y[m], Some(yAt)), x[m], Some(xAt))
    {
      DiskCommutes(DiskAt(disks, m), x[m], xAt, y[m], yAt);
    }
  }

  lemma ReportsCommute(state: State, x: Arrival, y: Arrival)
    requires x.at != y.at
    ensures AddReport(AddReport(state, x.report, Some(x.at)), y.report, Some(y.at))
      == AddReport(AddReport(state, y.report, Some(y.at)), x.report, Some(x.at))
  {
    var xy := AddReport(AddReport(state, x.report, Some(x.at)), y.report, Some(y.at));
    var yx := AddReport(AddReport(state, y.report, Some(y.at)), x.report, Some(x.at));
    DisksCommute(state.disks, DisksByMount(x.report.disks), x.at, DisksByMount(y.report.disks), y.at);
    forall metric: Metric
      ensures NumericOf(metric, xy) == NumericOf(metric, yx)
    {
      NumericCommutes(NumericOf(metric, state), Sample(metric, x.report), Sample(metric, y.report));
      AddReportSamples(metric, state, x);
      AddReportSamples(metric, state, y);
      AddReportSamples(metric, AddReport(state, x.report, Some(x.at)), y);
      AddReportSamples(metric, AddReport(state, y.report, Some(y.at)), x);
    }
    SameNumerics(xy, yx);
  }

  lemma SameNumerics(a: State, b: State)
    requires forall metric: Metric :: NumericOf(metric, a) == NumericOf(metric, b)
    ensures a.cpuUsage == b.cpuUsage && a.load1 == b.load1 && a.load5 == b.load5 && a.load15 == b.load15
    ensures a.memoryUsage == b.memoryUsage && a.swapUsage == b.swapUsage
    ensures a.diskReadBPS == b.diskReadBPS && a.diskWriteBPS == b.diskWriteBPS
    ensures a.uploadBPS == b.uploadBPS && a.downloadBPS == b.downloadBPS
  {
    assert NumericOf(CpuUsage, a) == NumericOf(CpuUsage, b);
    assert NumericOf(Load1, a) == NumericOf(Load1, b);
    assert NumericOf(Load5, a) == NumericOf(Load5, b);
    assert NumericOf(Load15, a) == NumericOf(Load15, b);
    assert NumericOf(MemoryUsage, a) == NumericOf(MemoryUsage, b);
    assert NumericOf(SwapUsage, a) == NumericOf(SwapUsage, b);
    assert NumericOf(DiskReadBPS, a) == NumericOf(DiskReadBPS, b);
    assert NumericOf(DiskWriteBPS, a) == NumericOf(DiskWriteBPS, b);
    assert NumericOf(UploadBPS, a) == NumericOf(UploadBPS, b);
    assert NumericOf(DownloadBPS, a) == NumericOf(DownloadBPS, b);
  }

  ghost predicate DistinctTimes(arrivals: seq<Arrival>) {
    forall i, j | 0 <= i < j < |arrivals| :: arrivals[i].at != arrivals[j].at
  }

  function Step(): (State, Arrival) -> State {
    (state: State, arrival: Arrival) => AddReport(state, arrival.report, Some(arrival.at))
  }

  lemma {:induction false} FoldIsFoldLeft(arrivals: seq<Arrival>)
    ensures Fold(arrivals) == FoldLeft(Step(), EMPTY, arrivals)
  {
    if arrivals != [] {
      FoldIsFoldLeft(arrivals[..|arrivals| - 1]);
    }
  }

  predicate Apart(x: Arrival, y: Arrival) {
    x.at != y.at
  }

  /** With distinct receipt times the finished minute does not depend on the order of arrival. */
  lemma OrderDoesNotMatter(a: seq<Arrival>, b: seq<Arrival>)
    requires multiset(a) == multiset(b)
    requires DistinctTimes(a) && DistinctTimes(b)
    ensures PayloadOf(Fold(a)) == PayloadOf(Fold(b))
  {
    forall state, x, y | Apart(x, y)
      ensures Step()(Step()(state, x), y) == Step()(Step()(state, y), x)
    {
      ReportsCommute(state, x, y);
    }
    FoldIsFoldLeft(a);
    FoldIsFoldLeft(b);
    FoldPermutes(Step(), EMPTY, a, b, Apart);
  }
}
