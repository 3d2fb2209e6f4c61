/**
 The aggregator and the stored rows, step by step beside the bookkeeping of FlushProtocol: every bucket is the
 fold of the reports it accepted, and every stored row is the record of the version the books say was stored.
 */
module AggregationLaws {
  import opened Wrappers
  import opened Protocol
  import opened HistoryModel
  import opened Aggregation
  import opened AccumulationLaws
  import opened FlushProtocol
  import Accumulation

  datatype Flush =
    | NoFlush
    | GateHeld
    | InProgress(candidates: seq<Candidate>, next: nat, written: Option<bool>)

  datatype System = System(memory: Memory, flush: Flush, rows: map<BucketKey, MinuteRecord>)

  const EMPTY_SYSTEM := System(Memory(map[], 0, map[]), NoFlush, map[])

  ghost function RecordOf(key: BucketKey, arrivals: seq<Arrival>): MinuteRecord {
    MinuteRecord(key.serverId, key.minuteUnix, Accumulation.PayloadOf(Fold(arrivals)))
  }

  // Steps of the real system

  datatype Event =
    | Accept(serverId: int, report: AgentReport, receivedAt: int)
    | RemoveServer(serverId: int)
    | TakeGate
    | TakeSnapshot(minute: int, candidates: seq<Candidate>)
    | UpsertMinute(ok: bool)
    | SettleCandidate
    | ReleaseGate
    | DropRow(key: BucketKey)

  predicate InHand(s: System) {
    s.flush.InProgress? && s.flush.next < |s.flush.candidates|
  }

  function Upserted(s: System, ok: bool): System
    requires InHand(s)
  {
    var c := s.flush.candidates[s.flush.next];
    s.(flush := s.flush.(written := Some(ok)), rows := if ok then s.rows[c.key := c.record] else s.rows)
  }

  function SettledOne(s: System): System
    requires s.memory.Valid() && InHand(s) && s.flush.written.Some?
  {
    s.(memory := Settled(s.memory, s.flush.candidates[s.flush.next], s.flush.written.value),
       flush := s.flush.(next := s.flush.next + 1, written := None))
  }

  ghost predicate Possible(s: System, event: Event) {
    s.memory.Valid() &&
    match event
    case Accept(_, _, _) => true
    case RemoveServer(_) => true
    case TakeGate => s.flush.NoFlush?
    case TakeSnapshot(minute, candidates) => s.flush.GateHeld? && IsSnapshot(s.memory, minute, candidates)
    case UpsertMinute(_) => InHand(s) && s.flush.written.None?
    case SettleCandidate => InHand(s) && s.flush.written.Some?
    case ReleaseGate => s.flush.GateHeld? || (s.flush.InProgress? && s.flush.next == |s.flush.candidates|)
    case DropRow(_) => true
  }

  ghost function After(s: System, event: Event): System
    requires Possible(s, event)
  {
    match event
    case Accept(serverId, report, receivedAt) => s.(memory := Accepted(s.memory, serverId, report, receivedAt))
    case RemoveServer(serverId) => s.(memory := WithoutServer(s.memory, serverId))
    case TakeGate => s.(flush := GateHeld)
    case TakeSnapshot(_, candidates) => s.(flush := InProgress(candidates, 0, None))
    case UpsertMinute(ok) => Upserted(s, ok)
    case SettleCandidate => SettledOne(s)
    case ReleaseGate => s.(flush := NoFlush)
    case DropRow(key) => s.(rows := s.rows - {key})
  }

  // The books kept beside it

  function Plain(candidates: seq<Candidate>): seq<Pending> {
    seq(|candidates|, i requires 0 <= i < |candidates| =>
      Pending(candidates[i].key, Version(candidates[i].bucket, candidates[i].revision)))
  }

  function PhaseOf(flush: Flush): Phase {
    match flush
    case NoFlush => Idle
    case GateHeld => Holding
    case InProgress(candidates, next, written) => Writing(Plain(candidates), next, written)
  }

  /** Buckets hold the folds of what they accepted. */
  ghost predicate HeapMatches(memory: Memory, b: Books) {
    && memory.buckets == b.buckets && memory.next == b.next && memory.heap.Keys == b.accepted.Keys
    && forall id | id in b.accepted :: memory.heap[id] == Bucket(Fold(b.accepted[id]), |b.accepted[id]|)
  }

  ghost predicate MemoryMatches(memory: Memory, b: Books) {
    memory.Valid() && HeapMatches(memory, b)
  }

  ghost predicate IsRecordFor(b: Books, key: BucketKey, version: Version, record: MinuteRecord) {
    && version.bucket in b.accepted && version.count <= |b.accepted[version.bucket]|
    && record == RecordOf(key, b.accepted[version.bucket][..version.count])
  }

  ghost predicate CandidatesMatch(s: System, b: Books) {
    s.flush.InProgress? ==> forall i | s.flush.next <= i < |s.flush.candidates| ::
      var c := s.flush.candidates[i];
      IsRecordFor(b, c.key, Version(c.bucket, c.revision), c.record)
  }

  ghost predicate RowsMatch(s: System, b: Books) {
    forall key | key in s.rows :: key in b.stored && IsRecordFor(b, key, b.stored[key], s.rows[key])
  }

  ghost predicate Matches(s: System, b: Books) {
    MemoryMatches(s.memory, b) && b.phase == PhaseOf(s.flush) && CandidatesMatch(s, b) && RowsMatch(s, b)
  }

  // Reports

  lemma FoldStep(arrivals: seq<Arrival>, arrival: Arrival)
    ensures Fold(arrivals + [arrival]) == Accumulation.AddReport(Fold(arrivals), arrival.report, Some(arrival.at))
  {
    assert (arrivals + [arrival])[..|arrivals|] == arrivals;
  }

  lemma BumpIsFold(arrivals: seq<Arrival>, arrival: Arrival)
    ensures Bump(Bucket(Fold(arrivals), |arrivals|), arrival.report, arrival.at)
      == Bucket(Fold(arrivals + [arrival]), |arrivals + [arrival]|)
  {
    FoldStep(arrivals, arrival);
  }

  lemma JoinMatchesMemory(memory: Memory, b: Books, key: BucketKey, arrival: Arrival, bucket: Bucket)
    requires HeapMatches(memory, b) && key in b.buckets && b.buckets[key] in b.accepted
    requires var all := b.accepted[b.buckets[key]] + [arrival]; bucket == Bucket(Fold(all), |all|)
    ensures HeapMatches(Put(memory, key, bucket), Join(b, key, arrival))
  {
  }

  lemma OpenMatchesMemory(memory: Memory, b: Books, key: BucketKey, arrival: Arrival, bucket: Bucket)
    requires HeapMatches(memory, b) && key !in b.buckets
    requires bucket == Bucket(Fold([arrival]), 1)
    ensures HeapMatches(Put(memory, key, bucket), Open(b, key, arrival))
  {
  }

  lemma PutKeepsValid(memory: Memory, key: BucketKey, bucket: Bucket)
    requires memory.Valid()
    ensures Put(memory, key, bucket).Valid()
  {
  }

  lemma AcceptMatchesMemory(memory: Memory, b: Books, serverId: int, report: AgentReport, receivedAt: int)
    requires MemoryMatches(memory, b)
    ensures MemoryMatches(Accepted(memory, serverId, report, receivedAt),
                          Report(b, KeyFor(serverId, receivedAt), Arrival(report, receivedAt)))
  {
    var key, arrival := KeyFor(serverId, receivedAt), Arrival(report, receivedAt);
    var bucket := Bump(Entry(memory, key), report, receivedAt);
    PutKeepsValid(memory, key, bucket);
    if key in b.buckets {
      BumpIsFold(b.accepted[b.buckets[key]], arrival);
      JoinMatchesMemory(memory, b, key, arrival, bucket);
    } else {
      BumpIsFold([], arrival);
      assert [] + [arrival] == [arrival];
      OpenMatchesMemory(memory, b, key, arrival, bucket);
    }
  }

  /** Reports only ever extend a bucket, so a version keeps its record. */
  lemma ReportKeepsRecords(b: Books, key: BucketKey, arrival: Arrival, k: BucketKey, version: Version,
                           record: MinuteRecord)
    requires Allocated(b) && IsRecordFor(b, k, version, record)
    ensures IsRecordFor(Report(b, key, arrival), k, version, record)
  {
    var t := Report(b, key, arrival);
    assert t.accepted[version.bucket][..version.count] == b.accepted[version.bucket][..version.count];
  }

  lemma AcceptMatches(s: System, b: Books, serverId: int, report: AgentReport, receivedAt: int)
    requires Matches(s, b) && Inv(b)
    ensures Matches(s.(memory := Accepted(s.memory, serverId, report, receivedAt)),
                    Report(b, KeyFor(serverId, receivedAt), Arrival(report, receivedAt)))
  {
    var key, arrival := KeyFor(serverId, receivedAt), Arrival(report, receivedAt);
    AcceptMatchesMemory(s.memory, b, serverId, report, receivedAt);
    RecordsSurviveReport(s, b, key, arrival);
  }

  lemma RecordsSurviveReport(s: System, b: Books, key: BucketKey, arrival: Arrival)
    requires Allocated(b) && CandidatesMatch(s, b) && RowsMatch(s, b)
    ensures CandidatesMatch(s, Report(b, key, arrival)) && RowsMatch(s, Report(b, key, arrival))
  {
    forall k, version, record | IsRecordFor(b, k, version, record)
      ensures IsRecordFor(Report(b, key, arrival), k, version, record)
    {
      ReportKeepsRecords(b, key, arrival, k, version, record);
    }
  }

  // Removals and flushes

  lemma RemoveMatches(s: System, b: Books, serverId: int)
    requires Matches(s, b)
    ensures Matches(s.(memory := WithoutServer(s.memory, serverId)), Remove(b, serverId))
  {
    var t := Remove(b, serverId);
    assert WithoutServer(s.memory, serverId).buckets == t.buckets;
    forall k, version, record | IsRecordFor(b, k, version, record)
      ensures IsRecordFor(t, k, version, record)
    {
    }
  }

  /** A candidate taken now is the record of everything its bucket has accepted. */
  lemma CandidateMatches(s: System, b: Books, c: Candidate)
    requires MemoryMatches(s.memory, b) && c.key in s.memory.buckets && c == CandidateFor(s.memory, c.key)
    ensures c.key in b.buckets && b.buckets[c.key] == c.bucket && c.bucket in b.accepted
    ensures c.revision == |b.accepted[c.bucket]|
    ensures IsRecordFor(b, c.key, Version(c.bucket, c.revision), c.record)
  {
    var id := b.buckets[c.key];
    assert b.accepted[id][..|b.accepted[id]|] == b.accepted[id];
  }

  lemma SnapshotMatches(s: System, b: Books, minute: int, candidates: seq<Candidate>)
    requires Matches(s, b) && s.flush.GateHeld? && IsSnapshot(s.memory, minute, candidates)
    ensures IsTaken(b, Plain(candidates))
    ensures Matches(s.(flush := InProgress(candidates, 0, None)), b.(phase := Writing(Plain(candidates), 0, None)))
  {
    var t := b.(phase := Writing(Plain(candidates), 0, None));
    forall k, version, record | IsRecordFor(b, k, version, record)
      ensures IsRecordFor(t, k, version, record)
    {
    }
    forall i | 0 <= i < |candidates|
      ensures var c := candidates[i];
        && c.key in b.buckets && b.buckets[c.key] == c.bucket && c.bucket in b.accepted
        && c.revision == |b.accepted[c.bucket]|
        && IsRecordFor(t, c.key, Version(c.bucket, c.revision), c.record)
    {
      CandidateMatches(s, b, candidates[i]);
    }
  }

  lemma UpsertMatches(s: System, b: Books, ok: bool)
    requires Matches(s, b) && InHand(s) && s.flush.written.None?
    ensures AtHand(b) && b.phase.written.None?
    ensures Matches(Upserted(s, ok), Write(b, ok))
  {
    var t := Write(b, ok);
    forall k, version, record | IsRecordFor(b, k, version, record)
      ensures IsRecordFor(t, k, version, record)
    {
    }
  }

  lemma SettleMatchesMemory(memory: Memory, b: Books, c: Candidate)
    requires MemoryMatches(memory, b) && AtHand(b) && b.phase.written.Some?
    requires Current(b) == Pending(c.key, Version(c.bucket, c.revision))
    ensures MemoryMatches(Settled(memory, c, b.phase.written.value), Settle(b))
  {
    assert IsComplete(b) <==> IsCurrent(memory, c) && memory.heap[c.bucket].revision == c.revision;
  }

  lemma SettleKeepsRecords(s: System, b: Books)
    requires CandidatesMatch(s, b) && RowsMatch(s, b) && AtHand(b) && b.phase.written.Some?
    ensures CandidatesMatch(s, Settle(b)) && RowsMatch(s, Settle(b))
  {
    forall k, version, record | IsRecordFor(b, k, version, record)
      ensures IsRecordFor(Settle(b), k, version, record)
    {
    }
  }

  lemma HandsMatch(s: System, b: Books)
    requires b.phase == PhaseOf(s.flush) && InHand(s)
    ensures AtHand(b) && b.phase.written == s.flush.written && b.phase.next == s.flush.next
    ensures b.phase.pending == Plain(s.flush.candidates)
    ensures var c := s.flush.candidates[s.flush.next];
      Current(b) == Pending(c.key, Version(c.bucket, c.revision))
  {
  }

  lemma SettleMatches(s: System, b: Books)
    requires Matches(s, b) && InHand(s) && s.flush.written.Some?
    ensures AtHand(b) && b.phase.written.Some?
    ensures Matches(SettledOne(s), Settle(b))
  {
    HandsMatch(s, b);
    SettleInHandMatches(s, b, s.flush.candidates[s.flush.next]);
  }

  lemma SettleInHandMatches(s: System, b: Books, c: Candidate)
    requires MemoryMatches(s.memory, b) && CandidatesMatch(s, b) && RowsMatch(s, b) && AtHand(b)
    requires InHand(s) && s.flush.written.Some? && c == s.flush.candidates[s.flush.next]
    requires b.phase == Writing(Plain(s.flush.candidates), s.flush.next, s.flush.written)
    requires Current(b) == Pending(c.key, Version(c.bucket, c.revision))
    ensures Matches(SettledOne(s), Settle(b))
  {
    SettleMatchesMemory(s.memory, b, c);
    SettleKeepsRecords(s, b);
    SettlePhase(b);
    MatchesAfterSettle(s, Settled(s.memory, c, s.flush.written.value), Settle(b));
  }

  lemma SettlePhase(b: Books)
    requires AtHand(b) && b.phase.written.Some?
    ensures Settle(b).phase == Writing(b.phase.pending, b.phase.next + 1, None)
  {
  }

  lemma MatchesAfterSettle(s: System, memory: Memory, b: Books)
    requires s.flush.InProgress? && s.flush.next < |s.flush.candidates|
    requires MemoryMatches(memory, b) && CandidatesMatch(s, b) && RowsMatch(s, b)
    requires b.phase == Writing(Plain(s.flush.candidates), s.flush.next + 1, None)
    ensures Matches(s.(memory := memory, flush := s.flush.(next := s.flush.next + 1, written := None)), b)
  {
  }

  // Every step

  function Recorded(event: Event): Option<Step> {
    match event
    case Accept(serverId, report, receivedAt) =>
      Some(DoReport(KeyFor(serverId, receivedAt), Arrival(report, receivedAt)))
    case RemoveServer(serverId) => Some(DoRemove(serverId))
    case TakeGate => Some(DoTakeGate)
    case TakeSnapshot(_, candidates) => Some(DoSnapshot(Plain(candidates)))
    case UpsertMinute(ok) => Some(DoWrite(ok))
    case SettleCandidate => Some(DoSettle)
    case ReleaseGate => Some(DoReleaseGate)
    case DropRow(_) => None
  }

  /** An event of the system is a step of the books, which stay in agreement; dropping a row is none. */
  lemma EventMatches(s: System, b: Books, event: Event)
    requires Matches(s, b) && Inv(b) && Possible(s, event)
    ensures Recorded(event).Some? ==>
      Enabled(b, Recorded(event).value) && Matches(After(s, event), Next(b, Recorded(event).value))
    ensures Recorded(event).None? ==> Matches(After(s, event), b)
  {
    match event
    case Accept(serverId, report, receivedAt) => AcceptMatches(s, b, serverId, report, receivedAt);
    case RemoveServer(serverId) => RemoveMatches(s, b, serverId);
    case TakeGate => PhaseMatches(s, b, GateHeld);
    case TakeSnapshot(minute, candidates) => SnapshotMatches(s, b, minute, candidates);
    case UpsertMinute(ok) => UpsertMatches(s, b, ok);
    case SettleCandidate => SettleMatches(s, b);
    case ReleaseGate => PhaseMatches(s, b, NoFlush);
    case DropRow(_) =>
  }

  lemma PhaseMatches(s: System, b: Books, flush: Flush)
    requires Matches(s, b) && !flush.InProgress?
    ensures Matches(s.(flush := flush), b.(phase := PhaseOf(flush)))
  {
    forall k, version, record | IsRecordFor(b, k, version, record)
      ensures IsRecordFor(b.(phase := PhaseOf(flush)), k, version, record)
    {
    }
  }
}
