/** What a flush selects, writes, removes and leaves, in server numbers, minutes and times. */
module FlushLaws {
  import opened Wrappers
  import opened HistoryModel
  import opened Folding
  import opened Aggregation
  import opened AggregationRuns
  import Accumulation

  /** A report counts for the whole minute in which it was received. */
  lemma ReportFallsIntoMinute(serverId: int, receivedAt: int, key: BucketKey)
    ensures KeyFor(serverId, receivedAt) == key <==>
      && key.serverId == serverId && key.minuteUnix % 60 == 0
      && key.minuteUnix * 1_000_000_000 <= receivedAt < (key.minuteUnix + 60) * 1_000_000_000
  {
    var q := receivedAt / 60_000_000_000;
    assert receivedAt == q * 60_000_000_000 + receivedAt % 60_000_000_000;
    if key.minuteUnix % 60 == 0 {
      assert key.minuteUnix == key.minuteUnix / 60 * 60;
    }
  }

  /** Every bucket whose minute starts before the limit is a candidate, and no other. */
  lemma CandidatesExactly(memory: Memory, minute: int, candidates: seq<Candidate>, key: BucketKey)
    requires memory.Valid() && IsSnapshot(memory, minute, candidates)
    ensures (exists i :: 0 <= i < |candidates| && candidates[i].key == key)
      <==> key in memory.buckets && key.minuteUnix * 1_000_000_000 < minute
  {
  }

  /** Candidates come by server, then by minute, each with its bucket as it is. */
  lemma CandidatesInOrder(memory: Memory, minute: int, candidates: seq<Candidate>, i: nat, j: nat)
    requires memory.Valid() && IsSnapshot(memory, minute, candidates) && i < |candidates| && j < |candidates|
    ensures i < j ==>
      var k, l := candidates[i].key, candidates[j].key;
      k.serverId < l.serverId || (k.serverId == l.serverId && k.minuteUnix < l.minuteUnix)
    ensures
      var c := candidates[i];
      && c.key in memory.buckets && memory.buckets[c.key] == c.bucket && c.bucket in memory.heap
      && c.revision == memory.heap[c.bucket].revision
      && c.record.serverId == c.key.serverId && c.record.minuteUnix == c.key.minuteUnix
      && c.record.payload == Accumulation.PayloadOf(memory.heap[c.bucket].accumulator)
  {
  }

  /** The key's candidate is among the first n, and was written. */
  predicate WasWritten(candidates: seq<Candidate>, writes: seq<bool>, n: nat, key: BucketKey) {
    exists i :: 0 <= i < n && i < |candidates| && i < |writes| && candidates[i].key == key && writes[i]
  }

  /** The key's candidate is the first that was not written. */
  predicate FailsAt(candidates: seq<Candidate>, writes: seq<bool>, i: int, key: BucketKey) {
    && 0 <= i < |candidates| && candidates[i].key == key && !(i < |writes| && writes[i])
    && forall j | 0 <= j < i :: j < |writes| && writes[j]
  }

  predicate FailsFirst(candidates: seq<Candidate>, writes: seq<bool>, n: nat, key: BucketKey) {
    exists i :: 0 <= i < n && FailsAt(candidates, writes, i, key)
  }

  lemma PlannedGrows(memory: Memory, candidates: seq<Candidate>, writes: seq<bool>, n: nat)
    requires n < |candidates|
    ensures
      var before, settling := Planned(candidates, writes, n), Settling(candidates[n], n < |writes| && writes[n]);
      && Replay(memory, Planned(candidates, writes, n + 1)) == Acted(Replay(memory, before), settling)
      && FirstFailure(memory, Planned(candidates, writes, n + 1)) ==
           if FirstFailure(memory, before).None? && Fails(Replay(memory, before), settling) then Some(candidates[n].key)
           else FirstFailure(memory, before)
  {
    assert Planned(candidates, writes, n + 1)[..n] == Planned(candidates, writes, n);
  }

  /** The written ones among the first n candidates are gone. */
  ghost predicate IsRest(after: Memory, memory: Memory, candidates: seq<Candidate>, writes: seq<bool>, n: nat) {
    && after.heap == memory.heap && after.Valid()
    && (forall key :: key in after.buckets <==> key in memory.buckets && !WasWritten(candidates, writes, n, key))
    && (forall key | key in after.buckets :: after.buckets[key] == memory.buckets[key])
  }

  lemma RestShrinks(after: Memory, memory: Memory, candidates: seq<Candidate>, writes: seq<bool>, n: nat)
    requires n < |candidates| && IsRest(after, memory, candidates, writes, n)
    requires IsCurrent(after, candidates[n]) && after.heap[candidates[n].bucket].revision == candidates[n].revision
    ensures IsRest(Acted(after, Settling(candidates[n], n < |writes| && writes[n])), memory, candidates, writes, n + 1)
  {
    WrittenGrows(candidates, writes, n);
  }

  lemma NextIsCurrent(after: Memory, memory: Memory, minute: int, candidates: seq<Candidate>, writes: seq<bool>, n: nat)
    requires memory.Valid() && IsSnapshot(memory, minute, candidates) && n < |candidates|
    requires IsRest(after, memory, candidates, writes, n)
    ensures IsCurrent(after, candidates[n]) && after.heap[candidates[n].bucket].revision == candidates[n].revision
  {
    CandidatesInOrder(memory, minute, candidates, n, n);
    StillThere(memory, minute, candidates, writes, n);
  }

  /** Undisturbed by other goroutines, a flush removes exactly the buckets it has written, ... */
  lemma {:induction false} RemovesWritten(memory: Memory, minute: int, candidates: seq<Candidate>, writes: seq<bool>,
                                          n: nat)
    requires memory.Valid() && IsSnapshot(memory, minute, candidates) && n <= |candidates|
    ensures IsRest(Replay(memory, Planned(candidates, writes, n)), memory, candidates, writes, n)
  {
    if n > 0 {
      var after := Replay(memory, Planned(candidates, writes, n - 1));
      RemovesWritten(memory, minute, candidates, writes, n - 1);
      NextIsCurrent(after, memory, minute, candidates, writes, n - 1);
      RestShrinks(after, memory, candidates, writes, n - 1);
      PlannedGrows(memory, candidates, writes, n - 1);
    }
  }

  lemma WrittenGrows(candidates: seq<Candidate>, writes: seq<bool>, n: nat)
    requires n < |candidates|
    ensures forall key :: WasWritten(candidates, writes, n + 1, key) <==>
      WasWritten(candidates, writes, n, key) || (candidates[n].key == key && n < |writes| && writes[n])
  {
    forall key
      ensures WasWritten(candidates, writes, n + 1, key) <==>
        WasWritten(candidates, writes, n, key) || (candidates[n].key == key && n < |writes| && writes[n])
    {
      if WasWritten(candidates, writes, n + 1, key) {
        var i :| 0 <= i < n + 1 && i < |candidates| && i < |writes| && candidates[i].key == key && writes[i];
        assert i < n ==> WasWritten(candidates, writes, n, key);
      }
      if WasWritten(candidates, writes, n, key) {
        var i :| 0 <= i < n && i < |candidates| && i < |writes| && candidates[i].key == key && writes[i];
        assert i < n + 1;
      }
    }
  }

  lemma StillThere(memory: Memory, minute: int, candidates: seq<Candidate>, writes: seq<bool>, n: nat)
    requires memory.Valid() && IsSnapshot(memory, minute, candidates) && n < |candidates|
    ensures !WasWritten(candidates, writes, n, candidates[n].key)
  {
    forall i | 0 <= i < n
      ensures candidates[i].key != candidates[n].key
    {
      CandidatesInOrder(memory, minute, candidates, i, n);
    }
  }

  ghost predicate IsFirstFailure(failure: Option<BucketKey>, candidates: seq<Candidate>, writes: seq<bool>, n: nat) {
    match failure
    case None => forall i | 0 <= i < n :: i < |writes| && writes[i]
    case Some(key) => FailsFirst(candidates, writes, n, key)
  }

  lemma FailureGrows(failure: Option<BucketKey>, candidates: seq<Candidate>, writes: seq<bool>, n: nat)
    requires n < |candidates| && IsFirstFailure(failure, candidates, writes, n)
    ensures
      var fails := failure.None? && !(n < |writes| && writes[n]);
      IsFirstFailure(if fails then Some(candidates[n].key) else failure, candidates, writes, n + 1)
  {
    match failure
    case None =>
      if !(n < |writes| && writes[n]) {
        assert FailsAt(candidates, writes, n, candidates[n].key);
      }
    case Some(key) =>
      var i :| 0 <= i < n && FailsAt(candidates, writes, i, key);
      assert i < n + 1;
  }

  /** ... and reports the first it could not write. */
  lemma {:induction false} ReportsFirstFailure(memory: Memory, minute: int, candidates: seq<Candidate>,
                                               writes: seq<bool>, n: nat)
    requires memory.Valid() && IsSnapshot(memory, minute, candidates) && n <= |candidates|
    ensures IsFirstFailure(FirstFailure(memory, Planned(candidates, writes, n)), candidates, writes, n)
  {
    if n > 0 {
      var after := Replay(memory, Planned(candidates, writes, n - 1));
      ReportsFirstFailure(memory, minute, candidates, writes, n - 1);
      RemovesWritten(memory, minute, candidates, writes, n - 1);
      NextIsCurrent(after, memory, minute, candidates, writes, n - 1);
      FirstFailureGrows(memory, candidates, writes, n - 1);
    }
  }

  lemma FirstFailureGrows(memory: Memory, candidates: seq<Candidate>, writes: seq<bool>, n: nat)
    requires n < |candidates| && IsCurrent(Replay(memory, Planned(candidates, writes, n)), candidates[n])
    requires IsFirstFailure(FirstFailure(memory, Planned(candidates, writes, n)), candidates, writes, n)
    ensures IsFirstFailure(FirstFailure(memory, Planned(candidates, writes, n + 1)), candidates, writes, n + 1)
  {
    PlannedGrows(memory, candidates, writes, n);
    FailureGrows(FirstFailure(memory, Planned(candidates, writes, n)), candidates, writes, n);
  }

  /** A flush whose writes all succeed stores every earlier minute and keeps every other in memory. */
  lemma CompletedMinutesAreStored(memory: Memory, minute: int, candidates: seq<Candidate>, writes: seq<bool>,
                                  rows: map<BucketKey, MinuteRecord>, key: BucketKey)
    requires memory.Valid() && IsSnapshot(memory, minute, candidates)
    requires |candidates| <= |writes| && forall i | 0 <= i < |candidates| :: writes[i]
    ensures
      var after := Replay(memory, Planned(candidates, writes, |candidates|));
      && (key in after.buckets <==> key in memory.buckets && key.minuteUnix * 1_000_000_000 >= minute)
      && (key in after.buckets ==> after.buckets[key] == memory.buckets[key])
      && after.heap == memory.heap
    ensures
      var stored := RowsAfter(rows, candidates, writes, |candidates|);
      if key in memory.buckets && key.minuteUnix * 1_000_000_000 < minute then
        && memory.buckets[key] in memory.heap && key in stored
        && stored[key] == MinuteRecord(key.serverId, key.minuteUnix,
                                       Accumulation.PayloadOf(memory.heap[memory.buckets[key]].accumulator))
      else if key in rows then key in stored && stored[key] == rows[key]
      else key !in stored
    ensures FirstFailure(memory, Planned(candidates, writes, |candidates|)).None?
  {
    RemovesWritten(memory, minute, candidates, writes, |candidates|);
    ReportsFirstFailure(memory, minute, candidates, writes, |candidates|);
    CandidatesExactly(memory, minute, candidates, key);
    if i :| 0 <= i < |candidates| && candidates[i].key == key {
      assert WasWritten(candidates, writes, |candidates|, key);
      CandidatesInOrder(memory, minute, candidates, i, i);
      RowOfCandidate(rows, candidates, writes, |candidates|, i);
    } else {
      RowOfOthers(rows, candidates, writes, |candidates|, key);
    }
  }

  lemma {:induction false} RowOfCandidate(rows: map<BucketKey, MinuteRecord>, candidates: seq<Candidate>,
                                          writes: seq<bool>, n: nat, i: nat)
    requires forall i, j | 0 <= i < j < |candidates| :: candidates[i].key != candidates[j].key
    requires i < n <= |candidates| && i < |writes| && writes[i]
    ensures var stored := RowsAfter(rows, candidates, writes, n);
      candidates[i].key in stored && stored[candidates[i].key] == candidates[i].record
  {
    if i < n - 1 {
      RowOfCandidate(rows, candidates, writes, n - 1, i);
      assert candidates[i].key != candidates[n - 1].key;
    }
  }

  lemma {:induction false} RowOfOthers(rows: map<BucketKey, MinuteRecord>, candidates: seq<Candidate>,
                                       writes: seq<bool>, n: nat, key: BucketKey)
    requires n <= |candidates| && forall i | 0 <= i < n :: candidates[i].key != key
    ensures var stored := RowsAfter(rows, candidates, writes, n);
      (key in stored <==> key in rows) && (key in rows ==> stored[key] == rows[key])
  {
    if n > 0 {
      RowOfOthers(rows, candidates, writes, n - 1, key);
    }
  }

  // Among other goroutines

  predicate Removes(actions: seq<Action>, serverId: int) {
    exists i :: 0 <= i < |actions| && actions[i] == Removing(serverId)
  }

  ghost predicate SettlesDueOnly(actions: seq<Action>, minute: int) {
    forall i | 0 <= i < |actions| && actions[i].Settling? ::
      actions[i].candidate.key.minuteUnix * 1_000_000_000 < minute
  }

  lemma ActionKeepsValid(memory: Memory, action: Action)
    requires memory.Valid()
    ensures Acted(memory, action).Valid()
  {
  }

  /** Whatever else happens, a flush takes no bucket of a minute at or after its limit out of memory. */
  lemma {:induction false} RunningMinutesStay(memory: Memory, minute: int, actions: seq<Action>, key: BucketKey)
    requires memory.Valid() && SettlesDueOnly(actions, minute) && !Removes(actions, key.serverId)
    requires key in memory.buckets && key.minuteUnix * 1_000_000_000 >= minute
    ensures
      var after := Replay(memory, actions);
      after.Valid() && key in after.buckets && after.buckets[key] == memory.buckets[key]
  {
    if actions != [] {
      var before, action := actions[..|actions| - 1], actions[|actions| - 1];
      assert forall i | 0 <= i < |before| :: before[i] == actions[i];
      RunningMinutesStay(memory, minute, before, key);
      ActionKeepsValid(Replay(memory, before), action);
      assert action == actions[|actions| - 1];
    }
  }

  lemma {:induction false} PlannedAreSettled(actions: seq<Action>, i: nat)
    requires i < |actions| && actions[i].Settling?
    ensures actions[i] in Settlements(actions)
  {
    var n := |actions| - 1;
    if i < n {
      PlannedAreSettled(actions[..n], i);
    }
  }

  /** FlushBefore settles candidates only, so its own part among the others' is one of these. */
  lemma FlushSettlesDueOnly(memory: Memory, minute: int, candidates: seq<Candidate>, writes: seq<bool>,
                            late: seq<Action>)
    requires memory.Valid() && IsSnapshot(memory, minute, candidates)
    requires Settlements(late) == Planned(candidates, writes, |candidates|)
    ensures SettlesDueOnly(late, minute)
  {
    forall i | 0 <= i < |late| && late[i].Settling?
      ensures late[i].candidate.key.minuteUnix * 1_000_000_000 < minute
    {
      PlannedAreSettled(late, i);
      var k :| 0 <= k < |candidates| && late[i] == Planned(candidates, writes, |candidates|)[k];
      assert candidates[k].key == late[i].candidate.key;
    }
  }
}
