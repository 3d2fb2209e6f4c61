/** The minute aggregator: buckets in memory, flushed to the store while reports keep arriving. */
module Aggregation {
  import opened Wrappers
  import opened Protocol
  import opened HistoryModel
  import opened Sorting
  import opened Folding
  import Accumulation

  const NANOS_PER_SECOND := 1_000_000_000

  datatype BucketKey = BucketKey(serverId: int, minuteUnix: int)

  datatype Bucket = Bucket(accumulator: Accumulation.State, revision: nat)

  /**
   The aggregator's memory. Buckets are reached through references: heap holds every bucket ever allocated,
   buckets maps a key to the reference of its current bucket, and two references are equal only for one allocation.
   */
  datatype Memory = Memory(heap: map<nat, Bucket>, next: nat, buckets: map<BucketKey, nat>) {
    predicate Valid() {
      && (forall id | id in heap :: id < next)
      && (forall key | key in buckets :: buckets[key] in heap)
      && (forall k, l | k in buckets && l in buckets && buckets[k] == buckets[l] :: k == l)
    }
  }

  datatype Candidate = Candidate(key: BucketKey, bucket: nat, revision: nat, record: MinuteRecord)

  /** Times are nanoseconds since the Unix epoch; minutes are the seconds at which they start. */
  function MinuteUnix(receivedAt: int): int {
    receivedAt / (60 * NANOS_PER_SECOND) * 60
  }

  function KeyFor(serverId: int, receivedAt: int): BucketKey {
    BucketKey(serverId, MinuteUnix(receivedAt))
  }

  /** The bucket a report for this key would be added to. */
  function Entry(memory: Memory, key: BucketKey): Bucket
    requires memory.Valid()
  {
    if key in memory.buckets then memory.heap[memory.buckets[key]] else Bucket(Accumulation.EMPTY, 0)
  }

  /** Replaces the contents of the key's bucket, allocating one if the key has none. */
  function Put(memory: Memory, key: BucketKey, bucket: Bucket): Memory {
    if key in memory.buckets then memory.(heap := memory.heap[memory.buckets[key] := bucket])
    else Memory(memory.heap[memory.next := bucket], memory.next + 1, memory.buckets[key := memory.next])
  }

  function Bump(entry: Bucket, report: AgentReport, receivedAt: int): Bucket {
    Bucket(Accumulation.AddReport(entry.accumulator, report, Some(receivedAt)), entry.revision + 1)
  }

  function Accepted(memory: Memory, serverId: int, report: AgentReport, receivedAt: int): Memory
    requires memory.Valid()
  {
    var key := KeyFor(serverId, receivedAt);
    Put(memory, key, Bump(Entry(memory, key), report, receivedAt))
  }

  function WithoutServer(memory: Memory, serverId: int): Memory {
    memory.(buckets := map key | key in memory.buckets && key.serverId != serverId :: memory.buckets[key])
  }

  predicate IsDue(key: BucketKey, minute: int) {
    key.minuteUnix * NANOS_PER_SECOND < minute
  }

  predicate KeyLe(a: BucketKey, b: BucketKey) {
    a.serverId < b.serverId || (a.serverId == b.serverId && a.minuteUnix <= b.minuteUnix)
  }

  ghost function CandidateFor(memory: Memory, key: BucketKey): Candidate
    requires memory.Valid() && key in memory.buckets
  {
    var id := memory.buckets[key];
    var entry := memory.heap[id];
    Candidate(key, id, entry.revision,
              MinuteRecord(key.serverId, key.minuteUnix, Accumulation.PayloadOf(entry.accumulator)))
  }

  /** What a flush writes: every due bucket once, by server and minute, as it is now. */
  ghost predicate IsSnapshot(memory: Memory, minute: int, candidates: seq<Candidate>)
    requires memory.Valid()
  {
    && (forall i | 0 <= i < |candidates| ::
          var key := candidates[i].key;
          key in memory.buckets && IsDue(key, minute) && candidates[i] == CandidateFor(memory, key))
    && (forall key | key in memory.buckets && IsDue(key, minute) ::
          exists i :: 0 <= i < |candidates| && candidates[i].key == key)
    && (forall i, j | 0 <= i < j < |candidates| ::
          candidates[i].key != candidates[j].key && KeyLe(candidates[i].key, candidates[j].key))
  }

  /** A candidate's key still leads to the bucket that was written, and nothing was added to it since. */
  predicate IsCurrent(memory: Memory, candidate: Candidate) {
    candidate.key in memory.buckets && memory.buckets[candidate.key] == candidate.bucket
  }

  function Settled(memory: Memory, candidate: Candidate, written: bool): Memory
    requires memory.Valid()
  {
    if IsCurrent(memory, candidate) && written && memory.heap[candidate.bucket].revision == candidate.revision
    then memory.(buckets := memory.buckets - {candidate.key})
    else memory
  }

  /** What happens to the memory, in critical sections of their own. */
  datatype Action =
    | Accepting(serverId: int, report: AgentReport, receivedAt: int)
    | Removing(serverId: int)
    | Settling(candidate: Candidate, written: bool)

  function Acted(memory: Memory, action: Action): Memory {
    if !memory.Valid() then memory
    else
      match action
      case Accepting(serverId, report, receivedAt) => Accepted(memory, serverId, report, receivedAt)
      case Removing(serverId) => WithoutServer(memory, serverId)
      case Settling(candidate, written) => Settled(memory, candidate, written)
  }

  function Replay(memory: Memory, actions: seq<Action>): Memory {
    FoldLeft(Acted, memory, actions)
  }

  /** What other goroutines may do between two critical sections of a flush. */
  predicate AreOthers(actions: seq<Action>) {
    forall i | 0 <= i < |actions| :: !actions[i].Settling?
  }

  /** The settlements among some actions, in order. */
  function Settlements(actions: seq<Action>): seq<Action> {
    if actions == [] then []
    else
      var n := |actions| - 1;
      Settlements(actions[..n]) + if actions[n].Settling? then [actions[n]] else []
  }

  /** Every candidate is settled with the outcome of its own write. */
  function Planned(candidates: seq<Candidate>, writes: seq<bool>, n: nat): (planned: seq<Action>)
    requires n <= |candidates|
    ensures |planned| == n
  {
    seq(n, i requires 0 <= i < n => Settling(candidates[i], i < |writes| && writes[i]))
  }

  /** The first candidate whose write failed while its bucket was still current after it. */
  function FirstFailure(memory: Memory, actions: seq<Action>): Option<BucketKey> {
    if actions == [] then None
    else
      var n := |actions| - 1;
      var earlier := FirstFailure(memory, actions[..n]);
      if earlier.None? && Fails(Replay(memory, actions[..n]), actions[n]) then Some(actions[n].candidate.key)
      else earlier
  }

  predicate Fails(memory: Memory, action: Action) {
    action.Settling? && !action.written && IsCurrent(memory, action.candidate)
  }

  lemma {:induction false} SettlementsJoin(actions: seq<Action>, more: seq<Action>)
    ensures Settlements(actions + more) == Settlements(actions) + Settlements(more)
  {
    if more == [] {
      assert actions + more == actions;
    } else {
      var n := |more| - 1;
      assert (actions + more)[..|actions| + n] == actions + more[..n];
      SettlementsJoin(actions, more[..n]);
    }
  }

  lemma {:induction false} FailuresJoin(memory: Memory, actions: seq<Action>, more: seq<Action>)
    ensures FirstFailure(memory, actions + more) ==
      if FirstFailure(memory, actions).Some? then FirstFailure(memory, actions)
      else FirstFailure(Replay(memory, actions), more)
  {
    if more == [] {
      assert actions + more == actions;
    } else {
      var n := |more| - 1;
      assert (actions + more)[..|actions| + n] == actions + more[..n];
      FailuresJoin(memory, actions, more[..n]);
      FoldJoins(Acted, memory, actions, more[..n]);
    }
  }

  /** Other goroutines' actions settle nothing and do not make a flush fail. */
  lemma {:induction false} OthersAreHarmless(memory: Memory, others: seq<Action>)
    requires AreOthers(others)
    ensures Settlements(others) == [] && FirstFailure(memory, others).None?
  {
    if others != [] {
      OthersAreHarmless(memory, others[..|others| - 1]);
    }
  }

  lemma OthersGrow(memory: Memory, others: seq<Action>, action: Action)
    requires AreOthers(others) && !action.Settling?
    ensures AreOthers(others + [action])
    ensures Replay(memory, others + [action]) == Acted(Replay(memory, others), action)
  {
    FoldLast(Acted, memory, others, action);
  }

  datatype FlushError = ContextDone | WriteFailed(key: BucketKey)

  class Aggregator {
    var heap: map<nat, Bucket>
    var next: nat
    var buckets: map<BucketKey, nat>
    var flushGate: bool

    function State(): Memory
      reads this
    {
      Memory(heap, next, buckets)
    }

    constructor ()
      ensures State() == Memory(map[], 0, map[]) && State().Valid() && !flushGate
    {
      heap, next, buckets, flushGate := map[], 0, map[], false;
    }

    method Accept(serverId: int, report: AgentReport, receivedAt: int)
      requires State().Valid()
      modifies this
      ensures State() == Accepted(old(State()), serverId, report, receivedAt)
      ensures State().Valid() && flushGate == old(flushGate)
    {
      var key := BucketKey(serverId, receivedAt / (60 * NANOS_PER_SECOND) * 60);
      if key !in buckets {
        heap := heap[next := Bucket(Accumulation.EMPTY, 0)];
        buckets := buckets[key := next];
        next := next + 1;
      }
      var entry := heap[buckets[key]];
      var accumulator := new Accumulation.Accumulator.From(entry.accumulator);
      accumulator.Add(report, Some(receivedAt));
      heap := heap[buckets[key] := Bucket(accumulator.Value(), entry.revision + 1)];
    }

    method RemoveServer(serverId: int)
      requires State().Valid()
      modifies this
      ensures State() == WithoutServer(old(State()), serverId)
      ensures forall key :: key in buckets <==> key in old(buckets) && key.serverId != serverId
      ensures State().Valid() && flushGate == old(flushGate)
    {
      var waiting := buckets.Keys;
      while waiting != {}
        invariant waiting <= old(buckets).Keys
        invariant heap == old(heap) && next == old(next) && flushGate == old(flushGate)
        invariant buckets == map key | key in old(buckets) && (key in waiting || key.serverId != serverId) ::
                               old(buckets)[key]
        decreases waiting
      {
        var key :| key in waiting;
        if key.serverId == serverId {
          buckets := buckets - {key};
        }
        waiting := waiting - {key};
      }
    }

    /** The due keys, sorted; the map is walked in any order. */
    method DueKeys(minute: int) returns (keys: seq<BucketKey>)
      ensures forall key :: key in keys <==> key in buckets && key.minuteUnix * 1_000_000_000 < minute
      ensures Distinct(keys) && SortedBy(KeyLe, keys)
    {
      var found: seq<BucketKey> := [];
      var waiting := buckets.Keys;
      while waiting != {}
        invariant waiting <= buckets.Keys
        invariant forall key :: key in found <==> key in buckets && key !in waiting && IsDue(key, minute)
        invariant Distinct(found)
        decreases waiting
      {
        var key :| key in waiting;
        if IsDue(key, minute) {
          found := found + [key];
        }
        waiting := waiting - {key};
      }
      keys := SortBy(KeyLe, found);
      SortByOrders(KeyLe, found);
      SortByMembers(KeyLe, found);
      SortByKeepsDistinct(KeyLe, found);
    }

    method Snapshot(minute: int) returns (candidates: seq<Candidate>)
      requires State().Valid()
      ensures IsSnapshot(State(), minute, candidates)
      ensures forall i | 0 <= i < |candidates| :: candidates[i].key.minuteUnix * 1_000_000_000 < minute
    {
      var keys := DueKeys(minute);
      candidates := [];
      for k := 0 to |keys|
        invariant |candidates| == k
        invariant forall i | 0 <= i < k :: keys[i] in buckets && candidates[i] == CandidateFor(State(), keys[i])
      {
        var key := keys[k];
        assert key in keys;
        var entry := heap[buckets[key]];
        var accumulator := new Accumulation.Accumulator.From(entry.accumulator);
        var record := accumulator.Finish(key.serverId, key.minuteUnix);
        candidates := candidates + [Candidate(key, buckets[key], entry.revision, record)];
      }
      SnapshotFromKeys(State(), minute, keys, candidates);
    }

    /** After the write: an error only matters while the bucket is current, and only a complete write removes it. */
    method Settle(candidate: Candidate, written: bool) returns (failed: bool)
      requires State().Valid()
      modifies this
      ensures State() == Settled(old(State()), candidate, written)
      ensures
        var current := candidate.key in old(buckets) && old(buckets)[candidate.key] == candidate.bucket;
        && failed == (current && !written)
        && buckets == if current && written && old(heap)[candidate.bucket].revision == candidate.revision
                      then old(buckets) - {candidate.key} else old(buckets)
      ensures State().Valid() && flushGate == old(flushGate)
    {
      failed := !written;
      if candidate.key !in buckets || buckets[candidate.key] != candidate.bucket {
        failed := false;
      } else if written && heap[candidate.bucket].revision == candidate.revision {
        buckets := buckets - {candidate.key};
      }
    }

    /** Any number of reports and removals by other goroutines. */
    method Others() returns (ghost others: seq<Action>)
      requires State().Valid()
      modifies this
      ensures State() == Replay(old(State()), others) && AreOthers(others)
      ensures State().Valid() && flushGate == old(flushGate)
    {
      others := [];
      var steps: nat := *;
      while steps > 0
        invariant State() == Replay(old(State()), others) && AreOthers(others)
        invariant State().Valid() && flushGate == old(flushGate)
      {
        var serverId: int := *;
        if * {
          var report: AgentReport := *;
          var receivedAt: int := *;
          Accept(serverId, report, receivedAt);
          OthersGrow(old(State()), others, Accepting(serverId, report, receivedAt));
          others := others + [Accepting(serverId, report, receivedAt)];
        } else {
          RemoveServer(serverId);
          OthersGrow(old(State()), others, Removing(serverId));
          others := others + [Removing(serverId)];
        }
        steps := steps - 1;
      }
    }

    /**
     One flush among other goroutines. The arguments stand for what happens outside: when the context is done, whether
     the gate is obtained before that, and how each write ends. Memory changes by what others do before the snapshot,
     and after it by one settlement per candidate, in order, among what others do.
     */
    method FlushBefore(minute: int, doneBefore: bool, gateFirst: bool, doneAfter: bool, writes: seq<bool>)
      returns (err: Option<FlushError>,
               ghost early: seq<Action>, ghost candidates: seq<Candidate>, ghost late: seq<Action>)
      requires State().Valid() && !flushGate
      modifies this
      ensures State().Valid() && !flushGate && AreOthers(early)
      ensures doneBefore || !gateFirst || doneAfter ==> err == Some(ContextDone) && State() == old(State())
      ensures !doneBefore && gateFirst && !doneAfter ==>
        && Replay(old(State()), early).Valid() && IsSnapshot(Replay(old(State()), early), minute, candidates)
        && State() == Replay(Replay(old(State()), early), late)
        && Settlements(late) == Planned(candidates, writes, |candidates|)
        && (forall i | 0 <= i < |candidates| :: candidates[i].key.minuteUnix * 1_000_000_000 < minute)
        && err == var failure := FirstFailure(Replay(old(State()), early), late);
                  if failure.None? then None else Some(WriteFailed(failure.value))
    {
      early, candidates, late := [], [], [];
      if doneBefore || !gateFirst {
        return Some(ContextDone), [], [], [];
      }
      flushGate := true;
      if doneAfter {
        flushGate := false;
        return Some(ContextDone), [], [], [];
      }
      early := Others();
      var taken := Snapshot(minute);
      candidates := taken;
      err, late := WriteAll(taken, writes);
      flushGate := false;
    }

    method WriteAll(taken: seq<Candidate>, writes: seq<bool>) returns (err: Option<FlushError>, ghost late: seq<Action>)
      requires State().Valid()
      modifies this
      ensures State() == Replay(old(State()), late) && Settlements(late) == Planned(taken, writes, |taken|)
      ensures err == var failure := FirstFailure(old(State()), late);
                     if failure.None? then None else Some(WriteFailed(failure.value))
      ensures State().Valid() && flushGate == old(flushGate)
    {
      err, late := None, [];
      for i := 0 to |taken|
        invariant HasSettled(old(State()), State(), late, taken, writes, i, err)
        invariant State().Valid() && flushGate == old(flushGate)
      {
        ghost var before := State();
        var failed, actions := SettleAmongOthers(taken[i], i < |writes| && writes[i]);
        SettledFurther(old(State()), before, State(), late, actions, taken, writes, i, err, failed);
        late := late + actions;
        if failed && err.None? {
          err := Some(WriteFailed(taken[i].key));
        }
      }
    }

    /** While a candidate is written the others go on; then it is settled. */
    method SettleAmongOthers(candidate: Candidate, written: bool) returns (failed: bool, ghost actions: seq<Action>)
      requires State().Valid()
      modifies this
      ensures State() == Replay(old(State()), actions) && Settlements(actions) == [Settling(candidate, written)]
      ensures FirstFailure(old(State()), actions) == if failed then Some(candidate.key) else None
      ensures State().Valid() && flushGate == old(flushGate)
    {
      ghost var others := Others();
      ghost var settling := Settling(candidate, written);
      failed := Settle(candidate, written);
      actions := others + [settling];
      assert actions[..|others|] == others;
      OthersAreHarmless(old(State()), others);
      FoldLast(Acted, old(State()), others, settling);
    }
  }

  /** The first n candidates are settled, and the error is the first that counts. */
  ghost predicate HasSettled(start: Memory, now: Memory, late: seq<Action>, taken: seq<Candidate>, writes: seq<bool>,
                             n: nat, err: Option<FlushError>)
    requires n <= |taken|
  {
    && now == Replay(start, late) && Settlements(late) == Planned(taken, writes, n)
    && err == var failure := FirstFailure(start, late);
              if failure.None? then None else Some(WriteFailed(failure.value))
  }

  lemma PlannedNext(taken: seq<Candidate>, writes: seq<bool>, n: nat)
    requires n < |taken|
    ensures Planned(taken, writes, n + 1)
            == Planned(taken, writes, n) + [Settling(taken[n], n < |writes| && writes[n])]
  {
  }

  lemma ActionsJoin(start: Memory, late: seq<Action>, actions: seq<Action>)
    ensures Replay(start, late + actions) == Replay(Replay(start, late), actions)
    ensures Settlements(late + actions) == Settlements(late) + Settlements(actions)
    ensures FirstFailure(start, late + actions) ==
      if FirstFailure(start, late).Some? then FirstFailure(start, late)
      else FirstFailure(Replay(start, late), actions)
  {
    FoldJoins(Acted, start, late, actions);
    SettlementsJoin(late, actions);
    FailuresJoin(start, late, actions);
  }

  lemma SettledFurther(start: Memory, before: Memory, now: Memory, late: seq<Action>, actions: seq<Action>,
                       taken: seq<Candidate>, writes: seq<bool>, n: nat, err: Option<FlushError>, failed: bool)
    requires n < |taken| && HasSettled(start, before, late, taken, writes, n, err)
    requires now == Replay(before, actions)
    requires Settlements(actions) == [Settling(taken[n], n < |writes| && writes[n])]
    requires FirstFailure(before, actions) == if failed then Some(taken[n].key) else None
    ensures HasSettled(start, now, late + actions, taken, writes, n + 1,
                       if failed && err.None? then Some(WriteFailed(taken[n].key)) else err)
  {
    ActionsJoin(start, late, actions);
    PlannedNext(taken, writes, n);
  }

  lemma SnapshotFromKeys(memory: Memory, minute: int, keys: seq<BucketKey>, candidates: seq<Candidate>)
    requires memory.Valid() && |candidates| == |keys| && Distinct(keys) && SortedBy(KeyLe, keys)
    requires forall key :: key in keys <==> key in memory.buckets && IsDue(key, minute)
    requires forall i | 0 <= i < |keys| :: keys[i] in memory.buckets && candidates[i] == CandidateFor(memory, keys[i])
    ensures IsSnapshot(memory, minute, candidates)
  {
    forall key | key in memory.buckets && IsDue(key, minute)
      ensures exists i :: 0 <= i < |candidates| && candidates[i].key == key
    {
      var i :| 0 <= i < |keys| && keys[i] == key;
      assert candidates[i].key == key;
    }
  }
}
