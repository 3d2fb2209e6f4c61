/**
 Every interleaving of reports, removals and flushes, one flush at a time, seen as bookkeeping:
 which reports each bucket accepted and which prefix of them each write stored. What a prefix
 aggregates to plays no part here; AggregationLaws adds it.
 */
module FlushProtocol {
  import opened Wrappers
  import opened Aggregation
  import opened AccumulationLaws

  /** The count oldest reports of a bucket. */
  datatype Version = Version(bucket: nat, count: nat) {
    predicate Before(other: Version) {
      bucket < other.bucket || (bucket == other.bucket && count < other.count)
    }
  }

  datatype Pending = Pending(key: BucketKey, version: Version)

  /** The flush that holds the gate: next is the candidate at hand, written the outcome of its write, if any yet. */
  datatype Phase =
    | Idle
    | Holding
    | Writing(pending: seq<Pending>, next: nat, written: Option<bool>)

  /**
   The current bucket of each key, and what happened so far: the reports each bucket accepted, the key it was
   made for, whether it was removed with its server or flushed away, and the last stored version of each key.
   */
  datatype Books = Books(
    buckets: map<BucketKey, nat>, next: nat, phase: Phase,
    accepted: map<nat, seq<Arrival>>, keyOf: map<nat, BucketKey>, removed: set<nat>, flushed: set<nat>,
    stored: map<BucketKey, Version>, recent: map<BucketKey, Recent>)

  /** A key since its server was last removed: its reports, how many buckets they went into, and the last of these. */
  datatype Recent = Recent(reports: seq<Arrival>, buckets: nat, newest: nat)

  const START := Books(map[], 0, Idle, map[], map[], {}, {}, map[], map[])

  function RecentOf(b: Books, key: BucketKey): Recent {
    if key in b.recent then b.recent[key] else Recent([], 0, 0)
  }

  // Steps

  /** A report joins the current bucket of its key. */
  function Join(b: Books, key: BucketKey, arrival: Arrival): Books
    requires key in b.buckets && b.buckets[key] in b.accepted
  {
    var id := b.buckets[key];
    var recent := RecentOf(b, key);
    b.(accepted := b.accepted[id := b.accepted[id] + [arrival]],
       recent := b.recent[key := Recent(recent.reports + [arrival], recent.buckets, recent.newest)])
  }

  /** A report starts a new bucket for its key. */
  function Open(b: Books, key: BucketKey, arrival: Arrival): Books {
    var recent := RecentOf(b, key);
    b.(buckets := b.buckets[key := b.next], next := b.next + 1,
       accepted := b.accepted[b.next := [arrival]], keyOf := b.keyOf[b.next := key],
       recent := b.recent[key := Recent(recent.reports + [arrival], recent.buckets + 1, b.next)])
  }

  function Report(b: Books, key: BucketKey, arrival: Arrival): Books {
    if key in b.buckets && b.buckets[key] in b.accepted then Join(b, key, arrival) else Open(b, key, arrival)
  }

  function Remove(b: Books, serverId: int): Books {
    b.(buckets := map key | key in b.buckets && key.serverId != serverId :: b.buckets[key],
       removed := b.removed + set key | key in b.buckets && key.serverId == serverId :: b.buckets[key],
       recent := map key | key in b.recent && key.serverId != serverId :: b.recent[key])
  }

  /** What a snapshot may contain: current buckets as they are now, no key twice. */
  ghost predicate IsTaken(b: Books, pending: seq<Pending>) {
    && (forall i | 0 <= i < |pending| ::
          var p := pending[i];
          p.key in b.buckets && b.buckets[p.key] == p.version.bucket
          && p.version.bucket in b.accepted && p.version.count == |b.accepted[p.version.bucket]|)
    && (forall i, j | 0 <= i < j < |pending| :: pending[i].key != pending[j].key)
  }

  predicate AtHand(b: Books) {
    b.phase.Writing? && b.phase.next < |b.phase.pending|
  }

  function Current(b: Books): Pending
    requires AtHand(b)
  {
    b.phase.pending[b.phase.next]
  }

  function Write(b: Books, ok: bool): Books
    requires AtHand(b)
  {
    b.(phase := b.phase.(written := Some(ok)),
       stored := if ok then b.stored[Current(b).key := Current(b).version] else b.stored)
  }

  /** The bucket at hand is still current and has accepted nothing since the snapshot. */
  predicate IsComplete(b: Books)
    requires AtHand(b)
  {
    var Pending(key, version) := Current(b);
    && key in b.buckets && b.buckets[key] == version.bucket
    && version.bucket in b.accepted && |b.accepted[version.bucket]| == version.count
  }

  function Settle(b: Books): Books
    requires AtHand(b) && b.phase.written.Some?
  {
    var settled := b.(phase := b.phase.(next := b.phase.next + 1, written := None));
    if b.phase.written.value && IsComplete(b)
    then settled.(buckets := b.buckets - {Current(b).key}, flushed := b.flushed + {Current(b).version.bucket})
    else settled
  }

  datatype Step =
    | DoReport(key: BucketKey, arrival: Arrival)
    | DoRemove(serverId: int)
    | DoTakeGate
    | DoSnapshot(pending: seq<Pending>)
    | DoWrite(ok: bool)
    | DoSettle
    | DoReleaseGate

  ghost predicate Enabled(b: Books, step: Step) {
    match step
    case DoReport(_, _) => true
    case DoRemove(_) => true
    case DoTakeGate => b.phase.Idle?
    case DoSnapshot(pending) => b.phase.Holding? && IsTaken(b, pending)
    case DoWrite(_) => AtHand(b) && b.phase.written.None?
    case DoSettle => AtHand(b) && b.phase.written.Some?
    case DoReleaseGate => b.phase.Holding? || (b.phase.Writing? && b.phase.next == |b.phase.pending|)
  }

  ghost function Next(b: Books, step: Step): Books
    requires Enabled(b, step)
  {
    match step
    case DoReport(key, arrival) => Report(b, key, arrival)
    case DoRemove(serverId) => Remove(b, serverId)
    case DoTakeGate => b.(phase := Holding)
    case DoSnapshot(pending) => b.(phase := Writing(pending, 0, None))
    case DoWrite(ok) => Write(b, ok)
    case DoSettle => Settle(b)
    case DoReleaseGate => b.(phase := Idle)
  }

  // Invariant

  ghost predicate Allocated(b: Books) {
    && b.accepted.Keys == b.keyOf.Keys
    && (forall id | id in b.accepted :: id < b.next && b.accepted[id] != [])
    && (forall key | key in b.buckets :: b.buckets[key] in b.keyOf && b.keyOf[b.buckets[key]] == key)
    && b.removed <= b.keyOf.Keys && b.flushed <= b.keyOf.Keys && b.removed !! b.flushed
  }

  predicate IsLive(b: Books, id: nat)
    requires id in b.keyOf
  {
    b.keyOf[id] in b.buckets && b.buckets[b.keyOf[id]] == id
  }

  /** Each bucket is live, removed or flushed away, and no bucket older than another one of its key is live. */
  ghost predicate Accounted(b: Books)
    requires Allocated(b)
  {
    && (forall id | id in b.keyOf :: IsLive(b, id) <==> id !in b.removed && id !in b.flushed)
    && (forall i, j | i in b.keyOf && j in b.keyOf && i < j && b.keyOf[i] == b.keyOf[j] :: !IsLive(b, i))
  }

  ghost predicate IsReal(b: Books, key: BucketKey, v: Version)
    requires Allocated(b)
  {
    v.bucket in b.keyOf && b.keyOf[v.bucket] == key && 0 < v.count <= |b.accepted[v.bucket]|
  }

  ghost predicate IsNewer(b: Books, p: Pending) {
    p.key in b.stored ==> b.stored[p.key].Before(p.version)
  }

  function Unwritten(phase: Phase): nat
    requires phase.Writing?
  {
    if phase.written.Some? then phase.next + 1 else phase.next
  }

  /** Writes still to come store real versions, newer than anything stored for their keys. */
  ghost predicate PendingIsHonest(b: Books)
    requires Allocated(b)
  {
    b.phase.Writing? ==>
      && b.phase.next <= |b.phase.pending|
      && (b.phase.written.Some? ==> AtHand(b))
      && (forall i | b.phase.next <= i < |b.phase.pending| ::
            IsReal(b, b.phase.pending[i].key, b.phase.pending[i].version))
      && (forall i | Unwritten(b.phase) <= i < |b.phase.pending| :: IsNewer(b, b.phase.pending[i]))
      && (forall i, j | b.phase.next <= i < j < |b.phase.pending| :: b.phase.pending[i].key != b.phase.pending[j].key)
  }

  predicate JustStored(b: Books, key: BucketKey) {
    AtHand(b) && b.phase.written == Some(true) && Current(b).key == key
  }

  /** Stored versions are real; a live bucket holds more than its stored version, unless that is still to be settled. */
  ghost predicate StoredIsHonest(b: Books)
    requires Allocated(b)
  {
    && (forall key | key in b.stored :: IsReal(b, key, b.stored[key]))
    && (forall key | JustStored(b, key) :: key in b.stored && b.stored[key] == Current(b).version)
    && (forall key | key in b.stored && key in b.buckets && !JustStored(b, key) ::
          b.stored[key].Before(Version(b.buckets[key], |b.accepted[b.buckets[key]]|)))
  }

  ghost predicate IsNewest(b: Books, id: nat)
    requires id in b.keyOf
  {
    forall other | other in b.keyOf && b.keyOf[other] == b.keyOf[id] :: other <= id
  }

  /** A bucket flushed away was stored whole, and stays the stored version until its key gets a newer bucket. */
  ghost predicate FlushedWhole(b: Books)
    requires Allocated(b)
  {
    forall id | id in b.flushed && IsNewest(b, id) ::
      b.keyOf[id] in b.stored && b.stored[b.keyOf[id]] == Version(id, |b.accepted[id]|)
  }

  ghost predicate Inv(b: Books) {
    Allocated(b) && Accounted(b) && PendingIsHonest(b) && StoredIsHonest(b) && FlushedWhole(b)
  }

  lemma StartInv()
    ensures Inv(START)
  {
  }

  // Reports

  lemma JoinKeepsBuckets(b: Books, key: BucketKey, arrival: Arrival)
    requires Inv(b) && key in b.buckets
    ensures Allocated(Join(b, key, arrival)) && Accounted(Join(b, key, arrival))
  {
    var t := Join(b, key, arrival);
    forall id | id in t.keyOf ensures IsLive(t, id) == IsLive(b, id) {
    }
  }

  lemma JoinKeepsReal(b: Books, key: BucketKey, arrival: Arrival, k: BucketKey, v: Version)
    requires Inv(b) && key in b.buckets && Allocated(Join(b, key, arrival)) && IsReal(b, k, v)
    ensures IsReal(Join(b, key, arrival), k, v)
  {
  }

  lemma JoinKeepsPending(b: Books, key: BucketKey, arrival: Arrival)
    requires Inv(b) && key in b.buckets && Allocated(Join(b, key, arrival))
    ensures PendingIsHonest(Join(b, key, arrival))
  {
    forall k, v | IsReal(b, k, v) ensures IsReal(Join(b, key, arrival), k, v) {
      JoinKeepsReal(b, key, arrival, k, v);
    }
  }

  lemma JoinKeepsStored(b: Books, key: BucketKey, arrival: Arrival)
    requires Inv(b) && key in b.buckets && Allocated(Join(b, key, arrival))
    ensures StoredIsHonest(Join(b, key, arrival))
  {
    forall k, v | IsReal(b, k, v) ensures IsReal(Join(b, key, arrival), k, v) {
      JoinKeepsReal(b, key, arrival, k, v);
    }
  }

  lemma JoinKeepsFlushed(b: Books, key: BucketKey, arrival: Arrival)
    requires Inv(b) && key in b.buckets && Allocated(Join(b, key, arrival))
    ensures FlushedWhole(Join(b, key, arrival))
  {
    var t := Join(b, key, arrival);
    forall id | id in t.flushed && IsNewest(t, id)
      ensures t.keyOf[id] in t.stored && t.stored[t.keyOf[id]] == Version(id, |t.accepted[id]|)
    {
      assert IsNewest(b, id);
      assert !IsLive(b, id);
    }
  }

  lemma OpenKeepsAllocated(b: Books, key: BucketKey, arrival: Arrival)
    requires Inv(b) && key !in b.buckets
    ensures Allocated(Open(b, key, arrival))
  {
  }

  lemma OpenKeepsAccounted(b: Books, key: BucketKey, arrival: Arrival)
    requires Inv(b) && key !in b.buckets && Allocated(Open(b, key, arrival))
    ensures Accounted(Open(b, key, arrival))
  {
    var t := Open(b, key, arrival);
    forall id | id in t.keyOf ensures IsLive(t, id) == (id == b.next || (id in b.keyOf && IsLive(b, id))) {
    }
  }

  lemma OpenKeepsReal(b: Books, key: BucketKey, arrival: Arrival, k: BucketKey, v: Version)
    requires Inv(b) && Allocated(Open(b, key, arrival)) && IsReal(b, k, v)
    ensures IsReal(Open(b, key, arrival), k, v)
  {
  }

  lemma OpenKeepsPending(b: Books, key: BucketKey, arrival: Arrival)
    requires Inv(b) && key !in b.buckets && Allocated(Open(b, key, arrival))
    ensures PendingIsHonest(Open(b, key, arrival))
  {
    forall k, v | IsReal(b, k, v) ensures IsReal(Open(b, key, arrival), k, v) {
      OpenKeepsReal(b, key, arrival, k, v);
    }
  }

  lemma OpenKeepsStored(b: Books, key: BucketKey, arrival: Arrival)
    requires Inv(b) && key !in b.buckets && Allocated(Open(b, key, arrival))
    ensures StoredIsHonest(Open(b, key, arrival))
  {
    forall k, v | IsReal(b, k, v) ensures IsReal(Open(b, key, arrival), k, v) {
      OpenKeepsReal(b, key, arrival, k, v);
    }
  }

  lemma OpenKeepsFlushed(b: Books, key: BucketKey, arrival: Arrival)
    requires Inv(b) && key !in b.buckets && Allocated(Open(b, key, arrival))
    ensures FlushedWhole(Open(b, key, arrival))
  {
    var t := Open(b, key, arrival);
    forall id | id in t.flushed && IsNewest(t, id)
      ensures t.keyOf[id] in t.stored && t.stored[t.keyOf[id]] == Version(id, |t.accepted[id]|)
    {
      assert id < b.next;
      assert t.keyOf[id] == b.keyOf[id];
      assert IsNewest(b, id) by {
        forall other | other in b.keyOf && b.keyOf[other] == b.keyOf[id] ensures other <= id {
          assert other in t.keyOf && t.keyOf[other] == t.keyOf[id];
        }
      }
    }
  }

  lemma ReportKeepsInv(b: Books, key: BucketKey, arrival: Arrival)
    requires Inv(b)
    ensures Inv(Report(b, key, arrival))
  {
    if key in b.buckets {
      JoinKeepsBuckets(b, key, arrival);
      JoinKeepsPending(b, key, arrival);
      JoinKeepsStored(b, key, arrival);
      JoinKeepsFlushed(b, key, arrival);
    } else {
      OpenKeepsAllocated(b, key, arrival);
      OpenKeepsAccounted(b, key, arrival);
      OpenKeepsPending(b, key, arrival);
      OpenKeepsStored(b, key, arrival);
      OpenKeepsFlushed(b, key, arrival);
    }
  }

  // Removals

  lemma RemoveKeepsBuckets(b: Books, serverId: int)
    requires Inv(b)
    ensures Allocated(Remove(b, serverId)) && Accounted(Remove(b, serverId))
  {
    var t := Remove(b, serverId);
    assert t.keyOf == b.keyOf && t.flushed == b.flushed;
    forall id | id in b.keyOf
      ensures IsLive(t, id) == (IsLive(b, id) && b.keyOf[id].serverId != serverId)
      ensures id in t.removed <==> id in b.removed || (IsLive(b, id) && b.keyOf[id].serverId == serverId)
    {
    }
  }

  lemma RemoveKeepsPending(b: Books, serverId: int)
    requires Inv(b) && Allocated(Remove(b, serverId))
    ensures PendingIsHonest(Remove(b, serverId))
  {
    forall k, v | IsReal(b, k, v) ensures IsReal(Remove(b, serverId), k, v) {
    }
  }

  lemma RemoveKeepsStored(b: Books, serverId: int)
    requires Inv(b) && Allocated(Remove(b, serverId))
    ensures StoredIsHonest(Remove(b, serverId))
  {
    forall k, v | IsReal(b, k, v) ensures IsReal(Remove(b, serverId), k, v) {
    }
  }

  lemma RemoveKeepsFlushed(b: Books, serverId: int)
    requires Inv(b) && Allocated(Remove(b, serverId))
    ensures FlushedWhole(Remove(b, serverId))
  {
    forall id | id in b.keyOf ensures IsNewest(Remove(b, serverId), id) == IsNewest(b, id) {
    }
  }

  // Flushes

  lemma SnapshotKeepsInv(b: Books, pending: seq<Pending>)
    requires Inv(b) && b.phase.Holding? && IsTaken(b, pending)
    ensures Inv(b.(phase := Writing(pending, 0, None)))
  {
    var t := b.(phase := Writing(pending, 0, None));
    forall id | id in t.keyOf
      ensures IsLive(t, id) == IsLive(b, id) && IsNewest(t, id) == IsNewest(b, id)
    {
    }
    forall k, v | IsReal(b, k, v) ensures IsReal(t, k, v) {
    }
  }

  lemma PhaseKeepsInv(b: Books, phase: Phase)
    requires Inv(b) && !AtHand(b) && !phase.Writing?
    ensures Inv(b.(phase := phase))
  {
    var t := b.(phase := phase);
    forall id | id in t.keyOf
      ensures IsLive(t, id) == IsLive(b, id) && IsNewest(t, id) == IsNewest(b, id)
    {
    }
    forall k, v | IsReal(b, k, v) ensures IsReal(t, k, v) {
    }
  }

  lemma WriteKeepsBuckets(b: Books, ok: bool)
    requires Inv(b) && AtHand(b) && b.phase.written.None?
    ensures Allocated(Write(b, ok)) && Accounted(Write(b, ok))
  {
    var t := Write(b, ok);
    forall id | id in t.keyOf ensures IsLive(t, id) == IsLive(b, id) {
    }
  }

  lemma WriteKeepsPending(b: Books, ok: bool)
    requires Inv(b) && AtHand(b) && b.phase.written.None? && Allocated(Write(b, ok))
    ensures PendingIsHonest(Write(b, ok))
  {
    var t := Write(b, ok);
    forall k, v | IsReal(b, k, v) ensures IsReal(t, k, v) {
    }
  }

  lemma WriteKeepsStored(b: Books, ok: bool)
    requires Inv(b) && AtHand(b) && b.phase.written.None? && Allocated(Write(b, ok))
    ensures StoredIsHonest(Write(b, ok))
  {
    var t := Write(b, ok);
    forall k, v | IsReal(b, k, v) ensures IsReal(t, k, v) {
    }
    assert IsReal(b, Current(b).key, Current(b).version);
  }

  /** A write for a bucket that was flushed away would have to be newer than the whole of it. */
  lemma WriteKeepsFlushed(b: Books, ok: bool)
    requires Inv(b) && AtHand(b) && b.phase.written.None? && Allocated(Write(b, ok))
    ensures FlushedWhole(Write(b, ok))
  {
    var t := Write(b, ok);
    var p := Current(b);
    assert IsReal(b, p.key, p.version) && IsNewer(b, p);
    forall id | id in t.flushed && IsNewest(t, id)
      ensures t.keyOf[id] in t.stored && t.stored[t.keyOf[id]] == Version(id, |t.accepted[id]|)
    {
      assert IsNewest(b, id);
    }
  }

  lemma SettleKeepsAllocated(b: Books)
    requires Inv(b) && AtHand(b) && b.phase.written.Some?
    ensures Allocated(Settle(b))
  {
    var p := Current(b);
    assert IsReal(b, p.key, p.version);
    assert IsComplete(b) ==> IsLive(b, p.version.bucket);
  }

  /** Settling leaves the bucket alone, or flushes it away. */
  lemma SettleKeepsAccounted(b: Books)
    requires Inv(b) && AtHand(b) && b.phase.written.Some? && Allocated(Settle(b))
    ensures Accounted(Settle(b))
  {
    var t := Settle(b);
    var p := Current(b);
    assert IsReal(b, p.key, p.version);
    forall id | id in t.keyOf
      ensures IsLive(t, id) == (IsLive(b, id) && id !in t.flushed)
    {
    }
  }

  lemma SettleKeepsPending(b: Books)
    requires Inv(b) && AtHand(b) && b.phase.written.Some? && Allocated(Settle(b))
    ensures PendingIsHonest(Settle(b))
  {
    var t := Settle(b);
    forall k, v | IsReal(b, k, v) ensures IsReal(t, k, v) {
    }
  }

  lemma SettleKeepsStored(b: Books)
    requires Inv(b) && AtHand(b) && b.phase.written.Some? && Allocated(Settle(b))
    ensures StoredIsHonest(Settle(b))
  {
    var t := Settle(b);
    var p := Current(b);
    forall k, v | IsReal(b, k, v) ensures IsReal(t, k, v) {
    }
    assert IsReal(b, p.key, p.version);
    if p.key in t.buckets && p.key in t.stored && b.phase.written == Some(true) {
      var live := b.buckets[p.key];
      assert IsLive(b, live);
      assert t.stored[p.key] == p.version;
      assert p.version.Before(Version(live, |b.accepted[live]|));
    }
  }

  lemma SettleKeepsFlushed(b: Books)
    requires Inv(b) && AtHand(b) && b.phase.written.Some? && Allocated(Settle(b))
    ensures FlushedWhole(Settle(b))
  {
    var t := Settle(b);
    forall id | id in t.flushed && IsNewest(t, id)
      ensures t.keyOf[id] in t.stored && t.stored[t.keyOf[id]] == Version(id, |t.accepted[id]|)
    {
      assert IsNewest(b, id);
      assert JustStored(b, Current(b).key) <==> b.phase.written == Some(true);
    }
  }

  // Every step and every run

  lemma StepKeepsInv(b: Books, step: Step)
    requires Inv(b) && Enabled(b, step)
    ensures Inv(Next(b, step))
  {
    match step
    case DoReport(key, arrival) => ReportKeepsInv(b, key, arrival);
    case DoRemove(serverId) =>
      RemoveKeepsBuckets(b, serverId);
      RemoveKeepsPending(b, serverId);
      RemoveKeepsStored(b, serverId);
      RemoveKeepsFlushed(b, serverId);
    case DoTakeGate => PhaseKeepsInv(b, Holding);
    case DoSnapshot(pending) => SnapshotKeepsInv(b, pending);
    case DoWrite(ok) =>
      WriteKeepsBuckets(b, ok);
      WriteKeepsPending(b, ok);
      WriteKeepsStored(b, ok);
      WriteKeepsFlushed(b, ok);
    case DoSettle =>
      SettleKeepsAllocated(b);
      SettleKeepsAccounted(b);
      SettleKeepsPending(b);
      SettleKeepsStored(b);
      SettleKeepsFlushed(b);
    case DoReleaseGate => PhaseKeepsInv(b, Idle);
  }

  // The reports of one key since its server was last removed

  ghost predicate RecentIsHonest(b: Books)
    requires Allocated(b)
  {
    && (forall key | key in b.buckets :: key in b.recent && b.recent[key].newest == b.buckets[key])
    && (forall key | key in b.recent :: IsRecent(b, key, b.recent[key]))
  }

  ghost predicate IsRecent(b: Books, key: BucketKey, r: Recent)
    requires Allocated(b)
  {
    && r.newest in b.keyOf && b.keyOf[r.newest] == key && IsNewest(b, r.newest) && r.newest !in b.removed
    && 1 <= r.buckets
    && (r.buckets == 1 ==> r.reports == b.accepted[r.newest])
    && (r.buckets > 1 ==> |r.reports| > |b.accepted[r.newest]|)
  }

  lemma JoinKeepsRecent(b: Books, key: BucketKey, arrival: Arrival)
    requires Inv(b) && RecentIsHonest(b) && key in b.buckets && Allocated(Join(b, key, arrival))
    ensures RecentIsHonest(Join(b, key, arrival))
  {
    var t := Join(b, key, arrival);
    forall id | id in b.keyOf ensures IsNewest(t, id) == IsNewest(b, id) {
    }
    forall k | k in t.recent
      ensures IsRecent(t, k, t.recent[k])
    {
      assert IsRecent(b, k, b.recent[k]);
    }
  }

  lemma OpenKeepsRecent(b: Books, key: BucketKey, arrival: Arrival)
    requires Inv(b) && RecentIsHonest(b) && key !in b.buckets && Allocated(Open(b, key, arrival))
    ensures RecentIsHonest(Open(b, key, arrival))
  {
    var t := Open(b, key, arrival);
    forall k | k in t.recent
      ensures IsRecent(t, k, t.recent[k])
    {
      if k in b.recent {
        assert IsRecent(b, k, b.recent[k]);
      }
    }
  }

  lemma RemoveKeepsRecent(b: Books, serverId: int)
    requires Inv(b) && RecentIsHonest(b) && Allocated(Remove(b, serverId))
    ensures RecentIsHonest(Remove(b, serverId))
  {
    var t := Remove(b, serverId);
    forall k | k in t.recent
      ensures IsRecent(t, k, t.recent[k])
    {
      assert IsRecent(b, k, b.recent[k]);
    }
  }

  lemma PhaseKeepsRecent(b: Books, phase: Phase)
    requires Inv(b) && RecentIsHonest(b)
    ensures RecentIsHonest(b.(phase := phase))
  {
    forall k | k in b.recent
      ensures IsRecent(b.(phase := phase), k, b.recent[k])
    {
      assert IsRecent(b, k, b.recent[k]);
    }
  }

  lemma WriteKeepsRecent(b: Books, ok: bool)
    requires Inv(b) && RecentIsHonest(b) && AtHand(b)
    ensures RecentIsHonest(Write(b, ok))
  {
    forall k | k in b.recent
      ensures IsRecent(Write(b, ok), k, b.recent[k])
    {
      assert IsRecent(b, k, b.recent[k]);
    }
  }

  lemma SettleKeepsRecent(b: Books)
    requires Inv(b) && RecentIsHonest(b) && AtHand(b) && b.phase.written.Some? && Allocated(Settle(b))
    ensures RecentIsHonest(Settle(b))
  {
    forall k | k in b.recent
      ensures IsRecent(Settle(b), k, b.recent[k])
    {
      assert IsRecent(b, k, b.recent[k]);
    }
  }

  lemma StepKeepsRecent(b: Books, step: Step)
    requires Inv(b) && RecentIsHonest(b) && Enabled(b, step) && Inv(Next(b, step))
    ensures RecentIsHonest(Next(b, step))
  {
    match step
    case DoReport(key, arrival) =>
      if key in b.buckets {
        JoinKeepsRecent(b, key, arrival);
      } else {
        OpenKeepsRecent(b, key, arrival);
      }
    case DoRemove(serverId) => RemoveKeepsRecent(b, serverId);
    case DoTakeGate => PhaseKeepsRecent(b, Holding);
    case DoSnapshot(pending) => PhaseKeepsRecent(b, Writing(pending, 0, None));
    case DoWrite(ok) => WriteKeepsRecent(b, ok);
    case DoSettle => SettleKeepsRecent(b);
    case DoReleaseGate => PhaseKeepsRecent(b, Idle);
  }

  // Runs

  ghost predicate IsRun(start: Books, steps: seq<Step>, end: Books)
    decreases |steps|
  {
    if steps == [] then end == start
    else
      var last := |steps| - 1;
      exists before ::
        IsRun(start, steps[..last], before) && Enabled(before, steps[last]) && end == Next(before, steps[last])
  }

  ghost predicate Reachable(b: Books) {
    exists steps :: IsRun(START, steps, b)
  }

  lemma {:induction false} RunKeepsInv(start: Books, steps: seq<Step>, end: Books)
    requires Inv(start) && RecentIsHonest(start) && IsRun(start, steps, end)
    ensures Inv(end) && RecentIsHonest(end)
    decreases |steps|
  {
    if steps != [] {
      var last := |steps| - 1;
      var before :|
        IsRun(start, steps[..last], before) && Enabled(before, steps[last]) && end == Next(before, steps[last]);
      RunKeepsInv(start, steps[..last], before);
      StepKeepsInv(before, steps[last]);
      StepKeepsRecent(before, steps[last]);
    }
  }

  lemma ReachableInv(b: Books)
    requires Reachable(b)
    ensures Inv(b) && RecentIsHonest(b)
  {
    var steps :| IsRun(START, steps, b);
    StartInv();
    RunKeepsInv(START, steps, b);
  }

  /** No accepted report is lost: its bucket is still in memory, was removed with its server, or was stored whole. */
  lemma NothingIsLost(b: Books, id: nat)
    requires Reachable(b) && id in b.accepted
    ensures id in b.keyOf
    ensures IsLive(b, id) || id in b.removed || id in b.flushed
    ensures id in b.flushed && IsNewest(b, id) ==>
      b.keyOf[id] in b.stored && b.stored[b.keyOf[id]] == Version(id, |b.accepted[id]|)
  {
    ReachableInv(b);
  }

  /**
   Settling takes a bucket out of memory only after a successful write of everything it accepted, and never
   another bucket of the same key, even if the counts coincide.
   */
  lemma FlushRemovesOnlyWhatItStored(b: Books, key: BucketKey)
    requires Reachable(b) && AtHand(b) && b.phase.written.Some?
    requires key in b.buckets && key !in Settle(b).buckets
    ensures var p := Current(b);
      && p.key == key && p.version == Version(b.buckets[key], |b.accepted[b.buckets[key]]|)
      && b.phase.written == Some(true) && key in b.stored && b.stored[key] == p.version
  {
    ReachableInv(b);
    assert JustStored(b, key);
  }

  /** A slow flush never replaces a newer row by an older one. */
  lemma WritesMoveForward(b: Books)
    requires Reachable(b) && AtHand(b) && b.phase.written.None? && Current(b).key in b.stored
    ensures b.stored[Current(b).key].Before(Current(b).version)
  {
    ReachableInv(b);
    assert IsNewer(b, Current(b));
  }

  /**
   Once a key has left memory by a flush, its stored version covers every report since the server's last removal
   exactly when they all went into one bucket, that is when none arrived after a flush had taken the bucket away.
   */
  lemma StoredCoversEverythingExactly(b: Books, key: BucketKey)
    requires Reachable(b) && key in b.recent && key !in b.buckets
    ensures key in b.stored && b.stored[key].bucket in b.accepted
    ensures b.stored[key].count <= |b.accepted[b.stored[key].bucket]|
    ensures b.accepted[b.stored[key].bucket][..b.stored[key].count] == b.recent[key].reports
            <==> b.recent[key].buckets == 1
  {
    ReachableInv(b);
    var id := b.recent[key].newest;
    assert IsRecent(b, key, b.recent[key]);
    assert !IsLive(b, id) && id in b.flushed;
    assert b.accepted[id][..|b.accepted[id]|] == b.accepted[id];
  }

  lemma Continue(b: Books, step: Step)
    requires Reachable(b) && Enabled(b, step)
    ensures Reachable(Next(b, step))
  {
    var steps :| IsRun(START, steps, b);
    assert (steps + [step])[..|steps|] == steps;
    assert IsRun(START, steps + [step], Next(b, step));
  }

  /** A whole successful flush of a system with one bucket. */
  lemma FlushOnly(b: Books, key: BucketKey) returns (after: Books)
    requires Reachable(b) && b.phase.Idle? && b.buckets.Keys == {key}
    requires b.buckets[key] in b.accepted
    ensures Reachable(after)
    ensures var id := b.buckets[key];
      after == b.(buckets := map[], flushed := b.flushed + {id},
                  stored := b.stored[key := Version(id, |b.accepted[id]|)])
  {
    var id := b.buckets[key];
    var pending := [Pending(key, Version(id, |b.accepted[id]|))];
    Continue(b, DoTakeGate);
    var held := b.(phase := Holding);
    Continue(held, DoSnapshot(pending));
    var taken := b.(phase := Writing(pending, 0, None));
    Continue(taken, DoWrite(true));
    var written := Write(taken, true);
    Continue(written, DoSettle);
    var settled := Settle(written);
    Continue(settled, DoReleaseGate);
    after := settled.(phase := Idle);
  }

  /** A report that arrives after the flush of its minute replaces what the earlier ones had stored. */
  lemma LateReportReplaces(key: BucketKey, first: Arrival, late: Arrival) returns (b: Books)
    ensures Reachable(b) && key in b.recent && key !in b.buckets && key in b.stored
    ensures b.recent[key].reports == [first, late]
    ensures b.stored[key].bucket in b.accepted && b.stored[key].count == 1
    ensures b.accepted[b.stored[key].bucket] == [late]
  {
    assert IsRun(START, [], START);
    Continue(START, DoReport(key, first));
    var flushed := FlushOnly(Report(START, key, first), key);
    Continue(flushed, DoReport(key, late));
    b := FlushOnly(Report(flushed, key, late), key);
  }
}
