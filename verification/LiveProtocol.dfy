/**
 Every run of reports, sweeps, updates and deletions under the coordinator's lock, beside creations, token rotations
 and flushes that do not take it.
 */
module LiveProtocol {
  import opened Wrappers
  import opened Protocol
  import opened LiveModel
  import opened ServerRegistry
  import opened LiveStore
  import opened Coordination
  import Aggregation

  /** The site, and the server whose report holds the lock, as it was when its token was looked up. */
  datatype World = World(site: Site, entered: Option<Server>)

  const START := World(Site(Ledger(map[], 0), map[], Aggregation.Memory(map[], 0, map[]), []), None)

  datatype Step =
    | DoCreate(name: string, token: string, now: int, fails: bool)
    | DoRotate(id: int, token: string, now: int, fails: bool)
    | DoSettle(candidate: Aggregation.Candidate, written: bool)
    | DoEnter(token: string)
    | DoReceive(report: AgentReport, receivedAt: int, sourceIp: string, mutation: Mutation)
    | DoSweep(cutoff: int, changed: seq<Snapshot>)
    | DoUpdate(id: int, change: Option<string>, enabled: Option<bool>, now: int, mutation: Mutation)
    | DoDelete(id: int, mutation: Mutation)

  /** These steps wait for the lock. */
  predicate NeedsLock(step: Step) {
    step.DoEnter? || step.DoSweep? || step.DoUpdate? || step.DoDelete?
  }

  ghost function Enter(w: World, token: string): World {
    var server := Authenticated(w.site.ledger, token);
    if server.Success? then w.(entered := Some(server.value)) else w
  }

  function Receive(w: World, report: AgentReport, receivedAt: int, sourceIp: string, m: Mutation): World
    requires w.site.memory.Valid()
  {
    if w.entered.None? then w
    else World(Received(w.site, w.entered.value, report, receivedAt, sourceIp, m), None)
  }

  ghost function SweptSite(s: Site, cutoff: int, changed: seq<Snapshot>): Site {
    if IsChanged(s.snapshots, cutoff, changed)
    then s.(snapshots := AfterSweep(s.snapshots, cutoff), published := s.published + OfflineEvents(changed))
    else s
  }

  function UpdatedSite(s: Site, id: int, name: Option<string>, enabled: Option<bool>, now: int, m: Mutation): Site {
    var request := Request(name, enabled);
    if request.Failure? then s else Renamed(s, id, request.value, enabled, now, m)
  }

  ghost function Next(w: World, step: Step): World
    requires w.site.memory.Valid()
  {
    if NeedsLock(step) && w.entered.Some? then w
    else
      match step
      case DoCreate(name, token, now, fails) =>
        w.(site := w.site.(ledger := AfterCreate(w.site.ledger, name, token, now, fails)))
      case DoRotate(id, token, now, fails) =>
        w.(site := w.site.(ledger := AfterRotate(w.site.ledger, id, token, now, fails)))
      case DoSettle(candidate, written) =>
        if candidate.bucket in w.site.memory.heap
        then w.(site := w.site.(memory := Aggregation.Settled(w.site.memory, candidate, written)))
        else w
      case DoEnter(token) => Enter(w, token)
      case DoReceive(report, receivedAt, sourceIp, m) => Receive(w, report, receivedAt, sourceIp, m)
      case DoSweep(cutoff, changed) => w.(site := SweptSite(w.site, cutoff, changed))
      case DoUpdate(id, name, enabled, now, m) => w.(site := UpdatedSite(w.site, id, name, enabled, now, m))
      case DoDelete(id, m) => w.(site := Deleted(w.site, id, m))
  }

  // What holds of snapshots, buckets and events

  /** Every live snapshot belongs to a registered server and carries its current name. */
  ghost predicate SnapshotsFit(snapshots: Snapshots, rows: map<int, Row>) {
    forall id | id in snapshots ::
      id in rows && snapshots[id].serverId == id && snapshots[id].serverName == rows[id].server.name
  }

  /** Every bucket belongs to a registered server. */
  ghost predicate BucketsFit(memory: Aggregation.Memory, rows: map<int, Row>) {
    memory.Valid() && forall key | key in memory.buckets :: key.serverId in rows
  }

  ghost predicate EnteredFits(entered: Option<Server>, rows: map<int, Row>) {
    entered.Some? ==>
      && entered.value.id in rows && rows[entered.value.id].server.id == entered.value.id
      && rows[entered.value.id].server.name == entered.value.name
  }

  /** The events published for a server. */
  function EventsOf(published: seq<Event>, id: int): seq<Event> {
    if published == [] then []
    else
      var n := |published| - 1;
      EventsOf(published[..n], id) + if published[n].snapshot.serverId == id then [published[n]] else []
  }

  /** A stream starts online, never goes offline twice in a row, and its kinds tell offline snapshots apart. */
  ghost predicate IsStream(stream: seq<Event>) {
    && (forall i | 0 <= i < |stream| :: stream[i].kind == Offline <==> !stream[i].snapshot.online)
    && (forall i | 0 <= i < |stream| && stream[i].kind == Offline :: i > 0 && stream[i - 1].kind == Updated)
  }

  /** The last event tells all of the snapshot but a later change of name. */
  ghost predicate StreamFits(stream: seq<Event>, snapshots: Snapshots, id: int) {
    && IsStream(stream)
    && (id in snapshots ==>
          && stream != []
          && stream[|stream| - 1].snapshot.(serverName := snapshots[id].serverName) == snapshots[id])
  }

  ghost predicate StreamsFit(published: seq<Event>, snapshots: Snapshots) {
    forall id :: StreamFits(EventsOf(published, id), snapshots, id)
  }

  ghost predicate Fits(w: World) {
    var s := w.site;
    && s.ledger.Valid() && SnapshotsFit(s.snapshots, s.ledger.rows) && BucketsFit(s.memory, s.ledger.rows)
    && EnteredFits(w.entered, s.ledger.rows) && StreamsFit(s.published, s.snapshots)
  }

  // Streams

  lemma {:induction false} EventsOfJoins(a: seq<Event>, b: seq<Event>, id: int)
    ensures EventsOf(a + b, id) == EventsOf(a, id) + EventsOf(b, id)
  {
    if b == [] {
      assert a + b == a;
    } else {
      var n := |b| - 1;
      assert (a + b)[..|a| + n] == a + b[..n];
      EventsOfJoins(a, b[..n], id);
    }
  }

  /** A sweep publishes nothing for a server it did not take offline, and one event for one that it did. */
  lemma {:induction false} SweepEvents(s: Snapshots, cutoff: int, changed: seq<Snapshot>, n: nat, id: int)
    requires IsChanged(s, cutoff, changed) && n <= |changed|
    ensures (forall i | 0 <= i < n :: changed[i].serverId != id) ==> EventsOf(OfflineEvents(changed)[..n], id) == []
    ensures forall i | 0 <= i < n && changed[i].serverId == id ::
      EventsOf(OfflineEvents(changed)[..n], id) == [Event(Offline, changed[i])]
  {
    if n > 0 {
      var events := OfflineEvents(changed);
      assert events[..n][..n - 1] == events[..n - 1];
      assert events[..n][n - 1] == Event(Offline, changed[n - 1]);
      SweepEvents(s, cutoff, changed, n - 1, id);
    }
  }

  /** What a sweep adds to the stream of a server. */
  lemma SweepAdds(s: Snapshots, cutoff: int, changed: seq<Snapshot>, id: int)
    requires IsChanged(s, cutoff, changed)
    ensures EventsOf(OfflineEvents(changed), id) ==
      if id in s && Lapsed(s[id], cutoff) then [Event(Offline, s[id].(online := false))] else []
  {
    var events := OfflineEvents(changed);
    SweepEvents(s, cutoff, changed, |changed|, id);
    assert events[..|changed|] == events;
    if id in s && Lapsed(s[id], cutoff) {
      var i :| 0 <= i < |changed| && changed[i].serverId == id;
      assert EventsOf(events, id) == [Event(Offline, changed[i])];
    }
  }

  /** A sweep ends the stream of a server it takes offline with an offline event and leaves the others alone. */
  lemma SweepKeepsStream(published: seq<Event>, s: Snapshots, cutoff: int, changed: seq<Snapshot>, id: int)
    requires IsChanged(s, cutoff, changed) && StreamFits(EventsOf(published, id), s, id)
    ensures StreamFits(EventsOf(published + OfflineEvents(changed), id), AfterSweep(s, cutoff), id)
    ensures
      EventsOf(published + OfflineEvents(changed), id) == EventsOf(published, id) +
        if id in s && Lapsed(s[id], cutoff) then [Event(Offline, s[id].(online := false))] else []
  {
    EventsOfJoins(published, OfflineEvents(changed), id);
    SweepAdds(s, cutoff, changed, id);
    assert EventsOf(published, id) + [] == EventsOf(published, id);
  }

  lemma SweepKeeps(s: Site, cutoff: int, changed: seq<Snapshot>)
    requires SnapshotsFit(s.snapshots, s.ledger.rows) && StreamsFit(s.published, s.snapshots)
    ensures
      var next := SweptSite(s, cutoff, changed);
      SnapshotsFit(next.snapshots, next.ledger.rows) && StreamsFit(next.published, next.snapshots)
  {
    if IsChanged(s.snapshots, cutoff, changed) {
      forall id
        ensures StreamFits(EventsOf(s.published + OfflineEvents(changed), id), AfterSweep(s.snapshots, cutoff), id)
      {
        SweepKeepsStream(s.published, s.snapshots, cutoff, changed, id);
      }
    }
  }

  lemma ReceiveKeepsStreams(published: seq<Event>, snapshots: Snapshots, snapshot: Snapshot)
    requires StreamsFit(published, snapshots) && snapshot.online
    ensures StreamsFit(published + [Event(Updated, snapshot)], snapshots[snapshot.serverId := snapshot])
  {
    var event := Event(Updated, snapshot);
    forall id
      ensures StreamFits(EventsOf(published + [event], id), snapshots[snapshot.serverId := snapshot], id)
    {
      assert (published + [event])[..|published|] == published;
      assert StreamFits(EventsOf(published, id), snapshots, id);
      assert EventsOf(published, id) + [] == EventsOf(published, id);
    }
  }

  // Reports

  lemma AcceptedBuckets(memory: Aggregation.Memory, rows: map<int, Row>, id: int, report: AgentReport, receivedAt: int)
    requires BucketsFit(memory, rows) && id in rows
    ensures BucketsFit(Aggregation.Accepted(memory, id, report, receivedAt), rows)
  {
  }

  lemma BucketsOutliveRows(memory: Aggregation.Memory, rows: map<int, Row>, more: map<int, Row>)
    requires BucketsFit(memory, rows) && rows.Keys <= more.Keys
    ensures BucketsFit(memory, more)
  {
  }

  /** A report whose version was not recorded, or not as far as the coordinator knows, leaves memory alone. */
  lemma RefusedReportKeeps(w: World, report: AgentReport, receivedAt: int, sourceIp: string, m: Mutation)
    requires Fits(w) && m != Done
    ensures Fits(Receive(w, report, receivedAt, sourceIp, m))
  {
    if w.entered.Some? {
      var ledger := AfterVersion(w.site.ledger, w.entered.value.id, report.agentVersion, m);
      VersionIsValid(w.site.ledger, w.entered.value.id, report.agentVersion, m);
      LedgerMayGrow(w, ledger);
    }
  }

  lemma ReceiveKeeps(w: World, report: AgentReport, receivedAt: int, sourceIp: string, m: Mutation)
    requires Fits(w)
    ensures Fits(Receive(w, report, receivedAt, sourceIp, m))
  {
    if m != Done {
      RefusedReportKeeps(w, report, receivedAt, sourceIp, m);
    } else if w.entered.Some? {
      var s := w.site;
      var server := w.entered.value;
      var snapshot := SnapshotOf(server, report, receivedAt, sourceIp);
      var next := Received(s, server, report, receivedAt, sourceIp, m);
      VersionIsValid(s.ledger, server.id, report.agentVersion, m);
      ReceiveKeepsStreams(s.published, s.snapshots, snapshot);
      AcceptedBuckets(s.memory, s.ledger.rows, server.id, report, receivedAt);
      BucketsOutliveRows(next.memory, s.ledger.rows, next.ledger.rows);
      assert SnapshotsFit(next.snapshots, next.ledger.rows);
    }
  }

  // The registry

  /** Rows may come and change as long as none goes and none changes its name. */
  ghost predicate KeepsNames(rows: map<int, Row>, more: map<int, Row>) {
    rows.Keys <= more.Keys &&
    forall id | id in rows :: more[id].server.name == rows[id].server.name && more[id].server.id == rows[id].server.id
  }

  lemma LedgerMayGrow(w: World, ledger: Ledger)
    requires Fits(w) && ledger.Valid() && KeepsNames(w.site.ledger.rows, ledger.rows)
    ensures Fits(w.(site := w.site.(ledger := ledger)))
  {
    BucketsOutliveRows(w.site.memory, w.site.ledger.rows, ledger.rows);
  }

  lemma CreateKeeps(w: World, name: string, token: string, now: int, fails: bool)
    requires Fits(w)
    ensures Fits(w.(site := w.site.(ledger := AfterCreate(w.site.ledger, name, token, now, fails))))
  {
    var ledger := w.site.ledger;
    if CanCreate(ledger, name, token) && !fails {
      CreatedIsValid(ledger, TrimSpace(name), token, now);
    }
    LedgerMayGrow(w, AfterCreate(ledger, name, token, now, fails));
  }

  lemma RotateKeeps(w: World, id: int, token: string, now: int, fails: bool)
    requires Fits(w)
    ensures Fits(w.(site := w.site.(ledger := AfterRotate(w.site.ledger, id, token, now, fails))))
  {
    RotateIsValid(w.site.ledger, id, token, now, fails);
    LedgerMayGrow(w, AfterRotate(w.site.ledger, id, token, now, fails));
  }

  lemma UpdateIsValid(l: Ledger, id: int, name: Option<string>, enabled: Option<bool>, now: int, m: Mutation)
    requires l.Valid()
    ensures AfterUpdate(l, id, name, enabled, now, m).Valid()
  {
    if id in l.rows {
      WithServerIsValid(l, id, Changed(l.rows[id].server, name, enabled, now));
    }
  }

  lemma RenameKeepsStreams(published: seq<Event>, snapshots: Snapshots, id: int, name: string)
    requires StreamsFit(published, snapshots)
    ensures StreamsFit(published, AfterRename(snapshots, id, name))
  {
    forall other
      ensures StreamFits(EventsOf(published, other), AfterRename(snapshots, id, name), other)
    {
      assert StreamFits(EventsOf(published, other), snapshots, other);
    }
  }

  lemma UpdateKeeps(w: World, id: int, name: Option<string>, enabled: Option<bool>, now: int)
    requires Fits(w) && w.entered.None?
    ensures Fits(w.(site := Renamed(w.site, id, name, enabled, now, Done)))
  {
    var s := w.site;
    if id in s.ledger.rows {
      var next := Renamed(s, id, name, enabled, now, Done);
      UpdateIsValid(s.ledger, id, name, enabled, now, Done);
      BucketsOutliveRows(s.memory, s.ledger.rows, next.ledger.rows);
      RenameKeepsStreams(s.published, s.snapshots, id, next.ledger.rows[id].server.name);
    }
  }

  lemma DeleteKeepsStreams(published: seq<Event>, snapshots: Snapshots, id: int)
    requires StreamsFit(published, snapshots)
    ensures StreamsFit(published, snapshots - {id})
  {
    forall other
      ensures StreamFits(EventsOf(published, other), snapshots - {id}, other)
    {
      assert StreamFits(EventsOf(published, other), snapshots, other);
    }
  }

  lemma DeleteKeepsOwners(s: Site, id: int)
    requires SnapshotsFit(s.snapshots, s.ledger.rows) && BucketsFit(s.memory, s.ledger.rows)
    ensures
      var next := Deleted(s, id, Done);
      SnapshotsFit(next.snapshots, next.ledger.rows) && BucketsFit(next.memory, next.ledger.rows)
  {
  }

  lemma DeleteKeeps(w: World, id: int)
    requires Fits(w) && w.entered.None?
    ensures Fits(w.(site := Deleted(w.site, id, Done)))
  {
    DeleteIsValid(w.site.ledger, id);
    DeleteKeepsStreams(w.site.published, w.site.snapshots, id);
    DeleteKeepsOwners(w.site, id);
  }

  lemma SettleKeeps(w: World, candidate: Aggregation.Candidate, written: bool)
    requires Fits(w) && candidate.bucket in w.site.memory.heap
    ensures Fits(w.(site := w.site.(memory := Aggregation.Settled(w.site.memory, candidate, written))))
  {
  }

  // Mutations that take effect and yet report an error

  /** Some report or snapshot in memory is of the server. */
  ghost predicate IsRemembered(s: Site, id: int) {
    id in s.snapshots || exists key | key in s.memory.buckets :: key.serverId == id
  }

  /**
   Registry and memory stay together: whenever a mutation takes effect but reports an error, it deletes a server
   nothing in memory belongs to, or renames one that has no snapshot or to the name it has.
   */
  ghost predicate StaysTogether(w: World, step: Step) {
    && (step.DoDelete? && step.mutation == DoneButFailed && w.entered.None? && step.id in w.site.ledger.rows
        ==> !IsRemembered(w.site, step.id))
    && (step.DoUpdate? && step.mutation == DoneButFailed && w.entered.None? && step.id in w.site.snapshots
        && step.change.Some? && TrimSpace(step.change.value) != ""
        ==> TrimSpace(step.change.value) == w.site.snapshots[step.id].serverName)
  }

  lemma FailedDeleteExactly(w: World, id: int)
    requires Fits(w) && w.entered.None?
    ensures Fits(w.(site := Deleted(w.site, id, DoneButFailed)))
            <==> (id in w.site.ledger.rows ==> !IsRemembered(w.site, id))
  {
    var s := w.site;
    var next := Deleted(s, id, DoneButFailed);
    DeleteIsValid(s.ledger, id);
    if id in s.ledger.rows && IsRemembered(s, id) {
      if id !in s.snapshots {
        var key :| key in s.memory.buckets && key.serverId == id;
        assert key in next.memory.buckets && key.serverId !in next.ledger.rows;
      }
    } else {
      assert id !in s.ledger.rows ==> id !in s.snapshots;
    }
  }

  lemma FailedUpdateExactly(w: World, id: int, name: Option<string>, enabled: Option<bool>, now: int)
    requires Fits(w) && w.entered.None?
    ensures Fits(w.(site := Renamed(w.site, id, name, enabled, now, DoneButFailed)))
            <==> (id in w.site.snapshots && name.Some? ==> name.value == w.site.snapshots[id].serverName)
  {
    var s := w.site;
    UpdateIsValid(s.ledger, id, name, enabled, now, DoneButFailed);
    var next := Renamed(s, id, name, enabled, now, DoneButFailed);
    BucketsOutliveRows(s.memory, s.ledger.rows, next.ledger.rows);
    assert SnapshotsFit(s.snapshots, s.ledger.rows);
    if id in s.snapshots && name.Some? && name.value != s.snapshots[id].serverName {
      assert next.ledger.rows[id].server.name != next.snapshots[id].serverName;
    } else {
      assert SnapshotsFit(next.snapshots, next.ledger.rows);
    }
  }

  /** Steps that do not take the lock, or find it taken. */
  lemma FreeStepKeeps(w: World, step: Step)
    requires Fits(w) && (!NeedsLock(step) || w.entered.Some?)
    ensures Fits(Next(w, step))
  {
    match step
    case DoCreate(name, token, now, fails) => CreateKeeps(w, name, token, now, fails);
    case DoRotate(id, token, now, fails) => RotateKeeps(w, id, token, now, fails);
    case DoSettle(candidate, written) =>
      if candidate.bucket in w.site.memory.heap {
        SettleKeeps(w, candidate, written);
      }
    case DoReceive(report, receivedAt, sourceIp, m) => ReceiveKeeps(w, report, receivedAt, sourceIp, m);
    case _ =>
  }

  lemma EnterKeeps(w: World, token: string)
    requires Fits(w)
    ensures Fits(Enter(w, token))
  {
  }

  /** A step keeps registry, memory and streams together exactly if it is no mutation that strays. */
  lemma StepExactly(w: World, step: Step)
    requires Fits(w)
    ensures Fits(Next(w, step)) <==> StaysTogether(w, step)
  {
    if !NeedsLock(step) || w.entered.Some? {
      FreeStepKeeps(w, step);
    } else {
      LockedStepExactly(w, step);
    }
  }

  lemma LockedStepExactly(w: World, step: Step)
    requires Fits(w) && NeedsLock(step) && w.entered.None?
    ensures Fits(Next(w, step)) <==> StaysTogether(w, step)
  {
    match step
    case DoEnter(token) => EnterStepKeeps(w, token);
    case DoSweep(cutoff, changed) => SweepStepKeeps(w, cutoff, changed);
    case DoUpdate(id, change, enabled, now, m) =>
      NextUpdates(w, id, change, enabled, now, m);
      UpdateExactly(w, id, change, enabled, now, m);
    case DoDelete(id, m) =>
      NextDeletes(w, id, m);
      DeleteExactly(w, id, m);
  }

  lemma EnterStepKeeps(w: World, token: string)
    requires Fits(w)
    ensures Fits(Next(w, DoEnter(token)))
  {
    EnterKeeps(w, token);
  }

  lemma SweepStepKeeps(w: World, cutoff: int, changed: seq<Snapshot>)
    requires Fits(w)
    ensures Fits(Next(w, DoSweep(cutoff, changed)))
  {
    SweptWorldFits(w, cutoff, changed);
  }

  lemma NextUpdates(w: World, id: int, change: Option<string>, enabled: Option<bool>, now: int, m: Mutation)
    requires w.site.memory.Valid() && w.entered.None?
    ensures Next(w, DoUpdate(id, change, enabled, now, m))
            == w.(site := UpdatedSite(w.site, id, change, enabled, now, m))
  {
  }

  lemma NextDeletes(w: World, id: int, m: Mutation)
    requires w.site.memory.Valid() && w.entered.None?
    ensures Next(w, DoDelete(id, m)) == w.(site := Deleted(w.site, id, m))
  {
  }

  lemma SweptWorldFits(w: World, cutoff: int, changed: seq<Snapshot>)
    requires Fits(w)
    ensures Fits(w.(site := SweptSite(w.site, cutoff, changed)))
  {
    SweepKeeps(w.site, cutoff, changed);
  }

  lemma UpdateExactly(w: World, id: int, change: Option<string>, enabled: Option<bool>, now: int, m: Mutation)
    requires Fits(w) && w.entered.None?
    ensures Fits(w.(site := UpdatedSite(w.site, id, change, enabled, now, m)))
            <==> StaysTogether(w, DoUpdate(id, change, enabled, now, m))
  {
    var request := Request(change, enabled);
    if request.Success? {
      match m
      case Done => UpdateKeeps(w, id, request.value, enabled, now);
      case Refused => assert w.site.(ledger := w.site.ledger) == w.site;
      case DoneButFailed => FailedUpdateExactly(w, id, request.value, enabled, now);
    }
  }

  lemma DeleteExactly(w: World, id: int, m: Mutation)
    requires Fits(w) && w.entered.None?
    ensures Fits(w.(site := Deleted(w.site, id, m))) <==> StaysTogether(w, DoDelete(id, m))
  {
    match m
    case Done => DeleteKeeps(w, id);
    case Refused => assert w.site.(ledger := w.site.ledger) == w.site;
    case DoneButFailed => FailedDeleteExactly(w, id);
  }

  // Runs

  lemma NextIsValid(w: World, step: Step)
    requires w.site.memory.Valid()
    ensures Next(w, step).site.memory.Valid()
  {
  }

  lemma PublishedGrows(w: World, step: Step)
    requires w.site.memory.Valid()
    ensures w.site.published <= Next(w, step).site.published
  {
  }

  lemma LastIdGrows(w: World, step: Step)
    requires w.site.memory.Valid()
    ensures w.site.ledger.lastId <= Next(w, step).site.ledger.lastId
  {
  }

  ghost function After(w: World, steps: seq<Step>): (next: World)
    requires w.site.memory.Valid()
    ensures next.site.memory.Valid()
  {
    if steps == [] then w
    else
      var n := |steps| - 1;
      NextIsValid(After(w, steps[..n]), steps[n]);
      Next(After(w, steps[..n]), steps[n])
  }

  /** No mutation of the run takes effect while reporting an error, but where that does no harm. */
  ghost predicate NoneStrays(w: World, steps: seq<Step>)
    requires w.site.memory.Valid()
  {
    forall i | 0 <= i < |steps| :: StaysTogether(After(w, steps[..i]), steps[i])
  }

  lemma PrefixStaysTogether(w: World, steps: seq<Step>)
    requires w.site.memory.Valid() && steps != [] && NoneStrays(w, steps)
    ensures NoneStrays(w, steps[..|steps| - 1])
  {
    var before := steps[..|steps| - 1];
    forall i | 0 <= i < |before| ensures StaysTogether(After(w, before[..i]), before[i]) {
      assert before[..i] == steps[..i];
      assert StaysTogether(After(w, steps[..i]), steps[i]);
    }
  }

  lemma {:induction false} RunsFit(w: World, steps: seq<Step>)
    requires Fits(w) && NoneStrays(w, steps)
    ensures Fits(After(w, steps))
  {
    if steps != [] {
      var n := |steps| - 1;
      PrefixStaysTogether(w, steps);
      RunsFit(w, steps[..n]);
      assert StaysTogether(After(w, steps[..n]), steps[n]);
      StepExactly(After(w, steps[..n]), steps[n]);
    }
  }

  /**
   In every reachable state live snapshots and history buckets belong to registered servers, snapshots carry current
   names, and no stream of events has two offline events in a row.
   */
  lemma MemoryFollowsRegistry(steps: seq<Step>)
    requires NoneStrays(START, steps)
    ensures
      var s := After(START, steps).site;
      && SnapshotsFit(s.snapshots, s.ledger.rows) && BucketsFit(s.memory, s.ledger.rows)
      && forall id :: IsStream(EventsOf(s.published, id))
  {
    RunsFit(START, steps);
    var s := After(START, steps).site;
    forall id ensures IsStream(EventsOf(s.published, id)) {
      assert StreamFits(EventsOf(s.published, id), s.snapshots, id);
    }
  }

  /** An identifier that was given out and is registered no more. */
  predicate IsGone(l: Ledger, id: int) {
    1 <= id <= l.lastId && id !in l.rows
  }

  lemma ReceiveKeepsGone(w: World, report: AgentReport, receivedAt: int, sourceIp: string, m: Mutation, id: int)
    requires Fits(w) && IsGone(w.site.ledger, id)
    ensures
      var next := Receive(w, report, receivedAt, sourceIp, m);
      IsGone(next.site.ledger, id) && EventsOf(next.site.published, id) == EventsOf(w.site.published, id)
  {
    if w.entered.Some? && m == Done {
      var event := Event(Updated, SnapshotOf(w.entered.value, report, receivedAt, sourceIp));
      assert (w.site.published + [event])[..|w.site.published|] == w.site.published;
      assert EventsOf(w.site.published, id) + [] == EventsOf(w.site.published, id);
    }
  }

  lemma SweepKeepsGone(s: Site, cutoff: int, changed: seq<Snapshot>, id: int)
    requires StreamFits(EventsOf(s.published, id), s.snapshots, id) && id !in s.snapshots
    ensures EventsOf(SweptSite(s, cutoff, changed).published, id) == EventsOf(s.published, id)
  {
    if IsChanged(s.snapshots, cutoff, changed) {
      SweepKeepsStream(s.published, s.snapshots, cutoff, changed, id);
      assert EventsOf(s.published, id) + [] == EventsOf(s.published, id);
    }
  }

  lemma StepKeepsGone(w: World, step: Step, id: int)
    requires Fits(w) && IsGone(w.site.ledger, id)
    ensures IsGone(Next(w, step).site.ledger, id)
    ensures EventsOf(Next(w, step).site.published, id) == EventsOf(w.site.published, id)
  {
    if step.DoReceive? {
      ReceiveKeepsGone(w, step.report, step.receivedAt, step.sourceIp, step.mutation, id);
    } else if step.DoSweep? {
      assert StreamFits(EventsOf(w.site.published, id), w.site.snapshots, id);
      SweepKeepsGone(w.site, step.cutoff, step.changed, id);
    }
  }

  /**
   Nothing of a deleted server ever comes back: no row, no snapshot, no bucket, no event, whatever reports, sweeps
   and creations follow.
   */
  lemma {:induction false} DeletedStaysGone(w: World, steps: seq<Step>, id: int)
    requires Fits(w) && IsGone(w.site.ledger, id) && NoneStrays(w, steps)
    ensures
      var s := After(w, steps).site;
      && IsGone(s.ledger, id) && !IsRemembered(s, id)
      && EventsOf(s.published, id) == EventsOf(w.site.published, id)
  {
    RunsFit(w, steps);
    if steps != [] {
      var n := |steps| - 1;
      PrefixStaysTogether(w, steps);
      DeletedStaysGone(w, steps[..n], id);
      RunsFit(w, steps[..n]);
      StepKeepsGone(After(w, steps[..n]), steps[n], id);
    }
  }

  /** A report whose token was good when it was sent is refused once its server is deleted. */
  lemma TokenDiesWithServer(l: Ledger, token: string)
    requires l.Valid() && IsTaken(l, token)
    ensures Authenticated(AfterDelete(l, Holder(l, token), Done), token) == Failure(InvalidToken)
  {
    assert forall id | id in l.rows && l.rows[id].token == token :: id == Holder(l, token);
  }

  // Witnesses

  lemma OneMoreStep(w: World, steps: seq<Step>, step: Step)
    requires w.site.memory.Valid() && NoneStrays(w, steps) && StaysTogether(After(w, steps), step)
    ensures After(w, steps + [step]) == Next(After(w, steps), step)
    ensures NoneStrays(w, steps + [step])
  {
    var more := steps + [step];
    assert more[..|steps|] == steps;
    forall i | 0 <= i < |more| ensures StaysTogether(After(w, more[..i]), more[i]) {
      assert more[..i] == steps[..i];
      assert steps[..|steps|] == steps;
      assert i < |steps| ==> StaysTogether(After(w, steps[..i]), steps[i]);
    }
  }

  lemma FirstServer(name: string, token: string, at: int)
    requires TrimSpace(name) != ""
    ensures Next(START, DoCreate(name, token, at, false)).site.ledger
            == Ledger(map[1 := Row(Server(1, TrimSpace(name), true, "", at, at), token)], 1)
    ensures Next(START, DoCreate(name, token, at, false)).entered.None?
  {
  }

  lemma FirstEntry(w: World, server: Server, token: string)
    requires w.site.memory.Valid() && w.entered.None?
    requires w.site.ledger.rows == map[1 := Row(server, token)] && server.enabled
    ensures Next(w, DoEnter(token)) == w.(entered := Some(server))
  {
    assert w.site.ledger.rows[1].token == token;
    assert Holder(w.site.ledger, token) == 1;
  }

  lemma FirstReport(w: World, report: AgentReport, at: int)
    requires w.site.memory.Valid() && w.entered.Some? && w.entered.value.id == 1 && 1 in w.site.ledger.rows
    ensures
      var next := Next(w, DoReceive(report, at, "", Done));
      && next.entered.None? && 1 in next.site.snapshots && 1 in next.site.ledger.rows
      && next.site.snapshots[1].serverName == w.entered.value.name
  {
  }

  /** A run that registers a server and takes in a report of it. */
  lemma ReportedServer(name: string, token: string, report: AgentReport, at: int) returns (steps: seq<Step>, w: World)
    requires TrimSpace(name) != ""
    ensures NoneStrays(START, steps) && w == After(START, steps) && w.entered.None? && w.site.memory.Valid()
    ensures 1 in w.site.snapshots && 1 in w.site.ledger.rows && w.site.snapshots[1].serverName == TrimSpace(name)
  {
    var create, enter, receive := DoCreate(name, token, at, false), DoEnter(token), DoReceive(report, at, "", Done);
    FirstServer(name, token, at);
    OneMoreStep(START, [], create);
    assert [] + [create] == [create];
    w := Next(START, create);
    FirstEntry(w, Server(1, TrimSpace(name), true, "", at, at), token);
    OneMoreStep(START, [create], enter);
    w := Next(w, enter);
    FirstReport(w, report, at);
    OneMoreStep(START, [create] + [enter], receive);
    w := Next(w, receive);
    steps := [create] + [enter] + [receive];
  }

  lemma DeleteStrands(w: World, id: int)
    requires w.site.memory.Valid() && w.entered.None? && id in w.site.snapshots
    ensures
      var s := Next(w, DoDelete(id, DoneButFailed)).site;
      id in s.snapshots && id !in s.ledger.rows
  {
  }

  lemma FailedUpdateKeepsSnapshots(s: Site, id: int, newName: string, at: int)
    requires id in s.ledger.rows && TrimSpace(newName) != ""
    ensures
      var next := UpdatedSite(s, id, Some(newName), None, at, DoneButFailed);
      next.snapshots == s.snapshots && id in next.ledger.rows && next.ledger.rows[id].server.name == TrimSpace(newName)
  {
    assert Request(Some(newName), None) == Success(Some(TrimSpace(newName)));
  }

  lemma RenameStrands(w: World, id: int, newName: string, at: int)
    requires w.site.memory.Valid() && w.entered.None? && id in w.site.ledger.rows && TrimSpace(newName) != ""
    ensures
      var s := Next(w, DoUpdate(id, Some(newName), None, at, DoneButFailed)).site;
      s.snapshots == w.site.snapshots && id in s.ledger.rows && s.ledger.rows[id].server.name == TrimSpace(newName)
  {
    var step := DoUpdate(id, Some(newName), None, at, DoneButFailed);
    FailedUpdateKeepsSnapshots(w.site, id, newName, at);
    assert Next(w, step).site == UpdatedSite(w.site, id, Some(newName), None, at, DoneButFailed);
  }

  /** A deletion that takes effect but reports an error can leave the snapshot of a server that is gone. */
  lemma FailedDeleteStrands(name: string, token: string, report: AgentReport, at: int)
    returns (steps: seq<Step>, w: World)
    requires TrimSpace(name) != ""
    ensures NoneStrays(START, steps) && w == After(START, steps) && 1 in w.site.ledger.rows
    ensures
      var s := Next(w, DoDelete(1, DoneButFailed)).site;
      1 in s.snapshots && 1 !in s.ledger.rows
  {
    steps, w := ReportedServer(name, token, report, at);
    DeleteStrands(w, 1);
  }

  /** A renaming that takes effect but reports an error can leave a snapshot with the old name. */
  lemma FailedRenameStrands(name: string, newName: string, token: string, report: AgentReport, at: int)
    returns (steps: seq<Step>, w: World)
    requires TrimSpace(name) != "" && TrimSpace(newName) != "" && TrimSpace(newName) != TrimSpace(name)
    ensures NoneStrays(START, steps) && w == After(START, steps)
    ensures
      var s := Next(w, DoUpdate(1, Some(newName), None, at, DoneButFailed)).site;
      && 1 in s.snapshots && 1 in s.ledger.rows
      && s.snapshots[1].serverName == TrimSpace(name) != TrimSpace(newName) == s.ledger.rows[1].server.name
  {
    steps, w := ReportedServer(name, token, report, at);
    RenameStrands(w, 1, newName, at);
  }
}
