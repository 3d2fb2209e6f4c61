/** Every run of the minute aggregator and its store: what stored rows and buckets hold, and what a flush does. */
module AggregationRuns {
  import opened Wrappers
  import opened HistoryModel
  import opened Folding
  import opened Aggregation
  import opened AccumulationLaws
  import opened FlushProtocol
  import opened AggregationLaws

  // Runs of the system

  /** Every event of the run is possible when it happens. */
  ghost predicate CanRun(events: seq<Event>)
    decreases |events|, 0
  {
    events == [] || (CanRun(events[..|events| - 1]) && Possible(RunTo(events[..|events| - 1]), events[|events| - 1]))
  }

  ghost function RunTo(events: seq<Event>): System
    requires CanRun(events)
    decreases |events|, 1
  {
    if events == [] then EMPTY_SYSTEM else AggregationLaws.After(RunTo(events[..|events| - 1]), events[|events| - 1])
  }

  /** The books of a run. */
  ghost function BooksOf(events: seq<Event>): Books {
    if events == [] then START
    else BooksAfter(BooksOf(events[..|events| - 1]), events[|events| - 1])
  }

  ghost function BooksAfter(b: Books, event: Event): Books {
    var step := Recorded(event);
    if step.Some? && Enabled(b, step.value) then Next(b, step.value) else b
  }

  /** Every run of the system has books that describe it, and each of its events is a step of them or drops a row. */
  lemma {:induction false} RunsHaveBooks(events: seq<Event>)
    requires CanRun(events)
    ensures Matches(RunTo(events), BooksOf(events)) && Reachable(BooksOf(events))
    ensures events != [] && Recorded(events[|events| - 1]).Some? ==>
      Enabled(BooksOf(events[..|events| - 1]), Recorded(events[|events| - 1]).value)
  {
    if events == [] {
      assert IsRun(START, [], START);
    } else {
      var before, event := events[..|events| - 1], events[|events| - 1];
      RunsHaveBooks(before);
      ReachableInv(BooksOf(before));
      EventMatches(RunTo(before), BooksOf(before), event);
      if Recorded(event).Some? {
        Continue(BooksOf(before), Recorded(event).value);
      }
    }
  }

  // What the events say of one key

  /**
   The reports of a key since its server was last removed, how many buckets were made for them, and those that went
   into the newest bucket.
   */
  datatype Account = Account(reports: seq<Arrival>, buckets: nat, newest: seq<Arrival>)

  ghost function AccountOf(events: seq<Event>, key: BucketKey): Account
    requires CanRun(events)
  {
    if events == [] then Account([], 0, [])
    else
      var before := events[..|events| - 1];
      AccountAfter(AccountOf(before, key), key, events[|events| - 1], key in RunTo(before).memory.buckets)
  }

  function AccountAfter(account: Account, key: BucketKey, event: Event, open: bool): Account {
    match event
    case Accept(serverId, report, receivedAt) =>
      var arrival := Arrival(report, receivedAt);
      if KeyFor(serverId, receivedAt) != key then account
      else if open then Account(account.reports + [arrival], account.buckets, account.newest + [arrival])
      else Account(account.reports + [arrival], account.buckets + 1, [arrival])
    case RemoveServer(serverId) => if serverId == key.serverId then Account([], 0, []) else account
    case _ => account
  }

  /** The books' entry for a key. */
  ghost predicate Agrees(b: Books, key: BucketKey, account: Account) {
    if key in b.recent then
      && b.recent[key].newest in b.accepted
      && account == Account(b.recent[key].reports, b.recent[key].buckets, b.accepted[b.recent[key].newest])
    else account == Account([], 0, [])
  }

  lemma OtherReportAgrees(b: Books, key: BucketKey, k: BucketKey, arrival: Arrival, account: Account)
    requires FlushProtocol.Inv(b) && RecentIsHonest(b) && Agrees(b, key, account) && k != key
    ensures Agrees(Report(b, k, arrival), key, account)
  {
    if key in b.recent {
      assert IsRecent(b, key, b.recent[key]);
    }
  }

  lemma OwnReportAgrees(b: Books, key: BucketKey, arrival: Arrival, account: Account)
    requires FlushProtocol.Inv(b) && RecentIsHonest(b) && Agrees(b, key, account)
    ensures Agrees(Report(b, key, arrival), key,
                   if key in b.buckets
                   then Account(account.reports + [arrival], account.buckets, account.newest + [arrival])
                   else Account(account.reports + [arrival], account.buckets + 1, [arrival]))
  {
  }

  lemma BooksAfterAccept(b: Books, event: Event)
    requires event.Accept?
    ensures BooksAfter(b, event) ==
      Report(b, KeyFor(event.serverId, event.receivedAt), Arrival(event.report, event.receivedAt))
  {
  }

  lemma AcceptAgrees(b: Books, key: BucketKey, event: Event, account: Account)
    requires FlushProtocol.Inv(b) && RecentIsHonest(b) && Agrees(b, key, account) && event.Accept?
    ensures Agrees(BooksAfter(b, event), key, AccountAfter(account, key, event, key in b.buckets))
  {
    var k, arrival := KeyFor(event.serverId, event.receivedAt), Arrival(event.report, event.receivedAt);
    BooksAfterAccept(b, event);
    if k == key {
      OwnReportAgrees(b, key, arrival, account);
    } else {
      OtherReportAgrees(b, key, k, arrival, account);
      assert AccountAfter(account, key, event, key in b.buckets) == account;
    }
  }

  lemma RemoveAgrees(b: Books, key: BucketKey, serverId: int, account: Account)
    requires Agrees(b, key, account)
    ensures Agrees(Remove(b, serverId), key, AccountAfter(account, key, RemoveServer(serverId), key in b.buckets))
  {
  }

  lemma FlushAgrees(b: Books, key: BucketKey, event: Event, account: Account)
    requires Agrees(b, key, account) && !event.Accept? && !event.RemoveServer?
    ensures Agrees(BooksAfter(b, event), key, account)
  {
    var next := BooksAfter(b, event);
    assert next.recent == b.recent && next.accepted == b.accepted;
  }

  lemma {:induction false} AccountsAgree(events: seq<Event>, key: BucketKey)
    requires CanRun(events)
    ensures Agrees(BooksOf(events), key, AccountOf(events, key))
  {
    if events != [] {
      var before, event := events[..|events| - 1], events[|events| - 1];
      var s, b := RunTo(before), BooksOf(before);
      AccountsAgree(before, key);
      RunsHaveBooks(before);
      ReachableInv(b);
      if event.Accept? {
        AcceptAgrees(b, key, event, AccountOf(before, key));
      } else if event.RemoveServer? {
        RemoveAgrees(b, key, event.serverId, AccountOf(before, key));
        assert BooksAfter(b, event) == Remove(b, event.serverId);
      } else {
        FlushAgrees(b, key, event, AccountOf(before, key));
      }
    }
  }

  // What memory and store hold

  lemma RowMatchesAccount(s: System, b: Books, key: BucketKey, account: Account)
    requires Matches(s, b) && FlushProtocol.Inv(b) && RecentIsHonest(b) && Agrees(b, key, account)
    requires key in b.recent && key !in b.buckets && key in s.rows
    ensures s.rows[key] == RecordOf(key, account.newest)
    ensures account.buckets == 1 ==> account.newest == account.reports
  {
    var id := b.recent[key].newest;
    assert IsRecent(b, key, b.recent[key]);
    assert !IsLive(b, id) && id in b.flushed;
    assert b.accepted[id][..|b.accepted[id]|] == b.accepted[id];
  }

  /**
   Once a minute has left memory by a flush, its stored row, unless it was dropped, is the record of every report that
   went into its newest bucket, and so of every report since the server was last removed if there was no other bucket.
   */
  lemma StoredRowIsComplete(events: seq<Event>, key: BucketKey)
    requires CanRun(events) && AccountOf(events, key).reports != []
    requires key !in RunTo(events).memory.buckets && key in RunTo(events).rows
    ensures RunTo(events).rows[key] == RecordOf(key, AccountOf(events, key).newest)
    ensures AccountOf(events, key).buckets == 1 ==>
      RunTo(events).rows[key] == RecordOf(key, AccountOf(events, key).reports)
  {
    RunsHaveBooks(events);
    ReachableInv(BooksOf(events));
    AccountsAgree(events, key);
    RowMatchesAccount(RunTo(events), BooksOf(events), key, AccountOf(events, key));
  }

  /** A bucket in memory has accumulated exactly the reports since it was made. */
  lemma LiveBucketIsComplete(events: seq<Event>, key: BucketKey)
    requires CanRun(events) && key in RunTo(events).memory.buckets
    ensures
      var memory, newest := RunTo(events).memory, AccountOf(events, key).newest;
      memory.buckets[key] in memory.heap && memory.heap[memory.buckets[key]] == Bucket(Fold(newest), |newest|)
  {
    RunsHaveBooks(events);
    ReachableInv(BooksOf(events));
    AccountsAgree(events, key);
  }

  // A flush as the aggregator does it is a part of a run

  /** What an action of a flush among others is in the system: a settlement follows the write of its candidate. */
  function EventsFor(action: Action): seq<Event> {
    match action
    case Accepting(serverId, report, receivedAt) => [Accept(serverId, report, receivedAt)]
    case Removing(serverId) => [RemoveServer(serverId)]
    case Settling(_, written) => [UpsertMinute(written), SettleCandidate]
  }

  function EventsForAll(actions: seq<Action>): seq<Event> {
    if actions == [] then []
    else EventsForAll(actions[..|actions| - 1]) + EventsFor(actions[|actions| - 1])
  }

  lemma EventsGrow(events: seq<Event>, actions: seq<Action>)
    requires actions != []
    ensures
      var n := |actions| - 1;
      events + EventsForAll(actions) == events + EventsForAll(actions[..n]) + EventsFor(actions[n])
  {
    var n := |actions| - 1;
    var before, last := EventsForAll(actions[..n]), EventsFor(actions[n]);
    assert EventsForAll(actions) == before + last;
    assert events + (before + last) == events + before + last;
  }

  /** The rows after the first n candidates were written. */
  function RowsAfter(rows: map<BucketKey, MinuteRecord>, candidates: seq<Candidate>, writes: seq<bool>, n: nat)
    : map<BucketKey, MinuteRecord>
    requires n <= |candidates|
  {
    if n == 0 then rows
    else
      var before := RowsAfter(rows, candidates, writes, n - 1);
      if n - 1 < |writes| && writes[n - 1] then before[candidates[n - 1].key := candidates[n - 1].record] else before
  }

  /** The run reaches this system. */
  ghost predicate Reaches(events: seq<Event>, s: System) {
    CanRun(events) && RunTo(events) == s
  }

  lemma MemoryIsValid(events: seq<Event>)
    requires CanRun(events)
    ensures RunTo(events).memory.Valid()
  {
    RunsHaveBooks(events);
  }

  lemma OneMoreEvent(events: seq<Event>, s: System, event: Event)
    requires Reaches(events, s) && Possible(s, event)
    ensures Reaches(events + [event], AggregationLaws.After(s, event))
  {
    assert (events + [event])[..|events|] == events;
  }

  /** Another goroutine's action is one event of the system. */
  lemma OtherAction(events: seq<Event>, s: System, action: Action)
    requires Reaches(events, s) && s.memory.Valid() && !action.Settling?
    ensures Reaches(events + EventsFor(action), s.(memory := Acted(s.memory, action)))
  {
    match action
    case Accepting(serverId, report, receivedAt) => OneMoreEvent(events, s, Accept(serverId, report, receivedAt));
    case Removing(serverId) => OneMoreEvent(events, s, RemoveServer(serverId));
  }

  /** A settlement is two: the write and what follows it. */
  lemma SettlingAction(events: seq<Event>, s: System, written: bool)
    requires Reaches(events, s) && s.memory.Valid() && InHand(s) && s.flush.written.None?
    ensures
      var c := s.flush.candidates[s.flush.next];
      Reaches(events + EventsFor(Settling(c, written)),
              System(Acted(s.memory, Settling(c, written)), s.flush.(next := s.flush.next + 1),
                     if written then s.rows[c.key := c.record] else s.rows))
  {
    var c := s.flush.candidates[s.flush.next];
    OneMoreEvent(events, s, UpsertMinute(written));
    OneMoreEvent(events + [UpsertMinute(written)], Upserted(s, written), SettleCandidate);
    assert events + [UpsertMinute(written)] + [SettleCandidate] == events + EventsFor(Settling(c, written));
  }

  /** Whatever others do before the snapshot. */
  lemma {:induction false} EarlyActions(events: seq<Event>, s: System, early: seq<Action>)
    requires Reaches(events, s) && AreOthers(early)
    ensures Reaches(events + EventsForAll(early), s.(memory := Replay(s.memory, early)))
  {
    MemoryIsValid(events);
    if early == [] {
      assert events + [] == events;
    } else {
      var n := |early| - 1;
      var so := events + EventsForAll(early[..n]);
      EarlyActions(events, s, early[..n]);
      MemoryIsValid(so);
      OtherAction(so, s.(memory := Replay(s.memory, early[..n])), early[n]);
      EventsGrow(events, early);
    }
  }

  /** Candidates are settled in turn, each with the outcome of its own write. */
  ghost predicate FollowsPlan(actions: seq<Action>, candidates: seq<Candidate>, writes: seq<bool>) {
    Settlements(actions) <= Planned(candidates, writes, |candidates|)
  }

  /** The system after some actions that follow the snapshot. */
  ghost function Flushing(s: System, candidates: seq<Candidate>, writes: seq<bool>, actions: seq<Action>): System
    requires FollowsPlan(actions, candidates, writes)
  {
    var done := |Settlements(actions)|;
    System(Replay(s.memory, actions), InProgress(candidates, done, None), RowsAfter(s.rows, candidates, writes, done))
  }

  /** Snapshot taken, the candidates are written and settled in turn, others acting in between. */
  lemma {:induction false} LateActions(events: seq<Event>, s: System, candidates: seq<Candidate>, writes: seq<bool>,
                                       late: seq<Action>)
    requires Reaches(events, s) && s.flush == InProgress(candidates, 0, None) && FollowsPlan(late, candidates, writes)
    ensures Reaches(events + EventsForAll(late), Flushing(s, candidates, writes, late))
  {
    if late == [] {
      assert events + [] == events;
    } else {
      var before, action := late[..|late| - 1], late[|late| - 1];
      var so := events + EventsForAll(before);
      PlanSoFar(late, candidates, writes);
      LateActions(events, s, candidates, writes, before);
      assert late == before + [action];
      LateAction(so, s, candidates, writes, before, action);
      EventsGrow(events, late);
    }
  }

  lemma PlanSoFar(actions: seq<Action>, candidates: seq<Candidate>, writes: seq<bool>)
    requires actions != [] && FollowsPlan(actions, candidates, writes)
    ensures
      var before, action := actions[..|actions| - 1], actions[|actions| - 1];
      && FollowsPlan(before, candidates, writes)
      && (action.Settling? ==>
            && |Settlements(before)| < |candidates|
            && action == Planned(candidates, writes, |candidates|)[|Settlements(before)|])
  {
  }

  lemma FlushingNext(s: System, candidates: seq<Candidate>, writes: seq<bool>, before: seq<Action>, action: Action)
    requires FollowsPlan(before, candidates, writes) && FollowsPlan(before + [action], candidates, writes)
    ensures
      var done := |Settlements(before)| + if action.Settling? then 1 else 0;
      && done <= |candidates|
      && Flushing(s, candidates, writes, before + [action]) ==
           System(Acted(Replay(s.memory, before), action), InProgress(candidates, done, None),
                  RowsAfter(s.rows, candidates, writes, done))
  {
    assert (before + [action])[..|before|] == before;
    FoldLast(Acted, s.memory, before, action);
    assert |Settlements(before + [action])| <= |Planned(candidates, writes, |candidates|)|;
  }

  lemma LateAction(so: seq<Event>, s: System, candidates: seq<Candidate>, writes: seq<bool>, before: seq<Action>,
                   action: Action)
    requires FollowsPlan(before, candidates, writes) && FollowsPlan(before + [action], candidates, writes)
    requires Reaches(so, Flushing(s, candidates, writes, before))
    requires action.Settling? ==>
      && |Settlements(before)| < |candidates|
      && action == Planned(candidates, writes, |candidates|)[|Settlements(before)|]
    ensures Reaches(so + EventsFor(action), Flushing(s, candidates, writes, before + [action]))
  {
    var now := Flushing(s, candidates, writes, before);
    MemoryIsValid(so);
    FlushingNext(s, candidates, writes, before, action);
    if action.Settling? {
      SettlingAction(so, now, action.written);
    } else {
      OtherAction(so, now, action);
    }
  }

  /**
   What FlushBefore does, among the doings of others, is a part of a run of the system: it begins where a run has left
   memory and rows, and ends with the memory it ensures and with the rows of the candidates whose writes succeeded.
   */
  lemma FlushIsRun(events: seq<Event>, s: System, minute: int, early: seq<Action>, candidates: seq<Candidate>,
                   late: seq<Action>, writes: seq<bool>)
    returns (more: seq<Event>)
    requires Reaches(events, s) && s.flush.NoFlush? && AreOthers(early)
    requires Replay(s.memory, early).Valid() && IsSnapshot(Replay(s.memory, early), minute, candidates)
    requires Settlements(late) == Planned(candidates, writes, |candidates|)
    ensures Reaches(more, System(Replay(Replay(s.memory, early), late), NoFlush,
                                 RowsAfter(s.rows, candidates, writes, |candidates|)))
    ensures events <= more
  {
    MemoryIsValid(events);
    OneMoreEvent(events, s, TakeGate);
    var held := s.(flush := GateHeld);
    EarlyActions(events + [TakeGate], held, early);
    var so := events + [TakeGate] + EventsForAll(early);
    var seen := held.(memory := Replay(s.memory, early));
    OneMoreEvent(so, seen, TakeSnapshot(minute, candidates));
    var taken := so + [TakeSnapshot(minute, candidates)];
    LateActions(taken, seen.(flush := InProgress(candidates, 0, None)), candidates, writes, late);
    var flushed := taken + EventsForAll(late);
    MemoryIsValid(flushed);
    OneMoreEvent(flushed, RunTo(flushed), ReleaseGate);
    more := flushed + [ReleaseGate];
  }
}
