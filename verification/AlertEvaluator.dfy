/** Evaluation of the rules of a server on a live event. */
module AlertEvaluator {
  import opened Wrappers
  import opened AlertStateMachine
  import opened AlertMetrics
  import opened AlertLog
  import LiveModel

  /** What the surroundings contribute to one evaluation: failures and the clock. */
  datatype Attempt = Attempt(readFails: bool, now: int, fault: Fault, savedAt: int)

  /** While a server is offline only its offline rules are evaluated. */
  predicate IsSkipped(rule: Rule, event: LiveModel.Event) {
    event.kind == LiveModel.Offline && rule.metric != OfflineMetric
  }

  function OccasionOf(rule: Rule, event: LiveModel.Event, now: int): Occasion {
    OccasionFor(rule, event.snapshot.serverId, ValueOf(event.snapshot, rule.metric), now)
  }

  /** The tables after one rule was evaluated on an event. */
  function Evaluated(t: Tables, rule: Rule, event: LiveModel.Event, attempt: Attempt): Tables {
    if IsSkipped(rule, event) || rule.id < 1 || attempt.readFails then t
    else
      var occasion := OccasionOf(rule, event, attempt.now);
      var state := StateOf(t, rule.id);
      AfterSave(t, Outcome(state, occasion), EventOf(state, occasion), attempt.savedAt, attempt.fault)
  }

  /** The tables after the first n rules were evaluated, each with an attempt of its own. */
  function EvaluatedAll(t: Tables, rules: seq<Rule>, n: nat, event: LiveModel.Event, world: nat -> Attempt): Tables
    requires n <= |rules|
  {
    if n == 0 then t
    else Evaluated(EvaluatedAll(t, rules, n - 1, event, world), rules[n - 1], event, world(n - 1))
  }

  /** The tables after the rules of the event's server were evaluated. */
  function EvaluatedOn(t: Tables, event: LiveModel.Event, world: nat -> Attempt): Tables {
    var rules := EnabledRules(t, event.snapshot.serverId, t.lastRuleId);
    EvaluatedAll(t, rules, |rules|, event, world)
  }

  function EvaluatedNow(t: Tables, event: LiveModel.Event, listFails: bool, world: nat -> Attempt): Tables {
    if event.snapshot.serverId < 1 || listFails then t else EvaluatedOn(t, event, world)
  }

  const QUEUE_CAPACITY := 128

  /**
   The evaluator's queue, the servers whose latest snapshot will be looked up later for want of room in it, every event
   submitted, every event taken from the queue, and whether one ever found it full.
   */
  datatype Inbox = Inbox(
    queue: seq<LiveModel.Event>, pending: set<int>, submitted: seq<LiveModel.Event>, taken: seq<LiveModel.Event>,
    overflowed: bool)
  {
    /** Until the queue overflows, events are taken in the order in which they were submitted. */
    predicate IsFifo() {
      |queue| <= QUEUE_CAPACITY && (!overflowed ==> pending == {} && taken + queue == submitted)
    }
  }

  function Submitted(i: Inbox, event: LiveModel.Event): Inbox {
    var known := i.(submitted := i.submitted + [event]);
    if |i.queue| < QUEUE_CAPACITY then known.(queue := i.queue + [event])
    else known.(overflowed := true,
                pending := if event.snapshot.serverId < 1 then i.pending else i.pending + {event.snapshot.serverId})
  }

  function TookOne(i: Inbox): Inbox
    requires i.queue != []
  {
    i.(queue := i.queue[1..], taken := i.taken + [i.queue[0]])
  }

  class Evaluator {
    const store: Repository
    /** The stored events handed on for delivery, in order. */
    var offered: seq<Event>
    var queue: seq<LiveModel.Event>
    var pending: set<int>
    ghost var submitted: seq<LiveModel.Event>
    ghost var taken: seq<LiveModel.Event>
    ghost var overflowed: bool

    ghost function Box(): Inbox
      reads this
    {
      Inbox(queue, pending, submitted, taken, overflowed)
    }

    constructor (store: Repository)
      ensures this.store == store && offered == [] && Box() == Inbox([], {}, [], [], false)
    {
      this.store := store;
      offered, queue, pending := [], [], {};
      submitted, taken, overflowed := [], [], false;
    }

    /** An event that finds no room leaves its server pending. */
    method Submit(event: LiveModel.Event)
      requires Box().IsFifo()
      modifies this
      ensures Box() == Submitted(old(Box()), event) && Box().IsFifo() && offered == old(offered)
      ensures |old(queue)| < 128 ==> queue == old(queue) + [event] && pending == old(pending)
      ensures |old(queue)| == 128 ==>
        && queue == old(queue)
        && forall id :: id in pending <==> id in old(pending) || (id == event.snapshot.serverId && id >= 1)
    {
      submitted := submitted + [event];
      if |queue| < QUEUE_CAPACITY {
        queue := queue + [event];
      } else {
        overflowed := true;
        ScheduleLatest(event.snapshot.serverId);
      }
    }

    method ScheduleLatest(serverId: int)
      modifies this`pending
      ensures pending == if serverId < 1 then old(pending) else old(pending) + {serverId}
    {
      if serverId < 1 || serverId in pending {
        return;
      }
      pending := pending + {serverId};
    }

    /** A server's time has come: its latest snapshot, if it has one, is queued, or the server stays pending. */
    method Retry(serverId: int, latest: Option<LiveModel.Snapshot>)
      requires Box().IsFifo() && serverId in pending
      modifies this
      ensures Box().IsFifo() && submitted == old(submitted) && taken == old(taken) && offered == old(offered)
      ensures overflowed == old(overflowed)
      ensures queue == if latest.Some? && |old(queue)| < QUEUE_CAPACITY
                       then old(queue) + [LiveModel.Event(LiveModel.Updated, latest.value)] else old(queue)
      ensures pending == if latest.Some? && |old(queue)| >= QUEUE_CAPACITY && serverId >= 1
                         then old(pending) else old(pending) - {serverId}
    {
      if latest.Some? {
        if |queue| < QUEUE_CAPACITY {
          queue := queue + [LiveModel.Event(LiveModel.Updated, latest.value)];
        } else {
          pending := pending - {serverId};
          ScheduleLatest(serverId);
          return;
        }
      }
      pending := pending - {serverId};
    }

    /** One turn of the evaluator's loop. */
    method TakeOne(listFails: bool, world: nat -> Attempt)
      requires Box().IsFifo() && queue != []
      modifies this, store
      ensures Box() == TookOne(old(Box())) && Box().IsFifo()
      ensures [old(queue)[0]] + queue == old(queue) && pending == old(pending)
      ensures store.Contents() == EvaluatedNow(old(store.Contents()), old(queue)[0], listFails, world)
    {
      var event := queue[0];
      queue := queue[1..];
      taken := taken + [event];
      EvaluateNow(event, listFails, world);
    }

    /** Nothing happens unless the rules can be listed; a rule whose state cannot be read or saved is passed over. */
    method EvaluateNow(event: LiveModel.Event, listFails: bool, world: nat -> Attempt)
      modifies this`offered, store
      ensures store.Contents() == EvaluatedNow(old(store.Contents()), event, listFails, world)
      ensures event.snapshot.serverId < 1 || listFails ==> store.Contents() == old(store.Contents())
      ensures old(store.events) <= store.events
      ensures offered == old(offered) + store.events[|old(store.events)|..]
    {
      if event.snapshot.serverId < 1 {
        return;
      }
      var listed := store.ListEnabledRulesForServer(event.snapshot.serverId, listFails);
      if listed.Failure? {
        return;
      }
      var rules := listed.value;
      for i := 0 to |rules|
        invariant store.Contents() == EvaluatedAll(old(store.Contents()), rules, i, event, world)
        invariant old(store.events) <= store.events
        invariant offered == old(offered) + store.events[|old(store.events)|..]
      {
        Evaluate(rules[i], event, world(i));
      }
    }

    method Evaluate(rule: Rule, event: LiveModel.Event, attempt: Attempt)
      modifies this`offered, store
      ensures store.Contents() == Evaluated(old(store.Contents()), rule, event, attempt)
      ensures event.kind == LiveModel.Offline && rule.metric != OfflineMetric ==>
        store.Contents() == old(store.Contents())
      ensures rule.id < 1 || attempt.readFails ==> store.Contents() == old(store.Contents())
      ensures old(store.events) <= store.events
      ensures offered == old(offered) + store.events[|old(store.events)|..]
    {
      if event.kind == LiveModel.Offline && rule.metric != OfflineMetric {
        return;
      }
      var value := MetricValue(event.snapshot, rule.metric);
      var read := store.GetState(rule.id, attempt.readFails);
      var state;
      if read == Failure(NotFound) {
        state := Fresh(rule.id);
      } else if read.Failure? {
        return;
      } else {
        state := read.value;
      }
      var timing := Timing(DurationFor(rule), Clock.Seconds(rule.repeatSeconds));
      var result := AlertStateMachine.Evaluate(state, Check(IsBreached(value, rule), value, attempt.now), timing);
      var created := None;
      if result.notify {
        created := Some(EventFor(rule.id, event.snapshot.serverId, rule.threshold, result.state, value));
      }
      var saved := store.SaveStateAndEvent(result.state, created, attempt.savedAt, attempt.fault);
      if saved.Failure? {
        return;
      }
      if created.Some? {
        offered := offered + [saved.value.value];
      }
    }
  }
}
