/** The durable side of alerting: rules, their states and the log of events, written in transactions that may fail. */
module AlertLog {
  import opened Wrappers
  import opened AlertStateMachine
  import opened AlertMetrics

  datatype Event = Event(
    id: int, ruleId: int, serverId: int, status: Status, currentValue: Option<real>, threshold: Option<real>,
    startedAt: int, endedAt: Option<int>, createdAt: Option<int>)

  datatype Error = InvalidInput | NotFound | Storage

  /** The tables; the counters hold the last identifier each table ever gave out. */
  datatype Tables = Tables(
    servers: set<int>, rules: map<int, Rule>, states: map<int, State>, events: seq<Event>,
    lastRuleId: nat, lastEventId: nat)

  /** Where a transaction fails, if it does. */
  datatype Fault = NoFault | AtBegin | AtState | AtEvent | AtCommit

  predicate IsAcceptable(state: State, event: Option<Event>) {
    && state.ruleId >= 1 && !state.status.Invalid?
    && (event.Some? ==> event.value.ruleId >= 1 && event.value.serverId >= 1 && !event.value.status.Invalid?)
  }

  /** The rows a save refers to exist. */
  predicate HasReferents(t: Tables, state: State, event: Option<Event>) {
    state.ruleId in t.rules && (event.Some? ==> event.value.ruleId in t.rules && event.value.serverId in t.servers)
  }

  /** A fault while the event is stored strikes only if there is an event. */
  predicate Strikes(fault: Fault, event: Option<Event>) {
    fault != NoFault && (fault == AtEvent ==> event.Some?)
  }

  function Stored(t: Tables, event: Event, now: int): Event {
    event.(id := t.lastEventId + 1, createdAt := if event.createdAt.None? then Some(now) else event.createdAt)
  }

  function Saved(t: Tables, state: State, event: Option<Event>, now: int): Tables {
    var updated := t.(states := t.states[state.ruleId := state.(updatedAt := now)]);
    if event.None? then updated
    else updated.(events := t.events + [Stored(t, event.value, now)], lastEventId := t.lastEventId + 1)
  }

  predicate Succeeds(t: Tables, state: State, event: Option<Event>, fault: Fault) {
    IsAcceptable(state, event) && HasReferents(t, state, event) && !Strikes(fault, event)
  }

  function AfterSave(t: Tables, state: State, event: Option<Event>, now: int, fault: Fault): Tables {
    if Succeeds(t, state, event, fault) then Saved(t, state, event, now) else t
  }

  /** What a rule without a row is taken to be in. */
  function Fresh(ruleId: int): State {
    State(ruleId, Normal, None, None, None, None, 0)
  }

  function StateOf(t: Tables, ruleId: int): State {
    if ruleId in t.states then t.states[ruleId] else Fresh(ruleId)
  }

  /** The enabled rules of a server with identifiers up to a bound, in ascending order. */
  function EnabledRules(t: Tables, serverId: int, bound: nat): seq<Rule> {
    if bound == 0 then []
    else
      EnabledRules(t, serverId, bound - 1) +
      if bound in t.rules && t.rules[bound].serverId == serverId && t.rules[bound].enabled then [t.rules[bound]] else []
  }

  class Repository {
    var servers: set<int>
    var rules: map<int, Rule>
    var states: map<int, State>
    var events: seq<Event>
    var lastRuleId: nat
    var lastEventId: nat

    ghost function Contents(): Tables
      reads this
    {
      Tables(servers, rules, states, events, lastRuleId, lastEventId)
    }

    method ListEnabledRulesForServer(serverId: int, failing: bool) returns (result: Result<seq<Rule>, Error>)
      ensures result == if serverId < 1 then Failure(InvalidInput)
                        else if failing then Failure(Storage)
                        else Success(EnabledRules(Contents(), serverId, lastRuleId))
    {
      if serverId < 1 {
        return Failure(InvalidInput);
      }
      if failing {
        return Failure(Storage);
      }
      var listed := [];
      for id := 1 to lastRuleId + 1
        invariant listed == EnabledRules(Contents(), serverId, id - 1)
      {
        if id in rules && rules[id].serverId == serverId && rules[id].enabled {
          listed := listed + [rules[id]];
        }
      }
      return Success(listed);
    }

    method GetState(ruleId: int, failing: bool) returns (result: Result<State, Error>)
      ensures result == if ruleId < 1 then Failure(InvalidInput)
                        else if failing then Failure(Storage)
                        else if ruleId in states then Success(states[ruleId])
                        else Failure(NotFound)
    {
      if ruleId < 1 {
        return Failure(InvalidInput);
      }
      if failing {
        return Failure(Storage);
      }
      if ruleId !in states {
        return Failure(NotFound);
      }
      return Success(states[ruleId]);
    }

    /** State and event are stored together or not at all. */
    method SaveStateAndEvent(state: State, event: Option<Event>, now: int, fault: Fault)
      returns (result: Result<Option<Event>, Error>)
      modifies this
      ensures Contents() == AfterSave(old(Contents()), state, event, now, fault)
      ensures result.Success? <==> Succeeds(old(Contents()), state, event, fault)
      ensures result.Success? ==>
        result.value == if event.None? then None else Some(Stored(old(Contents()), event.value, now))
      ensures result == Failure(InvalidInput) <==> !IsAcceptable(state, event)
      ensures result.Failure? ==> Contents() == old(Contents())
      ensures result.Success? ==>
        && states == old(states)[state.ruleId := state.(updatedAt := now)]
        && (event.None? ==> events == old(events))
        && (event.Some? ==>
              && events == old(events) + [result.value.value] && result.value.value.id == old(lastEventId) + 1
              && result.value.value.createdAt.Some?
              && result.value.value.(id := event.value.id, createdAt := event.value.createdAt) == event.value)
    {
      if state.ruleId < 1 || state.status.Invalid? {
        return Failure(InvalidInput);
      }
      if event.Some? && (event.value.ruleId < 1 || event.value.serverId < 1 || event.value.status.Invalid?) {
        return Failure(InvalidInput);
      }
      if fault == AtBegin {
        return Failure(Storage);
      }
      // The transaction works on copies until it commits.
      if fault == AtState || state.ruleId !in rules {
        return Failure(Storage);
      }
      var newStates := states[state.ruleId := state.(updatedAt := now)];
      if event.None? {
        if fault == AtCommit {
          return Failure(Storage);
        }
        states := newStates;
        return Success(None);
      }
      var row := event.value;
      if row.createdAt.None? {
        row := row.(createdAt := Some(now));
      }
      if fault == AtEvent || row.ruleId !in rules || row.serverId !in servers {
        return Failure(Storage);
      }
      row := row.(id := lastEventId + 1);
      if fault == AtCommit {
        return Failure(Storage);
      }
      states, events, lastEventId := newStates, events + [row], row.id;
      return Success(Some(row));
    }
  }

  /** A save with acceptable values fails only for a row it refers to or a fault it meets. */
  lemma SucceedsExactly(t: Tables, state: State, event: Option<Event>, fault: Fault)
    requires state.ruleId >= 1
    requires state.status.Normal? || state.status.Pending? || state.status.Firing? || state.status.Recovered?
    requires event.Some? ==>
      && event.value.ruleId == state.ruleId && event.value.serverId >= 1
      && (event.value.status == Firing || event.value.status == Recovered)
    ensures Succeeds(t, state, event, fault) <==>
      && state.ruleId in t.rules && (event.Some? ==> event.value.serverId in t.servers)
      && (fault == NoFault || (fault == AtEvent && event.None?))
  {
  }

  // What state and log of a rule have to do with each other

  /** The events of a rule, oldest first. */
  function LogOf(events: seq<Event>, ruleId: int): seq<Event> {
    if events == [] then []
    else
      var n := |events| - 1;
      LogOf(events[..n], ruleId) + if events[n].ruleId == ruleId then [events[n]] else []
  }

  /**
   Episodes of firing events, each but perhaps the last closed by one recovered event, with one start time per
   episode and an end time on the recovered event alone.
   */
  ghost predicate IsLog(log: seq<Event>) {
    && (forall i | 0 <= i < |log| ::
          && (log[i].status == Firing || log[i].status == Recovered)
          && (log[i].endedAt.Some? <==> log[i].status == Recovered))
    && (forall i | 0 < i < |log| :: log[i - 1].status == Firing ==> log[i].startedAt == log[i - 1].startedAt)
    && (forall i | 0 <= i < |log| && log[i].status == Recovered :: i > 0 && log[i - 1].status == Firing)
  }

  ghost predicate Agrees(state: State, log: seq<Event>) {
    && IsLog(log)
    && !state.status.Invalid?
    && (state.status == Firing <==> log != [] && log[|log| - 1].status == Firing)
    && (state.status == Firing ==> state.firingSince == Some(log[|log| - 1].startedAt))
    && (state.status == Recovered ==> log != [] && log[|log| - 1].status == Recovered)
  }

  /** All events of one episode carry the same start time. */
  lemma {:induction false} EpisodeSharesStart(log: seq<Event>, i: nat, j: nat)
    requires IsLog(log) && i <= j < |log| && forall k | i <= k < j :: log[k].status == Firing
    ensures log[i].startedAt == log[j].startedAt
  {
    if i < j {
      EpisodeSharesStart(log, i, j - 1);
      assert log[j - 1].status == Firing;
    }
  }

  /** A state that is normal or pending has a log that is empty or ends in a recovery. */
  lemma CalmMeansRecovered(state: State, log: seq<Event>)
    requires Agrees(state, log) && (state.status == Normal || state.status == Pending)
    ensures log == [] || log[|log| - 1].status == Recovered
  {
    assert log != [] ==> log[|log| - 1].status == Firing || log[|log| - 1].status == Recovered;
  }

  // Evaluating a rule

  datatype Occasion = Occasion(ruleId: int, serverId: int, threshold: real, timing: Timing, check: Check)

  function EventFor(ruleId: int, serverId: int, threshold: real, state: State, value: real): Event {
    var startedAt := if state.firingSince.None? then state.updatedAt else state.firingSince.value;
    var endedAt := if state.status == Recovered then Some(state.updatedAt) else None;
    Event(0, ruleId, serverId, state.status, Some(value), Some(threshold), startedAt, endedAt, None)
  }

  function Outcome(state: State, occasion: Occasion): State {
    Evaluate(state, occasion.check, occasion.timing).state
  }

  function EventOf(state: State, occasion: Occasion): Option<Event> {
    var evaluation := Evaluate(state, occasion.check, occasion.timing);
    if evaluation.notify
    then Some(EventFor(occasion.ruleId, occasion.serverId, occasion.threshold, evaluation.state, occasion.check.value))
    else None
  }

  function OccasionFor(rule: Rule, serverId: int, value: real, now: int): Occasion {
    Occasion(rule.id, serverId, rule.threshold,
             Timing(DurationFor(rule), Clock.Seconds(rule.repeatSeconds)), Check(IsBreached(value, rule), value, now))
  }

  /** One evaluation keeps state and log in agreement, if both are stored. */
  lemma OutcomeAgrees(state: State, log: seq<Event>, occasion: Occasion, id: int, createdAt: int, now: int)
    requires Agrees(state, log)
    ensures
      var event := EventOf(state, occasion);
      Agrees(Outcome(state, occasion).(updatedAt := now),
             if event.None? then log else log + [event.value.(id := id, createdAt := Some(createdAt))])
  {
    var event := EventOf(state, occasion);
    if event.Some? {
      var row := event.value.(id := id, createdAt := Some(createdAt));
      assert row.status == Firing || row.status == Recovered;
      assert row.status == Recovered ==> state.status == Firing;
      assert state.status == Firing ==> row.startedAt == state.firingSince.value;
      assert IsLog(log + [row]);
    }
  }
}
