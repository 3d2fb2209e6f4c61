/**
 Every run of one evaluator beside administrators who create, edit and delete rules and servers at any moment,
 also between the reading of a state and its saving. A rule stays with its server.
 */
module AlertProtocol {
  import opened Wrappers
  import opened AlertStateMachine
  import opened AlertMetrics
  import opened AlertLog
  import opened AlertEvaluator
  import LiveModel

  /** A rule under evaluation, with the state it was read in. */
  datatype Held = Held(rule: Rule, state: State)

  /** The tables, the evaluation under way, and the server of every rule there ever was. */
  datatype Desk = Desk(tables: Tables, held: Option<Held>, homes: map<int, int>)

  const START := Desk(Tables({}, map[], map[], [], 0, 0), None, map[])

  // Steps

  function AddServer(d: Desk, serverId: int): Desk {
    d.(tables := d.tables.(servers := d.tables.servers + {serverId}))
  }

  function CreateRule(d: Desk, rule: Rule): Desk {
    var id := d.tables.lastRuleId + 1;
    if rule.serverId !in d.tables.servers then d
    else d.(tables := d.tables.(rules := d.tables.rules[id := rule.(id := id)], lastRuleId := id),
            homes := d.homes[id := rule.serverId])
  }

  function EditRule(d: Desk, rule: Rule): Desk {
    if rule.id in d.tables.rules && d.tables.rules[rule.id].serverId == rule.serverId
    then d.(tables := d.tables.(rules := d.tables.rules[rule.id := rule]))
    else d
  }

  /** The events that are left when those of some rules and of a server go. */
  function Without(events: seq<Event>, ruleIds: set<int>, serverIds: set<int>): seq<Event> {
    if events == [] then []
    else
      var n := |events| - 1;
      Without(events[..n], ruleIds, serverIds) +
      if events[n].ruleId in ruleIds || events[n].serverId in serverIds then [] else [events[n]]
  }

  /** Deletes rows and, by cascade, all rows that refer to them. */
  function Cascade(t: Tables, ruleIds: set<int>, serverIds: set<int>): Tables {
    t.(servers := t.servers - serverIds, rules := t.rules - ruleIds, states := t.states - ruleIds,
       events := Without(t.events, ruleIds, serverIds))
  }

  function DeleteRule(d: Desk, ruleId: int): Desk {
    d.(tables := Cascade(d.tables, {ruleId}, {}))
  }

  function RulesOf(t: Tables, serverId: int): set<int> {
    set id | id in t.rules && t.rules[id].serverId == serverId
  }

  function DeleteServer(d: Desk, serverId: int): Desk {
    d.(tables := Cascade(d.tables, RulesOf(d.tables, serverId), {serverId}))
  }

  /** A rule listed earlier is taken up; it may have been edited or deleted since. */
  function Read(d: Desk, rule: Rule): Desk {
    if rule.id in d.homes && d.homes[rule.id] == rule.serverId
    then d.(held := Some(Held(rule, StateOf(d.tables, rule.id))))
    else d
  }

  function Save(d: Desk, value: real, attempt: Attempt): Desk {
    if d.held.None? then d
    else
      var Held(rule, state) := d.held.value;
      var occasion := OccasionFor(rule, rule.serverId, value, attempt.now);
      Desk(AfterSave(d.tables, Outcome(state, occasion), EventOf(state, occasion), attempt.savedAt, attempt.fault),
           None, d.homes)
  }

  datatype Step =
    | DoAddServer(serverId: int)
    | DoCreateRule(rule: Rule)
    | DoEditRule(rule: Rule)
    | DoDeleteRule(ruleId: int)
    | DoDeleteServer(serverId: int)
    | DoRead(rule: Rule)
    | DoSave(value: real, attempt: Attempt)

  function Next(d: Desk, step: Step): Desk {
    match step
    case DoAddServer(serverId) => AddServer(d, serverId)
    case DoCreateRule(rule) => CreateRule(d, rule)
    case DoEditRule(rule) => EditRule(d, rule)
    case DoDeleteRule(ruleId) => DeleteRule(d, ruleId)
    case DoDeleteServer(serverId) => DeleteServer(d, serverId)
    case DoRead(rule) => Read(d, rule)
    case DoSave(value, attempt) => Save(d, value, attempt)
  }

  function Run(steps: seq<Step>): Desk {
    if steps == [] then START else Next(Run(steps[..|steps| - 1]), steps[|steps| - 1])
  }

  // What every step keeps

  /** State and log of every rule agree. */
  ghost predicate AllAgree(t: Tables) {
    forall id | id in t.rules :: Agrees(StateOf(t, id), LogOf(t.events, id))
  }

  /** Event identifiers ascend and none was given out twice. */
  ghost predicate IdsAscend(t: Tables) {
    Ascend(t.events, t.lastEventId)
  }

  ghost predicate Ascend(events: seq<Event>, bound: int) {
    && (forall i, j | 0 <= i < j < |events| :: events[i].id < events[j].id)
    && (forall i | 0 <= i < |events| :: events[i].id <= bound)
  }

  /** Events belong to rules that exist, at the server of the rule. */
  ghost predicate EventsAtHome(events: seq<Event>, rules: map<int, Rule>) {
    forall i | 0 <= i < |events| :: events[i].ruleId in rules && rules[events[i].ruleId].serverId == events[i].serverId
  }

  ghost predicate RowsFit(d: Desk) {
    var t := d.tables;
    && (forall id | id in t.states :: id in t.rules && t.states[id].ruleId == id)
    && (forall id | id in t.rules :: t.rules[id].id == id && id in d.homes && d.homes[id] == t.rules[id].serverId)
    && (forall id | id in d.homes :: 1 <= id <= t.lastRuleId)
  }

  /** The state held is still the stored one, unless the rule was deleted. */
  ghost predicate HeldIsCurrent(d: Desk) {
    d.held.Some? ==>
      var Held(rule, state) := d.held.value;
      && rule.id in d.homes && d.homes[rule.id] == rule.serverId && state.ruleId == rule.id
      && (rule.id in d.tables.rules ==> state == StateOf(d.tables, rule.id))
  }

  ghost predicate Inv(d: Desk) {
    && RowsFit(d) && HeldIsCurrent(d) && AllAgree(d.tables)
    && EventsAtHome(d.tables.events, d.tables.rules) && IdsAscend(d.tables)
  }

  // Deletion

  lemma {:induction false} WithoutKeepsLogs(events: seq<Event>, rules: map<int, Rule>, ruleIds: set<int>,
                                            serverIds: set<int>, id: int)
    requires EventsAtHome(events, rules) && id !in ruleIds
    requires id in rules ==> rules[id].serverId !in serverIds
    ensures LogOf(Without(events, ruleIds, serverIds), id) == LogOf(events, id)
  {
    if events != [] {
      var n := |events| - 1;
      WithoutKeepsLogs(events[..n], rules, ruleIds, serverIds, id);
      var left := Without(events[..n], ruleIds, serverIds);
      assert (left + [events[n]])[..|left|] == left;
      assert left + [] == left;
      assert events[n].ruleId in rules;
    }
  }

  lemma {:induction false} WithoutSelects(events: seq<Event>, ruleIds: set<int>, serverIds: set<int>)
    ensures forall e :: e in Without(events, ruleIds, serverIds)
                        <==> e in events && e.ruleId !in ruleIds && e.serverId !in serverIds
  {
    if events != [] {
      var n := |events| - 1;
      assert events == events[..n] + [events[n]];
      WithoutSelects(events[..n], ruleIds, serverIds);
    }
  }

  lemma {:induction false} WithoutKeepsOrder(events: seq<Event>, ruleIds: set<int>, serverIds: set<int>, bound: int)
    requires Ascend(events, bound)
    ensures Ascend(Without(events, ruleIds, serverIds), bound)
  {
    if events != [] {
      var n := |events| - 1;
      var last := events[n];
      WithoutKeepsOrder(events[..n], ruleIds, serverIds, last.id - 1);
    }
  }

  lemma CascadeKeepsAgreement(t: Tables, ruleIds: set<int>, serverIds: set<int>)
    requires EventsAtHome(t.events, t.rules) && AllAgree(t)
    requires forall id | id in t.rules && id !in ruleIds :: t.rules[id].serverId !in serverIds
    ensures AllAgree(Cascade(t, ruleIds, serverIds))
  {
    var next := Cascade(t, ruleIds, serverIds);
    forall id | id in next.rules ensures Agrees(StateOf(next, id), LogOf(next.events, id)) {
      WithoutKeepsLogs(t.events, t.rules, ruleIds, serverIds, id);
      assert StateOf(next, id) == StateOf(t, id);
    }
  }

  lemma CascadeKeepsEvents(t: Tables, ruleIds: set<int>, serverIds: set<int>)
    requires EventsAtHome(t.events, t.rules) && Ascend(t.events, t.lastEventId)
    ensures
      var next := Cascade(t, ruleIds, serverIds);
      EventsAtHome(next.events, next.rules) && Ascend(next.events, next.lastEventId)
  {
    var next := Cascade(t, ruleIds, serverIds);
    WithoutKeepsOrder(t.events, ruleIds, serverIds, t.lastEventId);
    WithoutSelects(t.events, ruleIds, serverIds);
    forall i | 0 <= i < |next.events|
      ensures next.events[i].ruleId in next.rules
      ensures next.rules[next.events[i].ruleId].serverId == next.events[i].serverId
    {
      var e := next.events[i];
      assert e in next.events;
      assert e in t.events && e.ruleId !in ruleIds;
    }
  }

  lemma CascadeKeeps(d: Desk, ruleIds: set<int>, serverIds: set<int>)
    requires Inv(d)
    requires forall id | id in d.tables.rules && id !in ruleIds :: d.tables.rules[id].serverId !in serverIds
    ensures Inv(d.(tables := Cascade(d.tables, ruleIds, serverIds)))
  {
    CascadeKeepsAgreement(d.tables, ruleIds, serverIds);
    CascadeKeepsEvents(d.tables, ruleIds, serverIds);
    CascadeKeepsRows(d, ruleIds, serverIds);
  }

  lemma CascadeKeepsRows(d: Desk, ruleIds: set<int>, serverIds: set<int>)
    requires RowsFit(d) && HeldIsCurrent(d)
    ensures RowsFit(d.(tables := Cascade(d.tables, ruleIds, serverIds)))
    ensures HeldIsCurrent(d.(tables := Cascade(d.tables, ruleIds, serverIds)))
  {
  }

  // Creation

  lemma {:induction false} NewRuleHasNoLog(events: seq<Event>, rules: map<int, Rule>, id: int)
    requires EventsAtHome(events, rules) && id !in rules
    ensures LogOf(events, id) == []
  {
    if events != [] {
      var n := |events| - 1;
      NewRuleHasNoLog(events[..n], rules, id);
      assert events[n].ruleId in rules;
    }
  }

  lemma FreshAgrees(id: int)
    ensures Agrees(Fresh(id), [])
  {
  }

  lemma CreateRuleKeepsAgreement(d: Desk, rule: Rule)
    requires AllAgree(d.tables) && EventsAtHome(d.tables.events, d.tables.rules)
    requires d.tables.lastRuleId + 1 !in d.tables.rules && d.tables.lastRuleId + 1 !in d.tables.states
    ensures AllAgree(CreateRule(d, rule).tables)
  {
    var t := d.tables;
    var next := CreateRule(d, rule).tables;
    var newId := t.lastRuleId + 1;
    NewRuleHasNoLog(t.events, t.rules, newId);
    FreshAgrees(newId);
    assert next.states == t.states && next.events == t.events;
    forall id | id in next.rules ensures Agrees(StateOf(next, id), LogOf(next.events, id)) {
      assert StateOf(next, id) == StateOf(t, id);
      assert id in t.rules || id == newId;
    }
  }

  lemma CreateRuleKeepsEvents(d: Desk, rule: Rule)
    requires EventsAtHome(d.tables.events, d.tables.rules) && IdsAscend(d.tables)
    requires d.tables.lastRuleId + 1 !in d.tables.rules
    ensures EventsAtHome(CreateRule(d, rule).tables.events, CreateRule(d, rule).tables.rules)
    ensures IdsAscend(CreateRule(d, rule).tables)
  {
  }

  lemma CreateRuleKeepsRows(d: Desk, rule: Rule)
    requires RowsFit(d) && HeldIsCurrent(d)
    ensures RowsFit(CreateRule(d, rule)) && HeldIsCurrent(CreateRule(d, rule))
    ensures d.tables.lastRuleId + 1 !in d.tables.rules && d.tables.lastRuleId + 1 !in d.tables.states
  {
    assert d.tables.lastRuleId + 1 !in d.homes;
  }

  lemma CreateRuleKeeps(d: Desk, rule: Rule)
    requires Inv(d)
    ensures Inv(CreateRule(d, rule))
  {
    CreateRuleKeepsRows(d, rule);
    CreateRuleKeepsEvents(d, rule);
    CreateRuleKeepsAgreement(d, rule);
  }

  // Evaluation

  /** What a save does to the state and log of each rule. */
  lemma SavedRow(t: Tables, state: State, event: Option<Event>, now: int, id: int)
    requires event.Some? ==> event.value.ruleId == state.ruleId
    ensures
      var next := Saved(t, state, event, now);
      && StateOf(next, id) == (if id == state.ruleId then state.(updatedAt := now) else StateOf(t, id))
      && LogOf(next.events, id) ==
           if id == state.ruleId && event.Some? then LogOf(t.events, id) + [Stored(t, event.value, now)]
           else LogOf(t.events, id)
  {
    if event.Some? {
      var next := Saved(t, state, event, now);
      assert next.events[..|t.events|] == t.events;
      assert LogOf(t.events, id) + [] == LogOf(t.events, id);
    }
  }

  lemma SavedAgrees(t: Tables, state: State, event: Option<Event>, now: int)
    requires AllAgree(t) && (event.Some? ==> event.value.ruleId == state.ruleId)
    requires
      var log := LogOf(t.events, state.ruleId);
      Agrees(state.(updatedAt := now), if event.None? then log else log + [Stored(t, event.value, now)])
    ensures AllAgree(Saved(t, state, event, now))
  {
    var next := Saved(t, state, event, now);
    forall id | id in t.rules ensures Agrees(StateOf(next, id), LogOf(next.events, id)) {
      SavedRow(t, state, event, now, id);
    }
  }

  /** What the evaluation of a rule may save. */
  lemma OutcomeShape(state: State, occasion: Occasion)
    ensures Outcome(state, occasion).ruleId == state.ruleId
    ensures
      var event := EventOf(state, occasion);
      event.Some? ==>
        && event.value.ruleId == occasion.ruleId && event.value.serverId == occasion.serverId
        && event.value.createdAt.None?
  {
  }

  lemma SavedKeepsRows(t: Tables, state: State, event: Option<Event>, now: int)
    requires HasReferents(t, state, event) && EventsAtHome(t.events, t.rules) && IdsAscend(t)
    requires event.Some? ==> t.rules[event.value.ruleId].serverId == event.value.serverId
    ensures EventsAtHome(Saved(t, state, event, now).events, t.rules) && IdsAscend(Saved(t, state, event, now))
  {
  }

  /** What a save must bring for the agreement to be kept. */
  ghost predicate Fits(t: Tables, state: State, event: Option<Event>, now: int) {
    && (event.Some? ==>
          && event.value.ruleId == state.ruleId && state.ruleId in t.rules
          && t.rules[state.ruleId].serverId == event.value.serverId)
    && var log := LogOf(t.events, state.ruleId);
       Agrees(state.(updatedAt := now), if event.None? then log else log + [Stored(t, event.value, now)])
  }

  lemma FittingSaveKeeps(d: Desk, state: State, event: Option<Event>, now: int)
    requires Inv(d) && HasReferents(d.tables, state, event) && Fits(d.tables, state, event, now)
    ensures Inv(Desk(Saved(d.tables, state, event, now), None, d.homes))
  {
    SavedAgrees(d.tables, state, event, now);
    SavedKeepsRows(d.tables, state, event, now);
  }

  lemma OutcomeFits(t: Tables, occasion: Occasion, now: int)
    requires occasion.ruleId in t.rules && t.rules[occasion.ruleId].serverId == occasion.serverId
    requires StateOf(t, occasion.ruleId).ruleId == occasion.ruleId
    requires Agrees(StateOf(t, occasion.ruleId), LogOf(t.events, occasion.ruleId))
    ensures
      var state := StateOf(t, occasion.ruleId);
      Fits(t, Outcome(state, occasion), EventOf(state, occasion), now)
  {
    var state := StateOf(t, occasion.ruleId);
    OutcomeShape(state, occasion);
    OutcomeAgrees(state, LogOf(t.events, occasion.ruleId), occasion, t.lastEventId + 1, now, now);
  }

  lemma SaveKeeps(d: Desk, value: real, attempt: Attempt)
    requires Inv(d)
    ensures Inv(Save(d, value, attempt))
  {
    if d.held.Some? {
      var Held(rule, state) := d.held.value;
      var occasion := OccasionFor(rule, rule.serverId, value, attempt.now);
      OutcomeShape(state, occasion);
      if Succeeds(d.tables, Outcome(state, occasion), EventOf(state, occasion), attempt.fault) {
        OutcomeFits(d.tables, occasion, attempt.savedAt);
        FittingSaveKeeps(d, Outcome(state, occasion), EventOf(state, occasion), attempt.savedAt);
      }
    }
  }

  /** Every step keeps the agreement of states and logs. */
  lemma StepKeeps(d: Desk, step: Step)
    requires Inv(d)
    ensures Inv(Next(d, step))
  {
    match step
    case DoAddServer(serverId) =>
    case DoCreateRule(rule) => CreateRuleKeeps(d, rule);
    case DoEditRule(rule) => EditRuleKeeps(d, rule);
    case DoDeleteRule(ruleId) => CascadeKeeps(d, {ruleId}, {});
    case DoDeleteServer(serverId) => CascadeKeeps(d, RulesOf(d.tables, serverId), {serverId});
    case DoRead(rule) =>
    case DoSave(value, attempt) => SaveKeeps(d, value, attempt);
  }

  lemma EditRuleKeeps(d: Desk, rule: Rule)
    requires Inv(d)
    ensures Inv(EditRule(d, rule))
  {
    var t := d.tables;
    var next := EditRule(d, rule).tables;
    forall id | id in next.rules ensures Agrees(StateOf(next, id), LogOf(next.events, id)) {
      assert id in t.rules && StateOf(next, id) == StateOf(t, id);
    }
  }

  /**
   Whatever the interleaving and the failures, the stored state of every rule agrees with its stored events, and
   event identifiers ascend.
   */
  lemma {:induction false} StatesAgreeWithLogs(steps: seq<Step>)
    ensures Inv(Run(steps))
    ensures AllAgree(Run(steps).tables) && IdsAscend(Run(steps).tables)
  {
    if steps != [] {
      StatesAgreeWithLogs(steps[..|steps| - 1]);
      StepKeeps(Run(steps[..|steps| - 1]), steps[|steps| - 1]);
    }
  }

  /** An undisturbed evaluation, as the evaluator does it, is a read followed by a save. */
  lemma EvaluationIsTwoSteps(d: Desk, rule: Rule, event: LiveModel.Event, attempt: Attempt)
    requires RowsFit(d) && rule.id in d.homes && d.homes[rule.id] == rule.serverId == event.snapshot.serverId
    requires !IsSkipped(rule, event) && !attempt.readFails
    ensures Save(Read(d, rule), ValueOf(event.snapshot, rule.metric), attempt).tables
            == Evaluated(d.tables, rule, event, attempt)
  {
    assert rule.id >= 1;
    assert Read(d, rule).held == Some(Held(rule, StateOf(d.tables, rule.id)));
  }

  // What administrators do, row by row

  /** With a rule go its state and its events, and nothing else. */
  lemma RuleIsDeleted(d: Desk, ruleId: int, id: int, event: Event)
    ensures
      var t, u := d.tables, DeleteRule(d, ruleId).tables;
      && u.servers == t.servers && u.lastRuleId == t.lastRuleId && u.lastEventId == t.lastEventId
      && (id in u.rules <==> id in t.rules && id != ruleId) && (id in u.rules ==> u.rules[id] == t.rules[id])
      && (id in u.states <==> id in t.states && id != ruleId) && (id in u.states ==> u.states[id] == t.states[id])
      && (event in u.events <==> event in t.events && event.ruleId != ruleId)
  {
    WithoutSelects(d.tables.events, {ruleId}, {});
  }

  /** With a server go its rules, their states and events, and its own events, and nothing else. */
  lemma ServerIsDeleted(d: Desk, serverId: int, id: int, event: Event)
    ensures
      var t, u := d.tables, DeleteServer(d, serverId).tables;
      && u.servers == t.servers - {serverId} && u.lastRuleId == t.lastRuleId && u.lastEventId == t.lastEventId
      && (id in u.rules <==> id in t.rules && t.rules[id].serverId != serverId)
      && (id in u.rules ==> u.rules[id] == t.rules[id])
      && (id in u.states <==> id in t.states && !(id in t.rules && t.rules[id].serverId == serverId))
      && (id in u.states ==> u.states[id] == t.states[id])
      && (event in u.events <==>
            && event in t.events && event.serverId != serverId
            && !(event.ruleId in t.rules && t.rules[event.ruleId].serverId == serverId))
  {
    WithoutSelects(d.tables.events, RulesOf(d.tables, serverId), {serverId});
  }

  /** A rule of a registered server is stored under the next identifier; any other is refused. */
  lemma RuleIsCreated(d: Desk, rule: Rule)
    ensures
      var t, u, id := d.tables, CreateRule(d, rule).tables, d.tables.lastRuleId + 1;
      if rule.serverId in t.servers then
        && u.rules == t.rules[id := rule.(id := id)] && u.lastRuleId == id
        && u == t.(rules := u.rules, lastRuleId := id)
      else u == t
  {
  }

  /** A stored rule is replaced by one of the same identifier and server; any other edit is refused. */
  lemma RuleIsEdited(d: Desk, rule: Rule)
    ensures
      var t, u := d.tables, EditRule(d, rule).tables;
      && u == t.(rules := u.rules)
      && u.rules == (if rule.id in t.rules && t.rules[rule.id].serverId == rule.serverId
                     then t.rules[rule.id := rule] else t.rules)
  {
  }

  /** Rules belong to servers that exist. */
  ghost predicate RulesAtHome(t: Tables) {
    forall id | id in t.rules :: t.rules[id].serverId in t.servers
  }

  lemma StepKeepsHomes(d: Desk, step: Step)
    requires RulesAtHome(d.tables)
    ensures RulesAtHome(Next(d, step).tables)
    ensures step.DoAddServer? ==> Next(d, step).tables.servers == d.tables.servers + {step.serverId}
  {
    if step.DoSave? && d.held.Some? {
      var next := Save(d, step.value, step.attempt).tables;
      assert next.rules == d.tables.rules && next.servers == d.tables.servers;
    }
  }

  lemma {:induction false} RulesStayAtHome(steps: seq<Step>)
    ensures RulesAtHome(Run(steps).tables)
  {
    if steps != [] {
      RulesStayAtHome(steps[..|steps| - 1]);
      StepKeepsHomes(Run(steps[..|steps| - 1]), steps[|steps| - 1]);
    }
  }

  /** In every run every row refers to rows that exist: rules to servers, states to rules, events to both. */
  lemma ReferencesHold(steps: seq<Step>)
    ensures
      var t := Run(steps).tables;
      && (forall id | id in t.rules :: t.rules[id].serverId in t.servers)
      && (forall id | id in t.states :: id in t.rules)
      && (forall i | 0 <= i < |t.events| :: t.events[i].ruleId in t.rules && t.events[i].serverId in t.servers)
  {
    StatesAgreeWithLogs(steps);
    RulesStayAtHome(steps);
  }
}
