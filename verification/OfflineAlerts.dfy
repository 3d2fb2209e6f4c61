/** From reports and sweeps to stored alert events: what an offline rule logs when its evaluator keeps up. */
module OfflineAlerts {
  import opened AlertStateMachine
  import opened AlertMetrics
  import opened AlertLog
  import opened AlertEvaluator
  import opened RuleLogs
  import AlertProtocol
  import LiveModel
  import LiveProtocol
  import ServerRegistry

  /** The log an offline rule should have: firing when its server goes offline, recovered when it returns. */
  function Expected(stream: seq<LiveModel.Event>): seq<Status> {
    if stream == [] then []
    else
      var n := |stream| - 1;
      Expected(stream[..n]) +
      if stream[n].kind == LiveModel.Offline then [Firing]
      else if n > 0 && stream[n - 1].kind == LiveModel.Offline then [Recovered]
      else []
  }

  /** The status an offline rule is in after a stream of events of its server. */
  function Mode(stream: seq<LiveModel.Event>): Status {
    var n := |stream|;
    if n > 0 && stream[n - 1].kind == LiveModel.Offline then Firing
    else if n > 1 && stream[n - 2].kind == LiveModel.Offline then Recovered
    else Normal
  }

  /** An offline rule notifies when its server goes and when it comes back, and never else. */
  lemma OfflineEvaluation(state: State, check: Check, repeatInterval: Clock.Duration)
    requires check.breached ==> state.status == Normal || state.status == Recovered
    requires state.status != Pending && !state.status.Invalid?
    ensures
      var evaluation := Evaluate(state, check, Timing(0, repeatInterval));
      && evaluation.notify == (check.breached || state.status == Firing)
      && evaluation.state.status ==
           if check.breached then Firing else if state.status == Firing then Recovered else Normal
  {
  }

  /** Every event of its server is an evaluation of an offline rule, breached exactly if the server is offline. */
  lemma OfflineCheck(rule: Rule, event: LiveModel.Event, now: int)
    requires IsOfflineRule(rule)
    ensures Concerns(event, rule) <==> event.snapshot.serverId == rule.serverId
    ensures CheckOf(rule, event, now).breached <==> !event.snapshot.online
  {
    OfflineRuleExactly(event.snapshot, rule);
  }

  lemma PrefixIsStream(stream: seq<LiveModel.Event>, more: seq<LiveModel.Event>)
    requires LiveProtocol.IsStream(stream + more)
    ensures LiveProtocol.IsStream(stream)
  {
    assert forall i | 0 <= i < |stream| :: (stream + more)[i] == stream[i];
  }

  lemma OfflineStep(state: State, rule: Rule, stream: seq<LiveModel.Event>, event: LiveModel.Event, now: int)
    requires IsOfflineRule(rule) && LiveProtocol.IsStream(stream + [event]) && state.status == Mode(stream)
    ensures
      var evaluation := Evaluate(state, CheckOf(rule, event, now), TimingOf(rule));
      && evaluation.state.status == Mode(stream + [event])
      && Expected(stream + [event]) == Expected(stream) + if evaluation.notify then [evaluation.state.status] else []
  {
    var next := stream + [event];
    assert next[..|stream|] == stream && next[|stream|] == event;
    if event.kind == LiveModel.Offline {
      assert next[|stream| - 1].kind == LiveModel.Updated;
    }
    OfflineCheck(rule, event, now);
    OfflineEvaluation(state, CheckOf(rule, event, now), TimingOf(rule).repeatInterval);
  }

  /** What the state machine notifies for an offline rule is what its stream calls for, whatever the reminders. */
  lemma {:induction false} OfflineNotices(start: State, rule: Rule, k: nat, events: seq<LiveModel.Event>,
                                          world: nat -> nat -> Attempt)
    requires start.status == Normal && IsOfflineRule(rule)
    requires LiveProtocol.IsStream(LiveProtocol.EventsOf(events, rule.serverId))
    ensures
      var checks, stream := ChecksOf(rule, k, events, world), LiveProtocol.EventsOf(events, rule.serverId);
      && After(start, TimingOf(rule), checks).status == Mode(stream)
      && Notices(start, TimingOf(rule), checks) == Expected(stream)
  {
    if events != [] {
      var n := |events| - 1;
      var stream := LiveProtocol.EventsOf(events[..n], rule.serverId);
      var checks := ChecksOf(rule, k, events[..n], world);
      PrefixIsStream(stream, if events[n].snapshot.serverId == rule.serverId then [events[n]] else []);
      OfflineNotices(start, rule, k, events[..n], world);
      OfflineCheck(rule, events[n], world(n)(k).now);
      assert stream + [] == stream && checks + [] == checks;
      if Concerns(events[n], rule) {
        OfflineStep(After(start, TimingOf(rule), checks), rule, stream, events[n], world(n)(k).now);
        RunGrows(start, TimingOf(rule), checks, CheckOf(rule, events[n], world(n)(k).now));
      }
    }
  }

  // Server and evaluator together

  /** The live side, the evaluator's queue, and the alert tables. */
  datatype Stage = Stage(live: LiveProtocol.World, inbox: Inbox, tables: Tables)

  /** A step of the live side, or the evaluator takes the next event from its queue. */
  datatype Turn = DoLive(step: LiveProtocol.Step) | DoTake(attempts: nat -> Attempt)

  function RulesAt(t: Tables, serverIds: set<int>): set<int> {
    set id | id in t.rules && t.rules[id].serverId in serverIds
  }

  /** The alert tables follow the table of servers: with a server go its rules, their states and its events. */
  function Followed(t: Tables, servers: set<int>): Tables {
    var gone := t.servers - servers;
    AlertProtocol.Cascade(t, RulesAt(t, gone), gone).(servers := servers)
  }

  function SubmittedAll(inbox: Inbox, events: seq<LiveModel.Event>): Inbox {
    if events == [] then inbox
    else
      var n := |events| - 1;
      Submitted(SubmittedAll(inbox, events[..n]), events[n])
  }

  /** What a step of the live side publishes is submitted at once, in order. */
  ghost function AfterLive(s: Stage, step: LiveProtocol.Step): Stage
    requires s.live.site.memory.Valid()
  {
    LiveProtocol.PublishedGrows(s.live, step);
    var next := LiveProtocol.Next(s.live, step);
    Stage(next, SubmittedAll(s.inbox, next.site.published[|s.live.site.published|..]),
          Followed(s.tables, next.site.ledger.rows.Keys))
  }

  function AfterTake(s: Stage, attempts: nat -> Attempt): Stage {
    if s.inbox.queue == [] then s
    else s.(inbox := TookOne(s.inbox), tables := EvaluatedNow(s.tables, s.inbox.queue[0], false, attempts))
  }

  ghost function AfterTurn(s: Stage, turn: Turn): (next: Stage)
    requires s.live.site.memory.Valid()
    ensures next.live.site.memory.Valid()
  {
    match turn
    case DoLive(step) =>
      LiveProtocol.NextIsValid(s.live, step);
      AfterLive(s, step)
    case DoTake(attempts) => AfterTake(s, attempts)
  }

  ghost function AfterTurns(s: Stage, turns: seq<Turn>): (next: Stage)
    requires s.live.site.memory.Valid()
    ensures next.live.site.memory.Valid()
  {
    if turns == [] then s else AfterTurn(AfterTurns(s, turns[..|turns| - 1]), turns[|turns| - 1])
  }

  /** Saves succeed, and no mutation of the registry strays. */
  ghost predicate IsSmooth(s: Stage, turn: Turn)
    requires s.live.site.memory.Valid()
  {
    match turn
    case DoLive(step) => LiveProtocol.StaysTogether(s.live, step)
    case DoTake(attempts) => forall i: nat :: Succeed(attempts(i))
  }

  ghost predicate AreSmooth(s: Stage, turns: seq<Turn>)
    requires s.live.site.memory.Valid()
  {
    turns == [] ||
    (AreSmooth(s, turns[..|turns| - 1]) && IsSmooth(AfterTurns(s, turns[..|turns| - 1]), turns[|turns| - 1]))
  }

  // What every turn keeps

  ghost predicate QueueFits(s: Stage) {
    s.inbox.IsFifo() && s.inbox.submitted == s.live.site.published
  }

  /** The rule's events were logged at its server. */
  ghost predicate AtHome(t: Tables, rule: Rule) {
    forall i | 0 <= i < |LogOf(t.events, rule.id)| :: LogOf(t.events, rule.id)[i].serverId == rule.serverId
  }

  /** State and log of the rule are those the stream calls for. */
  ghost predicate TracksStream(t: Tables, rule: Rule, stream: seq<LiveModel.Event>) {
    StateOf(t, rule.id).status == Mode(stream) && Statuses(LogOf(t.events, rule.id)) == Expected(stream)
  }

  ghost predicate IsErased(t: Tables, rule: Rule) {
    rule.id !in t.rules && LogOf(t.events, rule.id) == []
  }

  ghost predicate RuleFits(s: Stage, rule: Rule) {
    if rule.serverId in s.live.site.ledger.rows then
      && IsStored(s.tables, rule) && AtHome(s.tables, rule)
      && (!s.inbox.overflowed ==>
            TracksStream(s.tables, rule, LiveProtocol.EventsOf(s.inbox.taken, rule.serverId)))
    else IsErased(s.tables, rule) && LiveProtocol.IsGone(s.live.site.ledger, rule.serverId)
  }

  ghost predicate Inv(s: Stage, rule: Rule) {
    && LiveProtocol.Fits(s.live) && RowsFit(s.tables) && s.tables.servers == s.live.site.ledger.rows.Keys
    && QueueFits(s) && RuleFits(s, rule)
  }

  // Steps of the live side

  lemma {:induction false} SubmittedKeeps(inbox: Inbox, events: seq<LiveModel.Event>)
    requires inbox.IsFifo()
    ensures
      var next := SubmittedAll(inbox, events);
      && next.IsFifo() && next.taken == inbox.taken && next.submitted == inbox.submitted + events
      && (inbox.overflowed ==> next.overflowed)
  {
    if events != [] {
      SubmittedKeeps(inbox, events[..|events| - 1]);
      assert events == events[..|events| - 1] + [events[|events| - 1]];
    }
  }

  lemma LiveKeepsQueue(s: Stage, step: LiveProtocol.Step)
    requires s.live.site.memory.Valid() && QueueFits(s)
    ensures
      var next := AfterLive(s, step);
      QueueFits(next) && next.inbox.taken == s.inbox.taken && (s.inbox.overflowed ==> next.inbox.overflowed)
  {
    var published := LiveProtocol.Next(s.live, step).site.published;
    LiveProtocol.PublishedGrows(s.live, step);
    SubmittedKeeps(s.inbox, published[|s.live.site.published|..]);
    assert s.live.site.published + published[|s.live.site.published|..] == published;
  }

  /** Entries of a rule that stays, at a server that stays, are kept. */
  lemma {:induction false} WithoutKeepsLog(events: seq<Event>, ruleIds: set<int>, serverIds: set<int>, id: int)
    requires id !in ruleIds
    requires forall i | 0 <= i < |LogOf(events, id)| :: LogOf(events, id)[i].serverId !in serverIds
    ensures LogOf(AlertProtocol.Without(events, ruleIds, serverIds), id) == LogOf(events, id)
  {
    if events != [] {
      var n := |events| - 1;
      var left := AlertProtocol.Without(events[..n], ruleIds, serverIds);
      assert forall i | 0 <= i < |LogOf(events[..n], id)| :: LogOf(events[..n], id)[i] == LogOf(events, id)[i];
      WithoutKeepsLog(events[..n], ruleIds, serverIds, id);
      assert (left + [events[n]])[..|left|] == left && left + [] == left;
      if events[n].ruleId == id {
        assert LogOf(events, id)[|LogOf(events[..n], id)|] == events[n];
      }
    }
  }

  /** Nothing of a rule that goes is kept. */
  lemma {:induction false} WithoutErases(events: seq<Event>, ruleIds: set<int>, serverIds: set<int>, id: int)
    requires id in ruleIds || LogOf(events, id) == []
    ensures LogOf(AlertProtocol.Without(events, ruleIds, serverIds), id) == []
  {
    if events != [] {
      var n := |events| - 1;
      var left := AlertProtocol.Without(events[..n], ruleIds, serverIds);
      WithoutErases(events[..n], ruleIds, serverIds, id);
      assert (left + [events[n]])[..|left|] == left && left + [] == left;
    }
  }

  lemma RuleStays(t: Tables, servers: set<int>, rule: Rule)
    requires IsStored(t, rule) && AtHome(t, rule) && rule.serverId in servers
    ensures IsStored(Followed(t, servers), rule) && SameRow(t, Followed(t, servers), rule.id)
  {
    var gone := t.servers - servers;
    WithoutKeepsLog(t.events, RulesAt(t, gone), gone, rule.id);
  }

  lemma RuleGoes(t: Tables, servers: set<int>, rule: Rule)
    requires (IsStored(t, rule) && rule.serverId !in servers) || IsErased(t, rule)
    ensures IsErased(Followed(t, servers), rule)
  {
    var gone := t.servers - servers;
    WithoutErases(t.events, RulesAt(t, gone), gone, rule.id);
  }

  lemma LiveKeeps(s: Stage, step: LiveProtocol.Step, rule: Rule)
    requires Inv(s, rule) && LiveProtocol.StaysTogether(s.live, step)
    ensures Inv(AfterLive(s, step), rule)
  {
    var next := AfterLive(s, step);
    LiveProtocol.StepExactly(s.live, step);
    LiveKeepsQueue(s, step);
    LiveKeepsRule(s, step, rule);
    FollowedRowsFit(s.tables, next.live.site.ledger.rows.Keys);
  }

  lemma FollowedRowsFit(t: Tables, servers: set<int>)
    requires RowsFit(t)
    ensures RowsFit(Followed(t, servers)) && Followed(t, servers).servers == servers
  {
  }

  lemma LiveKeepsRule(s: Stage, step: LiveProtocol.Step, rule: Rule)
    requires LiveProtocol.Fits(s.live) && QueueFits(s) && RuleFits(s, rule)
    ensures RuleFits(AfterLive(s, step), rule)
  {
    var servers := LiveProtocol.Next(s.live, step).site.ledger.rows.Keys;
    LiveKeepsQueue(s, step);
    if rule.serverId !in s.live.site.ledger.rows {
      LiveProtocol.StepKeepsGone(s.live, step, rule.serverId);
      RuleGoes(s.tables, servers, rule);
    } else if rule.serverId !in servers {
      LiveProtocol.LastIdGrows(s.live, step);
      RuleGoes(s.tables, servers, rule);
    } else {
      RuleStays(s.tables, servers, rule);
    }
  }

  // Turns of the evaluator

  /** Rules evaluated at the rule's server log at home. */
  lemma {:induction false} EvaluationsAtHome(t: Tables, rules: seq<Rule>, n: nat, rule: Rule, event: LiveModel.Event,
                                             attempts: nat -> Attempt)
    requires RowsFit(t) && AtHome(t, rule) && n <= |rules|
    requires forall i | 0 <= i < n && rules[i].id == rule.id :: event.snapshot.serverId == rule.serverId
    ensures AtHome(EvaluatedAll(t, rules, n, event, attempts), rule)
  {
    if n > 0 {
      var u := EvaluatedAll(t, rules, n - 1, event, attempts);
      EvaluationsAtHome(t, rules, n - 1, rule, event, attempts);
      ManyStay(t, rules, n - 1, event, attempts, rule.id);
      EvaluationAtHome(u, rules[n - 1], rule, event, attempts(n - 1));
    }
  }

  lemma EvaluationAtHome(t: Tables, evaluated: Rule, rule: Rule, event: LiveModel.Event, attempt: Attempt)
    requires RowsFit(t) && AtHome(t, rule) && (evaluated.id == rule.id ==> event.snapshot.serverId == rule.serverId)
    ensures AtHome(Evaluated(t, evaluated, event, attempt), rule)
  {
    var state := StateOf(t, evaluated.id);
    var occasion := OccasionOf(evaluated, event, attempt.now);
    OutcomeRule(state, occasion);
    SaveRow(t, Outcome(state, occasion), EventOf(state, occasion), attempt.savedAt, attempt.fault, rule.id);
  }

  /** An event of another server, or one too late for the rule, leaves the rule alone. */
  lemma OthersEvent(t: Tables, rule: Rule, event: LiveModel.Event, attempts: nat -> Attempt)
    requires RowsFit(t) && (rule.id in t.rules ==> HasRule(t, rule) && event.snapshot.serverId != rule.serverId)
    ensures
      var u := EvaluatedNow(t, event, false, attempts);
      SameRules(t, u) && RowsFit(u) && SameRow(t, u, rule.id)
  {
    var rules := EnabledRules(t, event.snapshot.serverId, t.lastRuleId);
    ListedAreRules(t, event.snapshot.serverId, t.lastRuleId);
    ManyStay(t, rules, |rules|, event, attempts, rule.id);
  }

  lemma EventAtHome(t: Tables, rule: Rule, event: LiveModel.Event, attempts: nat -> Attempt)
    requires IsStored(t, rule) && AtHome(t, rule)
    ensures
      var u := EvaluatedNow(t, event, false, attempts);
      IsStored(u, rule) && AtHome(u, rule) && SameRules(t, u)
  {
    var rules := EnabledRules(t, event.snapshot.serverId, t.lastRuleId);
    ListedAreRules(t, event.snapshot.serverId, t.lastRuleId);
    ManyStay(t, rules, |rules|, event, attempts, rule.id);
    EvaluationsAtHome(t, rules, |rules|, rule, event, attempts);
  }

  /** An event of the rule's server moves state and log on as its stream calls for. */
  lemma OwnEvent(t: Tables, rule: Rule, stream: seq<LiveModel.Event>, event: LiveModel.Event, attempts: nat -> Attempt)
    requires IsStored(t, rule) && IsOfflineRule(rule) && event.snapshot.serverId == rule.serverId
    requires TracksStream(t, rule, stream) && LiveProtocol.IsStream(stream + [event])
    requires forall i: nat :: Succeed(attempts(i))
    ensures TracksStream(EvaluatedNow(t, event, false, attempts), rule, stream + [event])
  {
    ListedAreRules(t, rule.serverId, t.lastRuleId);
    EnabledAreListed(t, rule, t.lastRuleId);
    var rules := EnabledRules(t, rule.serverId, t.lastRuleId);
    var k :| 0 <= k < |rules| && rules[k] == rule;
    var start, base := StateOf(t, rule.id), Statuses(LogOf(t.events, rule.id));
    var check := CheckOf(rule, event, attempts(k).now);
    OfflineCheck(rule, event, attempts(k).now);
    assert base + [] == base && [] + [check] == [check];
    EventStep(t, rule, k, start, base, [], event, attempts);
    RunGrows(start, TimingOf(rule), [], check);
    OfflineStep(start, rule, stream, event, attempts(k).now);
    assert Notices(start, TimingOf(rule), []) == [];
  }

  lemma EventsOfNext(taken: seq<LiveModel.Event>, event: LiveModel.Event, id: int)
    ensures LiveProtocol.EventsOf(taken + [event], id)
            == LiveProtocol.EventsOf(taken, id) + if event.snapshot.serverId == id then [event] else []
  {
    assert (taken + [event])[..|taken|] == taken;
  }

  lemma OwnTakeKeepsRule(s: Stage, attempts: nat -> Attempt, rule: Rule)
    requires Inv(s, rule) && IsOfflineRule(rule) && s.inbox.queue != [] && forall i: nat :: Succeed(attempts(i))
    requires rule.serverId in s.live.site.ledger.rows && s.inbox.queue[0].snapshot.serverId == rule.serverId
    ensures RuleFits(AfterTake(s, attempts), rule)
  {
    EventAtHome(s.tables, rule, s.inbox.queue[0], attempts);
    if !s.inbox.overflowed {
      NextIsStream(s, rule);
      OwnEvent(s.tables, rule, LiveProtocol.EventsOf(s.inbox.taken, rule.serverId), s.inbox.queue[0], attempts);
    }
  }

  lemma OtherTakeKeepsRule(s: Stage, attempts: nat -> Attempt, rule: Rule)
    requires Inv(s, rule) && s.inbox.queue != []
    requires !(rule.serverId in s.live.site.ledger.rows && s.inbox.queue[0].snapshot.serverId == rule.serverId)
    ensures RuleFits(AfterTake(s, attempts), rule)
  {
    var event := s.inbox.queue[0];
    OthersEvent(s.tables, rule, event, attempts);
    if rule.serverId in s.live.site.ledger.rows {
      EventAtHome(s.tables, rule, event, attempts);
      EventsOfNext(s.inbox.taken, event, rule.serverId);
      assert LiveProtocol.EventsOf(s.inbox.taken, rule.serverId) + []
             == LiveProtocol.EventsOf(s.inbox.taken, rule.serverId);
    }
  }

  lemma TakeKeepsRows(t: Tables, event: LiveModel.Event, attempts: nat -> Attempt)
    requires RowsFit(t)
    ensures
      var u := EvaluatedNow(t, event, false, attempts);
      RowsFit(u) && u.servers == t.servers
  {
    var rules := EnabledRules(t, event.snapshot.serverId, t.lastRuleId);
    ManyStay(t, rules, |rules|, event, attempts, 0);
  }

  /** What the evaluator has taken, and the next event, are a beginning of what was published. */
  lemma NextIsStream(s: Stage, rule: Rule)
    requires LiveProtocol.Fits(s.live) && QueueFits(s) && s.inbox.queue != [] && !s.inbox.overflowed
    requires s.inbox.queue[0].snapshot.serverId == rule.serverId
    ensures
      var next := LiveProtocol.EventsOf(s.inbox.taken + [s.inbox.queue[0]], rule.serverId);
      && LiveProtocol.IsStream(next)
      && next == LiveProtocol.EventsOf(s.inbox.taken, rule.serverId) + [s.inbox.queue[0]]
  {
    var event := s.inbox.queue[0];
    var before, after := s.inbox.taken + [event], s.inbox.queue[1..];
    assert before + after == s.inbox.taken + s.inbox.queue == s.live.site.published;
    LiveProtocol.EventsOfJoins(before, after, rule.serverId);
    EventsOfNext(s.inbox.taken, event, rule.serverId);
    assert LiveProtocol.StreamFits(LiveProtocol.EventsOf(s.live.site.published, rule.serverId), s.live.site.snapshots,
                                   rule.serverId);
    PrefixIsStream(LiveProtocol.EventsOf(before, rule.serverId), LiveProtocol.EventsOf(after, rule.serverId));
  }

  lemma TakeKeepsQueue(s: Stage, attempts: nat -> Attempt)
    requires QueueFits(s) && s.inbox.queue != []
    ensures QueueFits(AfterTake(s, attempts))
  {
    assert s.inbox.queue == [s.inbox.queue[0]] + s.inbox.queue[1..];
  }

  lemma TurnKeeps(s: Stage, turn: Turn, rule: Rule)
    requires Inv(s, rule) && IsOfflineRule(rule) && IsSmooth(s, turn)
    ensures Inv(AfterTurn(s, turn), rule)
  {
    match turn
    case DoLive(step) => LiveKeeps(s, step, rule);
    case DoTake(attempts) =>
      if s.inbox.queue != [] {
        TakeKeepsRows(s.tables, s.inbox.queue[0], attempts);
        TakeKeepsQueue(s, attempts);
        if rule.serverId in s.live.site.ledger.rows && s.inbox.queue[0].snapshot.serverId == rule.serverId {
          OwnTakeKeepsRule(s, attempts, rule);
        } else {
          OtherTakeKeepsRule(s, attempts, rule);
        }
      }
  }

  lemma {:induction false} TurnsKeep(s: Stage, turns: seq<Turn>, rule: Rule)
    requires Inv(s, rule) && IsOfflineRule(rule) && AreSmooth(s, turns)
    ensures Inv(AfterTurns(s, turns), rule)
  {
    if turns != [] {
      var before, last := turns[..|turns| - 1], turns[|turns| - 1];
      TurnsKeep(s, before, rule);
      TurnKeeps(AfterTurns(s, before), last, rule);
    }
  }

  /** The rule is stored and quiet, and no event of its server has been published yet. */
  ghost predicate IsReady(s: Stage, rule: Rule) {
    && rule.serverId in s.live.site.ledger.rows && LiveProtocol.EventsOf(s.live.site.published, rule.serverId) == []
    && IsStored(s.tables, rule) && s.tables.servers == s.live.site.ledger.rows.Keys
    && StateOf(s.tables, rule.id).status == Normal && LogOf(s.tables.events, rule.id) == []
    && s.inbox.IsFifo() && s.inbox.submitted == s.live.site.published
  }

  /**
   End to end: let an offline rule be stored before the first report of its server, and let reports, sweeps, updates and
   deletions of any servers follow in any order, with the evaluator taking events from its queue in between. As long as
   the server is registered and the queue has not overflowed, the rule has logged one firing event for every event taken
   that took its server offline, one recovered event for every return, in order, and nothing else. Once the server is
   deleted, rule and log are gone, and stay so whatever events are still taken.
   */
  lemma OfflineEpisodesExactly(earlier: seq<LiveProtocol.Step>, start: Stage, turns: seq<Turn>, rule: Rule)
    requires LiveProtocol.NoneStrays(LiveProtocol.START, earlier)
    requires start.live == LiveProtocol.After(LiveProtocol.START, earlier)
    requires IsReady(start, rule) && IsOfflineRule(rule) && AreSmooth(start, turns)
    ensures
      var s := AfterTurns(start, turns);
      if rule.serverId in s.live.site.ledger.rows then
        !s.inbox.overflowed ==>
          Statuses(LogOf(s.tables.events, rule.id)) == Expected(LiveProtocol.EventsOf(s.inbox.taken, rule.serverId))
      else rule.id !in s.tables.rules && LogOf(s.tables.events, rule.id) == []
  {
    LiveProtocol.RunsFit(LiveProtocol.START, earlier);
    ReadyFits(start, rule);
    TurnsKeep(start, turns, rule);
  }

  /** Such a beginning: one registered server, and an offline rule for it. */
  lemma ReadyExists(name: string, token: string, at: int)
    returns (earlier: seq<LiveProtocol.Step>, start: Stage, rule: Rule)
    requires ServerRegistry.TrimSpace(name) != ""
    ensures LiveProtocol.NoneStrays(LiveProtocol.START, earlier)
    ensures start.live == LiveProtocol.After(LiveProtocol.START, earlier) && IsReady(start, rule) && IsOfflineRule(rule)
  {
    var create := LiveProtocol.DoCreate(name, token, at, false);
    LiveProtocol.FirstServer(name, token, at);
    LiveProtocol.OneMoreStep(LiveProtocol.START, [], create);
    earlier := [] + [create];
    rule := Rule(1, 1, OfflineMetric, GreaterThan, 0.0, 0, 0, true);
    start := Stage(LiveProtocol.Next(LiveProtocol.START, create), Inbox([], {}, [], [], false),
                   Tables({1}, map[1 := rule], map[], [], 1, 0));
  }

  lemma ReadyFits(s: Stage, rule: Rule)
    requires LiveProtocol.Fits(s.live) && IsReady(s, rule)
    ensures Inv(s, rule)
  {
    if !s.inbox.overflowed {
      LiveProtocol.EventsOfJoins(s.inbox.taken, s.inbox.queue, rule.serverId);
      assert LiveProtocol.EventsOf(s.inbox.taken, rule.serverId) == [];
    }
    assert Statuses(LogOf(s.tables.events, rule.id)) == [];
  }

  /** Until the queue overflows, the events taken are a beginning of those published. */
  lemma TakenIsPrefix(earlier: seq<LiveProtocol.Step>, start: Stage, turns: seq<Turn>, rule: Rule)
    requires LiveProtocol.NoneStrays(LiveProtocol.START, earlier)
    requires start.live == LiveProtocol.After(LiveProtocol.START, earlier)
    requires IsReady(start, rule) && IsOfflineRule(rule) && AreSmooth(start, turns)
    ensures
      var s := AfterTurns(start, turns);
      !s.inbox.overflowed ==> s.inbox.taken <= s.live.site.published
  {
    LiveProtocol.RunsFit(LiveProtocol.START, earlier);
    ReadyFits(start, rule);
    TurnsKeep(start, turns, rule);
    var inbox := AfterTurns(start, turns).inbox;
    assert !inbox.overflowed ==> inbox.taken <= inbox.taken + inbox.queue;
  }

  // What the expected log says

  function Count(statuses: seq<Status>, status: Status): nat {
    if statuses == [] then 0
    else
      var n := |statuses| - 1;
      Count(statuses[..n], status) + if statuses[n] == status then 1 else 0
  }

  function CountOffline(stream: seq<LiveModel.Event>): nat {
    if stream == [] then 0
    else
      var n := |stream| - 1;
      CountOffline(stream[..n]) + if stream[n].kind == LiveModel.Offline then 1 else 0
  }

  /** There are as many firing events as offline events, and as many recovered ones but for a server still offline. */
  lemma {:induction false} ExpectedCounts(stream: seq<LiveModel.Event>)
    requires LiveProtocol.IsStream(stream)
    ensures Count(Expected(stream), Firing) == CountOffline(stream)
    ensures Count(Expected(stream), Recovered)
            == CountOffline(stream) - if Mode(stream) == Firing then 1 else 0
  {
    if stream != [] {
      var n := |stream| - 1;
      var before := Expected(stream[..n]);
      PrefixIsStream(stream[..n], [stream[n]]);
      assert stream[..n] + [stream[n]] == stream;
      ExpectedCounts(stream[..n]);
      assert (before + [Firing])[..|before|] == before && (before + [Recovered])[..|before|] == before;
      assert before + [] == before;
    }
  }
}
