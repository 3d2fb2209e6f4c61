/** What a rule has logged after a sequence of live events, however many other rules are evaluated beside it. */
module RuleLogs {
  import opened Wrappers
  import opened AlertStateMachine
  import opened AlertMetrics
  import opened AlertLog
  import opened AlertEvaluator
  import LiveModel

  /** The live events, taken up in order; every evaluation of every rule is an attempt of its own. */
  function Drained(t: Tables, events: seq<LiveModel.Event>, world: nat -> nat -> Attempt): Tables {
    if events == [] then t
    else
      var n := |events| - 1;
      EvaluatedNow(Drained(t, events[..n], world), events[n], false, world(n))
  }

  function Statuses(log: seq<Event>): (statuses: seq<Status>)
    ensures |statuses| == |log| && forall i | 0 <= i < |log| :: statuses[i] == log[i].status
  {
    seq(|log|, i requires 0 <= i < |log| => log[i].status)
  }

  predicate Succeed(attempt: Attempt) {
    !attempt.readFails && attempt.fault == NoFault
  }

  ghost predicate AllSucceed(world: nat -> nat -> Attempt) {
    forall i: nat, j: nat :: Succeed(world(i)(j))
  }

  /** The rules are stored under their identifiers, and states under those of their rules. */
  ghost predicate RowsFit(t: Tables) {
    && (forall id | id in t.rules :: t.rules[id].id == id && 1 <= id <= t.lastRuleId)
    && (forall id | id in t.states :: t.states[id].ruleId == id)
  }

  /** Tables that differ in states and events alone. */
  predicate SameRules(t: Tables, u: Tables) {
    t.rules == u.rules && t.servers == u.servers && t.lastRuleId == u.lastRuleId
  }

  predicate SameRow(t: Tables, u: Tables, id: int) {
    StateOf(t, id) == StateOf(u, id) && LogOf(t.events, id) == LogOf(u.events, id)
  }

  // One rule among many

  lemma OutcomeRule(state: State, occasion: Occasion)
    ensures Outcome(state, occasion).ruleId == state.ruleId
    ensures EventOf(state, occasion).Some? ==>
      && EventOf(state, occasion).value.ruleId == occasion.ruleId
      && EventOf(state, occasion).value.serverId == occasion.serverId
  {
  }

  lemma SaveRow(t: Tables, state: State, event: Option<Event>, now: int, fault: Fault, id: int)
    requires RowsFit(t) && (event.Some? ==> event.value.ruleId == state.ruleId)
    ensures
      var u := AfterSave(t, state, event, now, fault);
      && SameRules(t, u) && RowsFit(u)
      && (id != state.ruleId ==> SameRow(t, u, id))
      && (id == state.ruleId && Succeeds(t, state, event, fault) ==>
            && StateOf(u, id) == state.(updatedAt := now)
            && LogOf(u.events, id) == if event.None? then LogOf(t.events, id)
                                      else LogOf(t.events, id) + [Stored(t, event.value, now)])
  {
    if event.Some? {
      var u := Saved(t, state, event, now);
      assert u.events[..|t.events|] == t.events;
      assert LogOf(t.events, id) + [] == LogOf(t.events, id);
    }
  }

  /** Evaluating a rule leaves the rules and the rows of other rules alone. */
  lemma OtherRulesStay(t: Tables, rule: Rule, event: LiveModel.Event, attempt: Attempt, id: int)
    requires RowsFit(t)
    ensures SameRules(t, Evaluated(t, rule, event, attempt)) && RowsFit(Evaluated(t, rule, event, attempt))
    ensures id != rule.id ==> SameRow(t, Evaluated(t, rule, event, attempt), id)
  {
    var state := StateOf(t, rule.id);
    var occasion := OccasionOf(rule, event, attempt.now);
    OutcomeRule(state, occasion);
    SaveRow(t, Outcome(state, occasion), EventOf(state, occasion), attempt.savedAt, attempt.fault, id);
  }

  lemma {:induction false} ManyStay(t: Tables, rules: seq<Rule>, n: nat, event: LiveModel.Event,
                                    world: nat -> Attempt, id: int)
    requires RowsFit(t) && n <= |rules|
    ensures SameRules(t, EvaluatedAll(t, rules, n, event, world)) && RowsFit(EvaluatedAll(t, rules, n, event, world))
    ensures (forall i | 0 <= i < n :: rules[i].id != id) ==> SameRow(t, EvaluatedAll(t, rules, n, event, world), id)
  {
    if n > 0 {
      ManyStay(t, rules, n - 1, event, world, id);
      OtherRulesStay(EvaluatedAll(t, rules, n - 1, event, world), rules[n - 1], event, world(n - 1), id);
    }
  }

  predicate HasRule(t: Tables, rule: Rule) {
    rule.id in t.rules && t.rules[rule.id] == rule
  }

  ghost predicate AreRulesOf(t: Tables, serverId: int, bound: int, rules: seq<Rule>) {
    && (forall i | 0 <= i < |rules| ::
          && rules[i].id in t.rules && t.rules[rules[i].id] == rules[i]
          && rules[i].enabled && rules[i].serverId == serverId && rules[i].id <= bound)
    && (forall i, j | 0 <= i < j < |rules| :: rules[i].id < rules[j].id)
  }

  /** The rules listed for a server are enabled rules of it, each once. */
  lemma {:induction false} ListedAreRules(t: Tables, serverId: int, bound: nat)
    requires RowsFit(t)
    ensures AreRulesOf(t, serverId, bound, EnabledRules(t, serverId, bound))
  {
    if bound > 0 {
      ListedAreRules(t, serverId, bound - 1);
      if bound in t.rules {
        assert HasRule(t, t.rules[bound]);
      }
    }
  }

  /** Every enabled rule of a server is listed. */
  lemma {:induction false} EnabledAreListed(t: Tables, rule: Rule, bound: nat)
    requires RowsFit(t) && HasRule(t, rule) && rule.enabled && rule.id <= bound
    ensures rule in EnabledRules(t, rule.serverId, bound)
  {
    if rule.id < bound {
      EnabledAreListed(t, rule, bound - 1);
    }
  }

  // The rule's own evaluations

  ghost predicate IsStored(t: Tables, rule: Rule) {
    && RowsFit(t) && HasRule(t, rule) && rule.enabled
    && rule.serverId >= 1 && rule.serverId in t.servers
  }

  /** The rule is the k-th to be evaluated on events of its server. */
  predicate IsAt(t: Tables, rule: Rule, k: nat) {
    var rules := EnabledRules(t, rule.serverId, t.lastRuleId);
    k < |rules| && rules[k] == rule
  }

  lemma {:induction false} SameRulesSameList(t: Tables, u: Tables, serverId: int, bound: nat)
    requires t.rules == u.rules
    ensures EnabledRules(t, serverId, bound) == EnabledRules(u, serverId, bound)
  {
    if bound > 0 {
      SameRulesSameList(t, u, serverId, bound - 1);
    }
  }

  function TimingOf(rule: Rule): Timing {
    Timing(DurationFor(rule), Clock.Seconds(rule.repeatSeconds))
  }

  predicate Concerns(event: LiveModel.Event, rule: Rule) {
    event.snapshot.serverId == rule.serverId && !IsSkipped(rule, event)
  }

  function CheckOf(rule: Rule, event: LiveModel.Event, now: int): Check {
    var value := ValueOf(event.snapshot, rule.metric);
    Check(IsBreached(value, rule), value, now)
  }

  /** The evaluations of the k-th rule of its server that some events lead to. */
  function ChecksOf(rule: Rule, k: nat, events: seq<LiveModel.Event>, world: nat -> nat -> Attempt): seq<Check> {
    if events == [] then []
    else
      var n := |events| - 1;
      ChecksOf(rule, k, events[..n], world) +
      if Concerns(events[n], rule) then [CheckOf(rule, events[n], world(n)(k).now)] else []
  }

  /** The statuses the state machine notifies in a run. */
  function Notices(start: State, timing: Timing, checks: seq<Check>): seq<Status> {
    if checks == [] then []
    else
      var n := |checks| - 1;
      var last := At(start, timing, checks, n);
      Notices(start, timing, checks[..n]) + if last.notify then [last.state.status] else []
  }

  /** Where evaluations have taken a rule: the state, but for the time it was saved at, and what was logged. */
  ghost predicate Tracks(t: Tables, rule: Rule, start: State, base: seq<Status>, checks: seq<Check>) {
    && StateOf(t, rule.id).(updatedAt := 0) == After(start, TimingOf(rule), checks).(updatedAt := 0)
    && Statuses(LogOf(t.events, rule.id)) == base + Notices(start, TimingOf(rule), checks)
  }

  lemma StatusesGrow(log: seq<Event>, event: Event)
    ensures Statuses(log + [event]) == Statuses(log) + [event.status]
  {
  }

  /** What is saved is acceptable: evaluation leaves no invalid status. */
  lemma OutcomeIsValid(state: State, occasion: Occasion)
    ensures !Outcome(state, occasion).status.Invalid?
    ensures EventOf(state, occasion).Some? ==> EventOf(state, occasion).value.status == Outcome(state, occasion).status
  {
  }

  /** The time a state was saved at plays no part in its evaluation. */
  lemma SaveTimeIsIgnored(a: State, b: State, check: Check, timing: Timing)
    requires a.(updatedAt := 0) == b.(updatedAt := 0)
    ensures Evaluate(a, check, timing) == Evaluate(b, check, timing)
  {
    assert a.(lastValue := Some(check.value), updatedAt := check.now)
           == b.(lastValue := Some(check.value), updatedAt := check.now);
    assert a.status == b.status;
  }

  lemma RunGrows(start: State, timing: Timing, checks: seq<Check>, check: Check)
    ensures After(start, timing, checks + [check]) == Evaluate(After(start, timing, checks), check, timing).state
    ensures
      var last := Evaluate(After(start, timing, checks), check, timing);
      Notices(start, timing, checks + [check]) ==
        Notices(start, timing, checks) + if last.notify then [last.state.status] else []
  {
    assert (checks + [check])[..|checks|] == checks;
  }

  /** A successful evaluation is one more evaluation of the run. */
  lemma OwnRow(t: Tables, rule: Rule, event: LiveModel.Event, attempt: Attempt)
    requires IsStored(t, rule) && Concerns(event, rule) && Succeed(attempt)
    ensures
      var evaluation := Evaluate(StateOf(t, rule.id), CheckOf(rule, event, attempt.now), TimingOf(rule));
      var u := Evaluated(t, rule, event, attempt);
      && StateOf(u, rule.id).(updatedAt := 0) == evaluation.state.(updatedAt := 0)
      && Statuses(LogOf(u.events, rule.id)) ==
           Statuses(LogOf(t.events, rule.id)) + if evaluation.notify then [evaluation.state.status] else []
  {
    var state := StateOf(t, rule.id);
    var occasion := OccasionOf(rule, event, attempt.now);
    OutcomeRule(state, occasion);
    OutcomeIsValid(state, occasion);
    var made := EventOf(state, occasion);
    SaveRow(t, Outcome(state, occasion), made, attempt.savedAt, attempt.fault, rule.id);
    if made.Some? {
      StatusesGrow(LogOf(t.events, rule.id), Stored(t, made.value, attempt.savedAt));
    }
  }

  lemma OwnStep(t: Tables, rule: Rule, start: State, base: seq<Status>, checks: seq<Check>,
                event: LiveModel.Event, attempt: Attempt)
    requires IsStored(t, rule) && Concerns(event, rule) && Succeed(attempt)
    requires Tracks(t, rule, start, base, checks)
    ensures Tracks(Evaluated(t, rule, event, attempt), rule, start, base, checks + [CheckOf(rule, event, attempt.now)])
  {
    var check := CheckOf(rule, event, attempt.now);
    OwnRow(t, rule, event, attempt);
    SaveTimeIsIgnored(StateOf(t, rule.id), After(start, TimingOf(rule), checks), check, TimingOf(rule));
    RunGrows(start, TimingOf(rule), checks, check);
  }

  lemma {:induction false} OwnAmongMany(t: Tables, rules: seq<Rule>, n: nat, k: nat, start: State, base: seq<Status>,
                                        checks: seq<Check>, event: LiveModel.Event, world: nat -> Attempt)
    requires k < n <= |rules| && forall i | 0 <= i < n && i != k :: rules[i].id != rules[k].id
    requires IsStored(t, rules[k]) && Concerns(event, rules[k]) && Succeed(world(k))
    requires Tracks(t, rules[k], start, base, checks)
    ensures Tracks(EvaluatedAll(t, rules, n, event, world), rules[k], start, base,
                   checks + [CheckOf(rules[k], event, world(k).now)])
    decreases n
  {
    var u := EvaluatedAll(t, rules, n - 1, event, world);
    ManyStay(t, rules, n - 1, event, world, rules[k].id);
    if n == k + 1 {
      OwnStep(u, rules[k], start, base, checks, event, world(k));
    } else {
      OwnAmongMany(t, rules, n - 1, k, start, base, checks, event, world);
      OtherRulesStay(u, rules[n - 1], event, world(n - 1), rules[k].id);
    }
  }

  /** A rule that passes an event over keeps its row. */
  lemma {:induction false} PassedOver(t: Tables, rules: seq<Rule>, n: nat, rule: Rule, event: LiveModel.Event,
                                      world: nat -> Attempt)
    requires RowsFit(t) && n <= |rules| && IsSkipped(rule, event)
    requires forall i | 0 <= i < n && rules[i].id == rule.id :: rules[i] == rule
    ensures SameRow(t, EvaluatedAll(t, rules, n, event, world), rule.id)
  {
    if n > 0 {
      var u := EvaluatedAll(t, rules, n - 1, event, world);
      PassedOver(t, rules, n - 1, rule, event, world);
      ManyStay(t, rules, n - 1, event, world, rule.id);
      OtherRulesStay(u, rules[n - 1], event, world(n - 1), rule.id);
    }
  }

  lemma EventStep(t: Tables, rule: Rule, k: nat, start: State, base: seq<Status>, checks: seq<Check>,
                  event: LiveModel.Event, world: nat -> Attempt)
    requires IsStored(t, rule) && IsAt(t, rule, k) && Succeed(world(k))
    requires Tracks(t, rule, start, base, checks)
    ensures IsStored(EvaluatedNow(t, event, false, world), rule)
    ensures SameRules(t, EvaluatedNow(t, event, false, world))
    ensures Tracks(EvaluatedNow(t, event, false, world), rule, start, base,
                   checks + if Concerns(event, rule) then [CheckOf(rule, event, world(k).now)] else [])
  {
    var rules := EnabledRules(t, event.snapshot.serverId, t.lastRuleId);
    ListedAreRules(t, event.snapshot.serverId, t.lastRuleId);
    ManyStay(t, rules, |rules|, event, world, rule.id);
    assert checks + [] == checks;
    if Concerns(event, rule) {
      OwnAmongMany(t, rules, |rules|, k, start, base, checks, event, world);
    } else if event.snapshot.serverId == rule.serverId {
      PassedOver(t, rules, |rules|, rule, event, world);
    } else {
      assert forall i | 0 <= i < |rules| :: rules[i].id != rule.id;
    }
  }

  /**
   Once an evaluator has taken up some events without failures, a rule has logged exactly what the state machine
   notifies in the run of its own evaluations, whatever other rules were evaluated in between.
   */
  lemma {:induction false} LogIsNotifications(t: Tables, rule: Rule, k: nat, events: seq<LiveModel.Event>,
                                              world: nat -> nat -> Attempt)
    requires IsStored(t, rule) && IsAt(t, rule, k) && AllSucceed(world)
    ensures IsStored(Drained(t, events, world), rule) && SameRules(t, Drained(t, events, world))
    ensures Tracks(Drained(t, events, world), rule, StateOf(t, rule.id), Statuses(LogOf(t.events, rule.id)),
                   ChecksOf(rule, k, events, world))
  {
    var start, base := StateOf(t, rule.id), Statuses(LogOf(t.events, rule.id));
    if events == [] {
      assert base + [] == base;
    } else {
      var n := |events| - 1;
      LogIsNotifications(t, rule, k, events[..n], world);
      var u := Drained(t, events[..n], world);
      SameRulesSameList(t, u, rule.serverId, t.lastRuleId);
      assert Succeed(world(n)(k));
      EventStep(u, rule, k, start, base, ChecksOf(rule, k, events[..n], world), events[n], world(n));
    }
  }

  /** What should be notified in a run without reminders, said of the evaluations alone. */
  ghost function DeclaredNotices(checks: seq<Check>, duration: Clock.Duration): seq<Status> {
    if checks == [] then []
    else
      var n := |checks| - 1;
      DeclaredNotices(checks[..n], duration) +
      if ShouldFire(checks, duration, n) then [Firing]
      else if ShouldRecover(checks, duration, n) then [Recovered]
      else []
  }

  lemma {:induction false} NoticesAreDeclared(start: State, timing: Timing, checks: seq<Check>)
    requires IsQuiet(start) && timing.repeatInterval <= 0
    ensures Notices(start, timing, checks) == DeclaredNotices(checks, timing.duration)
  {
    if checks != [] {
      var n := |checks| - 1;
      NoticesAreDeclared(start, timing, checks[..n]);
      NotificationsExactly(start, timing, checks, n);
      StatesAreDeclared(start, timing, checks, n);
      if checks[n].breached {
        FiringStep(checks, timing.duration, n);
      }
    }
  }

  /**
   A rule without reminders has logged one firing event for the first evaluation at which each breach had lasted for
   its duration, one recovered event for the first evaluation after such a breach, in order, and nothing else.
   */
  lemma LogIsDeclared(t: Tables, rule: Rule, k: nat, events: seq<LiveModel.Event>, world: nat -> nat -> Attempt)
    requires IsStored(t, rule) && IsAt(t, rule, k) && AllSucceed(world)
    requires IsQuiet(StateOf(t, rule.id)) && LogOf(t.events, rule.id) == [] && Clock.Seconds(rule.repeatSeconds) <= 0
    ensures Statuses(LogOf(Drained(t, events, world).events, rule.id))
            == DeclaredNotices(ChecksOf(rule, k, events, world), DurationFor(rule))
  {
    LogIsNotifications(t, rule, k, events, world);
    NoticesAreDeclared(StateOf(t, rule.id), TimingOf(rule), ChecksOf(rule, k, events, world));
    assert Statuses(LogOf(t.events, rule.id)) == [];
  }

  // In the fields of rule and event

  /** What one evaluation of a rule looks at. */
  ghost predicate TellsEvent(check: Check, rule: Rule, event: LiveModel.Event, now: int) {
    && check.now == now
    && IsReading(event.snapshot, rule.metric, check.value)
    && (check.breached <==>
          || (rule.operator == GreaterThan && check.value > rule.threshold)
          || (rule.operator == LessThan && check.value < rule.threshold))
  }

  /**
   One check for every event of the rule's server, in order; events that tell that the server went offline count for
   offline rules alone.
   */
  ghost predicate AreChecksOf(checks: seq<Check>, rule: Rule, k: nat, events: seq<LiveModel.Event>,
                              world: nat -> nat -> Attempt)
    decreases |events|
  {
    if events == [] then checks == []
    else
      var n, m := |events| - 1, |checks| - 1;
      if && events[n].snapshot.serverId == rule.serverId
         && (events[n].kind == LiveModel.Updated || rule.metric == OfflineMetric)
      then
        && checks != [] && TellsEvent(checks[m], rule, events[n], world(n)(k).now)
        && AreChecksOf(checks[..m], rule, k, events[..n], world)
      else AreChecksOf(checks, rule, k, events[..n], world)
  }

  lemma CheckTellsEvent(rule: Rule, event: LiveModel.Event, now: int)
    ensures TellsEvent(CheckOf(rule, event, now), rule, event, now)
  {
    ValuesAreReadings(event.snapshot, rule.metric);
    BreachedExactly(ValueOf(event.snapshot, rule.metric), rule);
  }

  lemma {:induction false} ChecksAreReadings(rule: Rule, k: nat, events: seq<LiveModel.Event>,
                                             world: nat -> nat -> Attempt)
    ensures AreChecksOf(ChecksOf(rule, k, events, world), rule, k, events, world)
  {
    if events != [] {
      var n := |events| - 1;
      var before := ChecksOf(rule, k, events[..n], world);
      ChecksAreReadings(rule, k, events[..n], world);
      CheckTellsEvent(rule, events[n], world(n)(k).now);
      assert before + [] == before;
      assert (before + [CheckOf(rule, events[n], world(n)(k).now)])[..|before|] == before;
    }
  }

  /** The duration and the reminders of a rule, from its seconds. */
  lemma TimingExactly(rule: Rule)
    ensures rule.metric == OfflineMetric ==> TimingOf(rule).duration == 0
    ensures rule.metric != OfflineMetric && 0 <= rule.durationSeconds <= 9_223_372_036 ==>
      TimingOf(rule).duration == rule.durationSeconds * 1_000_000_000
    ensures 0 <= rule.repeatSeconds <= 9_223_372_036 ==>
      TimingOf(rule).repeatInterval == rule.repeatSeconds * 1_000_000_000
  {
    DurationExactly(rule);
    if rule.repeatSeconds >= 0 {
      Clock.SecondsExactly(rule.repeatSeconds);
    }
  }

  /** Nanoseconds that are a duration. */
  function Nanoseconds(seconds: int): Clock.Duration
    requires 0 <= seconds <= 9_223_372_036
  {
    seconds * 1_000_000_000
  }

  /** The log of a rule without reminders, in the rule's own fields and those of the events. */
  lemma LogIsDeclaredInFields(t: Tables, rule: Rule, k: nat, events: seq<LiveModel.Event>,
                              world: nat -> nat -> Attempt)
    returns (checks: seq<Check>)
    requires IsStored(t, rule) && IsAt(t, rule, k) && AllSucceed(world)
    requires IsQuiet(StateOf(t, rule.id)) && LogOf(t.events, rule.id) == [] && rule.repeatSeconds == 0
    requires 0 <= rule.durationSeconds <= 9_223_372_036
    ensures AreChecksOf(checks, rule, k, events, world)
    ensures rule.metric == OfflineMetric ==>
      Statuses(LogOf(Drained(t, events, world).events, rule.id)) == DeclaredNotices(checks, 0)
    ensures rule.metric != OfflineMetric ==>
      Statuses(LogOf(Drained(t, events, world).events, rule.id))
      == DeclaredNotices(checks, Nanoseconds(rule.durationSeconds))
  {
    checks := ChecksOf(rule, k, events, world);
    TimingExactly(rule);
    ChecksAreReadings(rule, k, events, world);
    LogIsDeclared(t, rule, k, events, world);
  }

  /** What a successful evaluation stores, field by field. */
  lemma EvaluationInFields(t: Tables, rule: Rule, event: LiveModel.Event, attempt: Attempt)
    returns (check: Check, evaluation: Evaluation)
    requires IsStored(t, rule) && Concerns(event, rule) && Succeed(attempt)
    ensures TellsEvent(check, rule, event, attempt.now)
    ensures evaluation == Evaluate(StateOf(t, rule.id), check, TimingOf(rule))
    ensures
      var u := Evaluated(t, rule, event, attempt);
      && rule.id in u.states && u.states[rule.id] == evaluation.state.(updatedAt := attempt.savedAt)
      && u.states[rule.id].lastValue == Some(check.value)
      && if !evaluation.notify then u.events == t.events
         else
           && |u.events| == |t.events| + 1 && t.events <= u.events
           && var made := u.events[|t.events|];
              && made.id == t.lastEventId + 1 && made.ruleId == rule.id && made.serverId == rule.serverId
              && made.status == evaluation.state.status
              && made.currentValue == Some(check.value) && made.threshold == Some(rule.threshold)
              && made.startedAt == (if evaluation.state.firingSince.None? then attempt.now
                                    else evaluation.state.firingSince.value)
              && made.endedAt == (if made.status == Recovered then Some(attempt.now) else None)
              && made.createdAt == Some(attempt.savedAt)
  {
    check := CheckOf(rule, event, attempt.now);
    CheckTellsEvent(rule, event, attempt.now);
    evaluation := Evaluate(StateOf(t, rule.id), check, TimingOf(rule));
  }
}
