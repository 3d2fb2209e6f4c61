/** The four-state machine that turns the evaluations of one alert rule into notifications. */
module AlertStateMachine {
  import opened Wrappers
  import opened Clock

  /** Stored as text, so a value outside the four may be met. */
  datatype Status = Normal | Pending | Firing | Recovered | Invalid(text: string)

  datatype State = State(
    ruleId: int, status: Status, pendingSince: Option<int>, firingSince: Option<int>,
    lastNotifiedAt: Option<int>, lastValue: Option<real>, updatedAt: int)

  datatype Timing = Timing(duration: Duration, repeatInterval: Duration)

  datatype Check = Check(breached: bool, value: real, now: int)

  datatype Evaluation = Evaluation(state: State, notify: bool)

  function Evaluate(state: State, check: Check, timing: Timing): Evaluation {
    var now := check.now;
    var s := state.(lastValue := Some(check.value), updatedAt := now);
    match s.status
    case Normal => FromNormal(s, check, timing)
    case Invalid(_) => FromNormal(s.(status := Normal), check, timing)
    case Pending =>
      if !check.breached then Evaluation(s.(status := Normal, pendingSince := None, firingSince := None), false)
      else if s.pendingSince.None? then Evaluation(s.(pendingSince := Some(now)), false)
      else if Sub(now, s.pendingSince.value) < timing.duration then Evaluation(s, false)
      else Evaluation(s.(status := Firing, firingSince := Some(now), lastNotifiedAt := Some(now)), true)
    case Firing =>
      if !check.breached then
        Evaluation(s.(status := Recovered, pendingSince := None, lastNotifiedAt := Some(now)), true)
      else
        var since := if s.firingSince.None? then s.(firingSince := Some(now)) else s;
        if timing.repeatInterval > 0 && IsDue(s.lastNotifiedAt, timing.repeatInterval, now)
        then Evaluation(since.(lastNotifiedAt := Some(now)), true)
        else Evaluation(since, false)
    case Recovered =>
      if !check.breached then Evaluation(s.(status := Normal, pendingSince := None, firingSince := None), false)
      else
        var cleared := s.(firingSince := None, lastNotifiedAt := None);
        if timing.duration <= 0
        then Fired(cleared, now)
        else Evaluation(cleared.(status := Pending, pendingSince := Some(now)), false)
  }

  function FromNormal(s: State, check: Check, timing: Timing): Evaluation {
    if !check.breached then Evaluation(s, false)
    else if timing.duration <= 0 then Fired(s, check.now)
    else Evaluation(s.(status := Pending, pendingSince := Some(check.now), firingSince := None), false)
  }

  function Fired(s: State, now: int): Evaluation {
    Evaluation(s.(status := Firing, pendingSince := None, firingSince := Some(now), lastNotifiedAt := Some(now)), true)
  }

  predicate IsDue(lastNotifiedAt: Option<int>, repeatInterval: Duration, now: int) {
    lastNotifiedAt.None? || Sub(now, lastNotifiedAt.value) >= repeatInterval
  }

  // Runs of evaluations

  function After(start: State, timing: Timing, checks: seq<Check>): State {
    if checks == [] then start
    else
      var n := |checks| - 1;
      Evaluate(After(start, timing, checks[..n]), checks[n], timing).state
  }

  function At(start: State, timing: Timing, checks: seq<Check>, i: nat): Evaluation
    requires i < |checks|
  {
    Evaluate(After(start, timing, checks[..i]), checks[i], timing)
  }

  lemma AfterNext(start: State, timing: Timing, checks: seq<Check>, i: nat)
    requires i < |checks|
    ensures After(start, timing, checks[..i + 1]) == At(start, timing, checks, i).state
  {
    assert checks[..i + 1][..i] == checks[..i];
  }

  predicate IsQuiet(state: State) {
    state.status.Normal? || state.status.Invalid?
  }

  // What should happen, said of the evaluations alone

  /** Evaluations j to i are all breached. */
  ghost predicate InBreach(checks: seq<Check>, j: nat, i: nat) {
    j <= i < |checks| && forall k | j <= k <= i :: checks[k].breached
  }

  /** The first evaluation of the maximal run of breached evaluations that i belongs to. */
  function BreachStart(checks: seq<Check>, i: nat): (j: nat)
    requires i < |checks| && checks[i].breached
    ensures InBreach(checks, j, i)
    ensures j == 0 || !checks[j - 1].breached
  {
    if i == 0 || !checks[i - 1].breached then i else BreachStart(checks, i - 1)
  }

  /** The breach that i belongs to has lasted for the duration at i. */
  predicate HasLasted(checks: seq<Check>, duration: Duration, i: nat) {
    i < |checks| && checks[i].breached && checks[i].now - checks[BreachStart(checks, i)].now >= duration
  }

  /** The breach that i belongs to has lasted for the duration at i or before. */
  ghost predicate HasFired(checks: seq<Check>, duration: Duration, i: nat) {
    && i < |checks| && checks[i].breached
    && exists k :: BreachStart(checks, i) <= k <= i && HasLasted(checks, duration, k)
  }

  /** The first time the breach has lasted for the duration. */
  ghost predicate ShouldFire(checks: seq<Check>, duration: Duration, i: nat) {
    && HasLasted(checks, duration, i)
    && forall k | BreachStart(checks, i) <= k < i :: !HasLasted(checks, duration, k)
  }

  /** The end of a breach that has fired. */
  ghost predicate ShouldRecover(checks: seq<Check>, duration: Duration, i: nat) {
    0 < i < |checks| && !checks[i].breached && HasFired(checks, duration, i - 1)
  }

  /** All evaluations of one breach agree on where it starts. */
  lemma {:induction false} OneStart(checks: seq<Check>, j: nat, i: nat)
    requires InBreach(checks, j, i)
    ensures BreachStart(checks, j) == BreachStart(checks, i)
  {
    if j < i {
      OneStart(checks, j, i - 1);
    }
  }

  /** A breach fires at an evaluation if it had not fired before and has lasted by now. */
  lemma FiringStep(checks: seq<Check>, duration: Duration, i: nat)
    requires i < |checks| && checks[i].breached
    ensures i == 0 || !checks[i - 1].breached ==>
      BreachStart(checks, i) == i && (HasFired(checks, duration, i) <==> HasLasted(checks, duration, i))
    ensures i > 0 && checks[i - 1].breached ==>
      && BreachStart(checks, i) == BreachStart(checks, i - 1)
      && (HasFired(checks, duration, i) <==> HasFired(checks, duration, i - 1) || HasLasted(checks, duration, i))
    ensures ShouldFire(checks, duration, i) <==>
      HasLasted(checks, duration, i) && !(i > 0 && HasFired(checks, duration, i - 1))
  {
    if i == 0 || !checks[i - 1].breached {
      assert HasLasted(checks, duration, i) ==> HasFired(checks, duration, i);
    } else {
      var j := BreachStart(checks, i);
      if HasFired(checks, duration, i - 1) {
        var k :| BreachStart(checks, i - 1) <= k <= i - 1 && HasLasted(checks, duration, k);
        assert j <= k <= i && HasLasted(checks, duration, k);
      }
    }
  }

  // What does happen

  /** The state after evaluation i, in terms of the evaluations alone. */
  ghost predicate Declared(state: State, checks: seq<Check>, duration: Duration, i: nat)
    requires i < |checks|
  {
    if checks[i].breached then
      if HasFired(checks, duration, i)
      then
        && state.status == Firing && state.lastNotifiedAt.Some?
        && exists k :: BreachStart(checks, i) <= k <= i && ShouldFire(checks, duration, k)
                       && state.firingSince == Some(checks[k].now)
      else state.status == Pending && state.pendingSince == Some(checks[BreachStart(checks, i)].now)
    else state.status == if ShouldRecover(checks, duration, i) then Recovered else Normal
  }

  /** How the state before an evaluation constrains it. */
  ghost predicate DeclaredBefore(state: State, checks: seq<Check>, duration: Duration, i: nat)
    requires i < |checks|
  {
    if i == 0 then IsQuiet(state) else Declared(state, checks, duration, i - 1)
  }

  /** An evaluation within an unfinished breach. */
  lemma StepInBreach(state: State, checks: seq<Check>, timing: Timing, i: nat)
    requires 0 < i < |checks| && checks[i].breached && checks[i - 1].breached
    requires Declared(state, checks, timing.duration, i - 1)
    ensures Declared(Evaluate(state, checks[i], timing).state, checks, timing.duration, i)
    ensures ShouldFire(checks, timing.duration, i) ==> Evaluate(state, checks[i], timing).notify
    ensures !HasFired(checks, timing.duration, i) ==> !Evaluate(state, checks[i], timing).notify
    ensures timing.repeatInterval <= 0 ==>
      (Evaluate(state, checks[i], timing).notify <==> ShouldFire(checks, timing.duration, i))
  {
    var d := timing.duration;
    FiringStep(checks, d, i);
    var next := Evaluate(state, checks[i], timing).state;
    if HasFired(checks, d, i - 1) {
      var k :| BreachStart(checks, i - 1) <= k <= i - 1 && ShouldFire(checks, d, k)
                && state.firingSince == Some(checks[k].now);
      assert BreachStart(checks, i) <= k <= i && ShouldFire(checks, d, k) && next.firingSince == Some(checks[k].now);
    } else {
      var j := BreachStart(checks, i - 1);
      PendingMeansPositive(checks, d, i - 1);
      SaturationIsHarmless(checks[i].now, checks[j].now, d);
      assert HasLasted(checks, d, i) ==> ShouldFire(checks, d, i);
    }
  }

  lemma PendingMeansPositive(checks: seq<Check>, duration: Duration, i: nat)
    requires i < |checks| && checks[i].breached && !HasFired(checks, duration, i)
    ensures duration > 0
  {
    var j := BreachStart(checks, i);
    OneStart(checks, j, i);
    assert !HasLasted(checks, duration, j);
  }

  /** An evaluation that starts a breach, ends one, or does neither. */
  lemma StepOutsideBreach(state: State, checks: seq<Check>, timing: Timing, i: nat)
    requires i < |checks| && !(i > 0 && checks[i].breached && checks[i - 1].breached)
    requires DeclaredBefore(state, checks, timing.duration, i)
    ensures Declared(Evaluate(state, checks[i], timing).state, checks, timing.duration, i)
    ensures Evaluate(state, checks[i], timing).notify
            <==> ShouldFire(checks, timing.duration, i) || ShouldRecover(checks, timing.duration, i)
  {
    var d := timing.duration;
    if checks[i].breached {
      FiringStep(checks, d, i);
      var next := Evaluate(state, checks[i], timing).state;
      if HasLasted(checks, d, i) {
        assert BreachStart(checks, i) <= i <= i && ShouldFire(checks, d, i) && next.firingSince == Some(checks[i].now);
      }
    } else {
      assert ShouldRecover(checks, d, i) <==> i > 0 && checks[i - 1].breached && state.status == Firing;
    }
  }

  /**
   Whatever the reminders, the state after every evaluation is the declared one: pending since the start of a
   breach that has not lasted yet, firing since the first evaluation at which it has, recovered right after that
   breach, normal otherwise.
   */
  lemma {:induction false} StatesAreDeclared(start: State, timing: Timing, checks: seq<Check>, i: nat)
    requires IsQuiet(start) && i < |checks|
    ensures Declared(At(start, timing, checks, i).state, checks, timing.duration, i)
    ensures DeclaredBefore(After(start, timing, checks[..i]), checks, timing.duration, i)
  {
    if i > 0 {
      StatesAreDeclared(start, timing, checks, i - 1);
      AfterNext(start, timing, checks, i - 1);
    }
    var state := After(start, timing, checks[..i]);
    if i > 0 && checks[i].breached && checks[i - 1].breached {
      StepInBreach(state, checks, timing, i);
    } else {
      StepOutsideBreach(state, checks, timing, i);
    }
  }

  /** Without reminders there is one firing and one recovered notification per breach that lasts, and nothing else. */
  lemma NotificationsExactly(start: State, timing: Timing, checks: seq<Check>, i: nat)
    requires IsQuiet(start) && i < |checks| && timing.repeatInterval <= 0
    ensures At(start, timing, checks, i).notify
            <==> ShouldFire(checks, timing.duration, i) || ShouldRecover(checks, timing.duration, i)
  {
    StatesAreDeclared(start, timing, checks, i);
    var state := After(start, timing, checks[..i]);
    if i > 0 && checks[i].breached && checks[i - 1].breached {
      StepInBreach(state, checks, timing, i);
    } else {
      StepOutsideBreach(state, checks, timing, i);
    }
  }

  /** Whatever the reminders, the start and the end of a firing breach are notified, and nothing outside one is. */
  lemma EpisodesAreNotified(start: State, timing: Timing, checks: seq<Check>, i: nat)
    requires IsQuiet(start) && i < |checks|
    ensures ShouldFire(checks, timing.duration, i) || ShouldRecover(checks, timing.duration, i)
            ==> At(start, timing, checks, i).notify
    ensures At(start, timing, checks, i).notify
            ==> HasFired(checks, timing.duration, i) || ShouldRecover(checks, timing.duration, i)
  {
    StatesAreDeclared(start, timing, checks, i);
    var state := After(start, timing, checks[..i]);
    if i > 0 && checks[i].breached && checks[i - 1].breached {
      StepInBreach(state, checks, timing, i);
    } else {
      StepOutsideBreach(state, checks, timing, i);
      if checks[i].breached {
        FiringStep(checks, timing.duration, i);
      }
    }
  }

  /** Within a breach the machine remembers its last notification. */
  lemma {:induction false} LastNoticeIsRemembered(start: State, timing: Timing, checks: seq<Check>, i: nat, k: nat)
    requires IsQuiet(start) && InBreach(checks, i, k) && At(start, timing, checks, i).notify
    requires forall m | i < m <= k :: !At(start, timing, checks, m).notify
    ensures At(start, timing, checks, k).state.status == Firing
    ensures At(start, timing, checks, k).state.lastNotifiedAt == Some(checks[i].now)
  {
    if i < k {
      LastNoticeIsRemembered(start, timing, checks, i, k - 1);
      AfterNext(start, timing, checks, k - 1);
    }
  }

  /** The next notification of a breach is the first evaluation at least the repeat interval after the last one. */
  lemma RemindersExactly(start: State, timing: Timing, checks: seq<Check>, i: nat, k: nat)
    requires IsQuiet(start) && InBreach(checks, i, k) && i < k && At(start, timing, checks, i).notify
    requires forall m | i < m < k :: !At(start, timing, checks, m).notify
    ensures At(start, timing, checks, k).notify
            <==> timing.repeatInterval > 0 && checks[k].now - checks[i].now >= timing.repeatInterval
  {
    LastNoticeIsRemembered(start, timing, checks, i, k - 1);
    AfterNext(start, timing, checks, k - 1);
    if timing.repeatInterval > 0 {
      SaturationIsHarmless(checks[k].now, checks[i].now, timing.repeatInterval);
    }
  }

  /** Any two notifications of one breach are at least the repeat interval apart. */
  lemma {:induction false} RemindersAreSpaced(start: State, timing: Timing, checks: seq<Check>, i: nat, k: nat)
    requires IsQuiet(start) && InBreach(checks, i, k) && i < k
    requires At(start, timing, checks, i).notify && At(start, timing, checks, k).notify
    ensures 0 < timing.repeatInterval <= checks[k].now - checks[i].now
    decreases k - i
  {
    if m :| i < m < k && At(start, timing, checks, m).notify {
      RemindersAreSpaced(start, timing, checks, i, m);
      RemindersAreSpaced(start, timing, checks, m, k);
    } else {
      RemindersExactly(start, timing, checks, i, k);
    }
  }
}
