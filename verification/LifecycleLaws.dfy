/** When the runners start, when closing begins, and why no call of Close waits for ever. */
module LifecycleLaws {
  import opened Wrappers
  import opened Lifecycle

  // Starting

  predicate Closes(steps: seq<Step>) {
    exists i :: 0 <= i < |steps| && steps[i].DoClose?
  }

  /** The step is a RunBackground before which Close was not called. */
  predicate StartsAt(steps: seq<Step>, i: int) {
    0 <= i < |steps| && steps[i].DoRunBackground? && !Closes(steps[..i])
  }

  lemma ClosesGrows(steps: seq<Step>, step: Step)
    ensures Closes(steps + [step]) <==> Closes(steps) || step.DoClose?
  {
    var more := steps + [step];
    assert forall i | 0 <= i < |steps| :: more[i] == steps[i];
    assert more[|steps|] == step;
  }

  lemma StartsGrows(steps: seq<Step>, step: Step)
    ensures (exists i :: StartsAt(steps + [step], i))
            <==> (exists i :: StartsAt(steps, i)) || (step.DoRunBackground? && !Closes(steps))
  {
    var more := steps + [step];
    assert forall i | 0 <= i <= |steps| :: more[..i] == steps[..i];
    assert steps[..|steps|] == steps && more[|steps|] == step;
    assert forall i | 0 <= i < |steps| :: StartsAt(more, i) <==> StartsAt(steps, i);
    assert StartsAt(more, |steps|) <==> step.DoRunBackground? && !Closes(steps);
    if i :| StartsAt(more, i) {
      assert i == |steps| || StartsAt(steps, i);
    }
    if i :| StartsAt(steps, i) {
      assert StartsAt(more, i);
    }
  }

  lemma AdvanceStartsNothing(w: World, caller: nat, error: Error)
    requires caller in w.callers
    ensures Advance(w, caller, error).app.closeStarted == w.app.closeStarted
    ensures Advance(w, caller, error).app.backgroundStarted == w.app.backgroundStarted
  {
  }

  lemma AdvanceKeepsCallers(w: World, caller: nat, error: Error)
    requires caller in w.callers
    ensures Advance(w, caller, error).callers.Keys == w.callers.Keys
  {
  }

  lemma NextStarts(w: World, step: Step)
    requires w.callers != map[] ==> w.app.closeStarted
    ensures
      var next := Next(w, step);
      && (next.app.closeStarted <==> w.app.closeStarted || step.DoClose?)
      && (next.app.backgroundStarted <==> w.app.backgroundStarted || (step.DoRunBackground? && !w.app.closeStarted))
      && (next.callers != map[] ==> next.app.closeStarted)
  {
    if step.DoAdvance? && step.caller in w.callers {
      AdvanceStartsNothing(w, step.caller, step.error);
      assert step.caller in w.callers.Keys;
    }
  }

  /** Closing has begun if and only if Close was called, the runners were started if RunBackground was before. */
  lemma {:induction false} StartedExactly(hasConn: bool, runners: nat, steps: seq<Step>)
    ensures
      var w := Run(hasConn, runners, steps);
      && (w.app.closeStarted <==> Closes(steps))
      && (w.app.backgroundStarted <==> exists i :: StartsAt(steps, i))
      && (w.callers != map[] ==> w.app.closeStarted)
  {
    if steps != [] {
      var n := |steps| - 1;
      StartedExactly(hasConn, runners, steps[..n]);
      NextStarts(Run(hasConn, runners, steps[..n]), steps[n]);
      ClosesGrows(steps[..n], steps[n]);
      StartsGrows(steps[..n], steps[n]);
      assert steps[..n] + [steps[n]] == steps;
    }
  }

  /** The runners have been started exactly if RunBackground was called before Close ever was. */
  lemma RunnersStartExactly(hasConn: bool, runners: nat, steps: seq<Step>)
    ensures RunnersStarted in Run(hasConn, runners, steps).app.notes <==> exists i :: StartsAt(steps, i)
  {
    StartedExactly(hasConn, runners, steps);
    RunsKeep(hasConn, runners, steps);
  }

  // Closing

  /** While closing is under way, some caller is at it. */
  ghost predicate HasCloser(w: World) {
    w.app.closeStarted && !w.app.closeDone.Open? ==> exists c :: c in w.callers && IsCloser(w.callers[c])
  }

  lemma AdvanceKeepsCloser(w: World, caller: nat, error: Error)
    requires caller in w.callers && HasCloser(w)
    ensures HasCloser(Advance(w, caller, error))
  {
    var next := Advance(w, caller, error);
    if next.app.closeStarted && !next.app.closeDone.Open? {
      var c :| c in w.callers && IsCloser(w.callers[c]);
      assert c in next.callers && IsCloser(next.callers[c]);
    }
  }

  lemma CloseHasCloser(w: World, caller: nat)
    requires HasCloser(w) && caller !in w.callers
    ensures HasCloser(Close(w, caller))
  {
    var next := Close(w, caller);
    if w.app.closeStarted && !w.app.closeDone.Open? {
      var c :| c in w.callers && IsCloser(w.callers[c]);
      assert c in next.callers && IsCloser(next.callers[c]);
    } else if !w.app.closeStarted {
      assert caller in next.callers && IsCloser(next.callers[caller]);
    }
  }

  lemma {:induction false} CloserExists(hasConn: bool, runners: nat, steps: seq<Step>)
    ensures HasCloser(Run(hasConn, runners, steps))
  {
    if steps != [] {
      var w, step := Run(hasConn, runners, steps[..|steps| - 1]), steps[|steps| - 1];
      CloserExists(hasConn, runners, steps[..|steps| - 1]);
      match step
      case DoClose(caller) =>
        if caller !in w.callers {
          CloseHasCloser(w, caller);
        }
      case DoAdvance(caller, error) =>
        if caller in w.callers {
          AdvanceKeepsCloser(w, caller, error);
        }
      case _ =>
        assert Next(w, step).callers == w.callers;
        assert Next(w, step).app.closeStarted == w.app.closeStarted;
        assert Next(w, step).app.closeDone == w.app.closeDone;
    }
  }

  /** How many sections of Close are still before a caller. */
  function Rank(place: Place): nat {
    match place
    case AtStreams(_, _) => 6
    case AtCancel(_, _) => 5
    case AtWait(_) => 4
    case AtDatabase => 3
    case AtEnd(_) => 2
    case AtReturn(_) => 1
    case AtGate => 2
    case AtRead => 1
    case Gone(_) => 0
  }

  /** The runners, if they were started, are done. */
  predicate IsQuiet(w: World) {
    w.app.backgroundStarted ==> w.app.runnersDone
  }

  /** A caller that need not wait for another goes one section further. */
  lemma AdvanceMoves(w: World, c: nat, error: Error)
    requires Inv(w) && IsQuiet(w) && c in w.callers && !w.callers[c].Gone?
    requires w.callers[c].AtGate? ==> w.app.closeDone.Open?
    ensures
      var next := Advance(w, c, error);
      && c in next.callers && Rank(next.callers[c]) == Rank(w.callers[c]) - 1 && IsQuiet(next)
      && (w.app.closeDone.Open? ==> next.app.closeDone.Open?)
      && (next.callers[c].AtGate? ==> next.app.closeDone.Open?)
      && (w.callers[c].AtEnd? ==> next.app.closeDone.Open?)
      && (IsCloser(w.callers[c]) && !w.callers[c].AtEnd? ==> IsCloser(next.callers[c]))
  {
    assert PlaceFits(w.app, w.callers[c]);
  }

  lemma OneMore(hasConn: bool, runners: nat, steps: seq<Step>, c: nat, error: Error)
    requires c in Run(hasConn, runners, steps).callers
    ensures Run(hasConn, runners, steps + [DoAdvance(c, error)]) == Advance(Run(hasConn, runners, steps), c, error)
  {
    assert (steps + [DoAdvance(c, error)])[..|steps|] == steps;
  }

  /** The caller that closes can bring it to its end. */
  lemma {:induction false} CloserFinishes(hasConn: bool, runners: nat, steps: seq<Step>, c: nat, error: Error)
    returns (all: seq<Step>)
    requires
      var w := Run(hasConn, runners, steps);
      IsQuiet(w) && c in w.callers && IsCloser(w.callers[c])
    ensures steps <= all && IsQuiet(Run(hasConn, runners, all)) && Run(hasConn, runners, all).app.closeDone.Open?
    ensures Run(hasConn, runners, steps).callers.Keys <= Run(hasConn, runners, all).callers.Keys
    decreases Rank(Run(hasConn, runners, steps).callers[c])
  {
    var w := Run(hasConn, runners, steps);
    RunsKeep(hasConn, runners, steps);
    OneMore(hasConn, runners, steps, c, error);
    AdvanceMoves(w, c, error);
    AdvanceKeepsCallers(w, c, error);
    all := steps + [DoAdvance(c, error)];
    if !w.callers[c].AtEnd? {
      all := CloserFinishes(hasConn, runners, all, c, error);
    }
  }

  /** Once closing has ended, every caller can return. */
  lemma {:induction false} CallerReturns(hasConn: bool, runners: nat, steps: seq<Step>, c: nat, error: Error)
    returns (all: seq<Step>)
    requires
      var w := Run(hasConn, runners, steps);
      IsQuiet(w) && w.app.closeDone.Open? && c in w.callers
    ensures steps <= all && c in Run(hasConn, runners, all).callers && Run(hasConn, runners, all).callers[c].Gone?
    decreases Rank(Run(hasConn, runners, steps).callers[c])
  {
    var w := Run(hasConn, runners, steps);
    all := steps;
    if !w.callers[c].Gone? {
      RunsKeep(hasConn, runners, steps);
      OneMore(hasConn, runners, steps, c, error);
      AdvanceMoves(w, c, error);
      all := CallerReturns(hasConn, runners, steps + [DoAdvance(c, error)], c, error);
    }
  }

  /**
   Nobody waits for ever: in every reachable state in which the runners, if they were started, are done, the callers of
   Close can go on by themselves until any given one of them has returned.
   */
  lemma EveryCallCanReturn(hasConn: bool, runners: nat, steps: seq<Step>, c: nat, error: Error)
    returns (all: seq<Step>)
    requires IsQuiet(Run(hasConn, runners, steps)) && c in Run(hasConn, runners, steps).callers
    ensures steps <= all && c in Run(hasConn, runners, all).callers && Run(hasConn, runners, all).callers[c].Gone?
  {
    var w := Run(hasConn, runners, steps);
    StartedExactly(hasConn, runners, steps);
    CloserExists(hasConn, runners, steps);
    all := steps;
    if !w.app.closeDone.Open? {
      var closer :| closer in w.callers && IsCloser(w.callers[closer]);
      all := CloserFinishes(hasConn, runners, steps, closer, error);
    }
    all := CallerReturns(hasConn, runners, all, c, error);
  }
}
