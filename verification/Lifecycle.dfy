/** Starting the background runners and closing the application, each by any number of concurrent callers. */
module Lifecycle {
  import opened Wrappers

  /** No error, or a message. */
  type Error = Option<string>

  /** The channel that tells that the background is done: none yet, one closed from the start, or the runners'. */
  datatype Done = NoDone | AlreadyDone | FromRunners

  datatype Gate = NoGate | Shut | Open

  /** The fields of the application, and what has become of runners, streams and database. */
  datatype App = App(
    backgroundStarted: bool, backgroundCancel: bool, backgroundDone: Done,
    closeStarted: bool, closeDone: Gate, closeErr: Error,
    hasConn: bool, runners: nat, returned: set<nat>, runnersDone: bool, notes: seq<Note>)

  /** What happened, in order. */
  datatype Note =
    | RunnersStarted
    | RunnerReturned(runner: nat)
    | StreamsClosed
    | RunnersCancelled
    | CloseBegan
    | DatabaseClosed(error: Error)
    | CloseEnded(error: Error)
    | CloseReturned(caller: nat, error: Error)

  function New(hasConn: bool, runners: nat): App {
    App(false, false, NoDone, false, NoGate, None, hasConn, runners, {}, false, [])
  }

  function Noted(a: App, note: Note): App {
    a.(notes := a.notes + [note])
  }

  // The sections that run under the lock, or touch one thing

  function AfterRunBackground(a: App): App {
    if a.closeStarted then (if a.backgroundDone.NoDone? then a.(backgroundDone := AlreadyDone) else a)
    else if a.backgroundStarted then a
    else Noted(a.(backgroundStarted := true, backgroundCancel := true, backgroundDone := FromRunners), RunnersStarted)
  }

  function AfterBeginClose(a: App): App {
    if a.closeStarted then a
    else
      Noted(a.(closeStarted := true, closeDone := Shut,
               backgroundDone := if a.backgroundDone.NoDone? then AlreadyDone else a.backgroundDone), CloseBegan)
  }

  /** The once guards the streams: they are closed by the first to come. */
  function AfterCloseStreams(a: App): App {
    if StreamsClosed in a.notes then a else Noted(a, StreamsClosed)
  }

  function AfterEndClose(a: App, err: Error): App {
    Noted(a.(closeErr := err, closeDone := Open), CloseEnded(err))
  }

  /** A channel that tells of the background is closed once every runner has returned, or from the start. */
  predicate IsDone(a: App, done: Done) {
    done.AlreadyDone? || (done.FromRunners? && a.runnersDone)
  }

  /** Who may go through the first section of Close. */
  datatype Role = Closer(cancel: bool, done: Done) | Waiter

  class Application {
    var backgroundStarted: bool
    var backgroundCancel: bool
    var backgroundDone: Done
    var closeStarted: bool
    var closeDone: Gate
    var closeErr: Error
    const hasConn: bool
    const runners: nat
    ghost var returned: set<nat>
    ghost var runnersDone: bool
    ghost var notes: seq<Note>
    var streamsOnce: bool

    ghost function Value(): App
      reads this
    {
      App(backgroundStarted, backgroundCancel, backgroundDone, closeStarted, closeDone, closeErr,
          hasConn, runners, returned, runnersDone, notes)
    }

    ghost predicate Valid()
      reads this
    {
      && (streamsOnce <==> StreamsClosed in notes)
      && (backgroundStarted ==> backgroundCancel && backgroundDone == FromRunners)
    }

    constructor (hasConn: bool, runners: nat)
      ensures Value() == New(hasConn, runners) && Valid()
    {
      backgroundStarted, backgroundCancel, backgroundDone := false, false, NoDone;
      closeStarted, closeDone, closeErr := false, NoGate, None;
      this.hasConn, this.runners := hasConn, runners;
      returned, runnersDone, notes, streamsOnce := {}, false, [], false;
    }

    method RunBackground() returns (done: Done)
      requires Valid()
      modifies this
      ensures Valid() && Value() == AfterRunBackground(old(Value()))
      ensures done == backgroundDone && !done.NoDone?
      ensures !old(closeStarted) ==>
        && backgroundStarted && backgroundCancel
        && (!old(backgroundStarted) ==> notes == old(notes) + [RunnersStarted] && done == FromRunners)
      ensures old(closeStarted) || old(backgroundStarted) ==>
        notes == old(notes) && backgroundStarted == old(backgroundStarted)
    {
      if closeStarted {
        if backgroundDone.NoDone? {
          backgroundDone := AlreadyDone;
        }
        return backgroundDone;
      }
      if backgroundStarted {
        return backgroundDone;
      }
      backgroundStarted := true;
      backgroundCancel := true;
      backgroundDone := FromRunners;
      notes := notes + [RunnersStarted];
      return backgroundDone;
    }

    /** The first section of Close. */
    method BeginClose() returns (role: Role)
      requires Valid()
      modifies this
      ensures Valid() && Value() == AfterBeginClose(old(Value()))
      ensures role == if old(closeStarted) then Waiter else Closer(backgroundCancel, backgroundDone)
    {
      if closeStarted {
        return Waiter;
      }
      closeStarted := true;
      closeDone := Shut;
      var cancel := backgroundCancel;
      var done := backgroundDone;
      if done.NoDone? {
        backgroundDone := AlreadyDone;
        done := backgroundDone;
      }
      notes := notes + [CloseBegan];
      return Closer(cancel, done);
    }

    method CloseStreams()
      requires Valid()
      modifies this
      ensures Valid() && Value() == AfterCloseStreams(old(Value()))
    {
      if !streamsOnce {
        streamsOnce := true;
        notes := notes + [StreamsClosed];
      }
    }

    /** The last section of Close. */
    method EndClose(err: Error)
      requires Valid()
      modifies this
      ensures Valid() && Value() == AfterEndClose(old(Value()), err)
    {
      closeErr := err;
      closeDone := Open;
      notes := notes + [CloseEnded(err)];
    }
  }

  // Interleavings

  /** Where a caller of Close is. */
  datatype Place =
    | AtStreams(cancel: bool, done: Done)
    | AtCancel(cancel: bool, done: Done)
    | AtWait(done: Done)
    | AtDatabase
    | AtEnd(error: Error)
    | AtReturn(error: Error)
    | AtGate
    | AtRead
    | Gone(error: Error)

  datatype World = World(app: App, callers: map<nat, Place>)

  datatype Step =
    | DoRunBackground
    | DoRunnerReturns(runner: nat)
    | DoRunnersDone
    | DoCloseStreams
    | DoClose(caller: nat)
    | DoAdvance(caller: nat, error: Error)

  /** A caller of Close goes on to its next section, unless it has to wait. */
  function Advance(w: World, caller: nat, error: Error): World
    requires caller in w.callers
  {
    var a := w.app;
    match w.callers[caller]
    case AtStreams(cancel, done) => World(AfterCloseStreams(a), w.callers[caller := AtCancel(cancel, done)])
    case AtCancel(cancel, done) =>
      World(if cancel then Noted(a, RunnersCancelled) else a, w.callers[caller := AtWait(done)])
    case AtWait(done) => if IsDone(a, done) then w.(callers := w.callers[caller := AtDatabase]) else w
    case AtDatabase =>
      if a.hasConn then World(Noted(a, DatabaseClosed(error)), w.callers[caller := AtEnd(error)])
      else w.(callers := w.callers[caller := AtEnd(None)])
    case AtEnd(err) => World(AfterEndClose(a, err), w.callers[caller := AtReturn(err)])
    case AtReturn(err) => World(Noted(a, CloseReturned(caller, err)), w.callers[caller := Gone(err)])
    case AtGate => if a.closeDone.Open? then w.(callers := w.callers[caller := AtRead]) else w
    case AtRead => World(Noted(a, CloseReturned(caller, a.closeErr)), w.callers[caller := Gone(a.closeErr)])
    case Gone(_) => w
  }

  function Close(w: World, caller: nat): World {
    var a := w.app;
    var next := AfterBeginClose(a);
    var place := if a.closeStarted then AtGate else AtStreams(next.backgroundCancel, next.backgroundDone);
    World(next, w.callers[caller := place])
  }

  function Next(w: World, step: Step): World {
    var a := w.app;
    match step
    case DoRunBackground => w.(app := AfterRunBackground(a))
    case DoRunnerReturns(r) =>
      if a.backgroundStarted && r < a.runners && r !in a.returned
      then w.(app := Noted(a.(returned := a.returned + {r}), RunnerReturned(r)))
      else w
    case DoRunnersDone =>
      if a.backgroundStarted && forall r: nat | r < a.runners :: r in a.returned
      then w.(app := a.(runnersDone := true))
      else w
    case DoCloseStreams => w.(app := AfterCloseStreams(a))
    case DoClose(caller) => if caller in w.callers then w else Close(w, caller)
    case DoAdvance(caller, error) => if caller in w.callers then Advance(w, caller, error) else w
  }

  function Run(hasConn: bool, runners: nat, steps: seq<Step>): World {
    if steps == [] then World(New(hasConn, runners), map[])
    else Next(Run(hasConn, runners, steps[..|steps| - 1]), steps[|steps| - 1])
  }

  // What may happen after what

  predicate HaveReturned(before: seq<Note>, runners: nat) {
    RunnersStarted in before ==>
      RunnersCancelled in before && forall r: nat | r < runners :: RunnerReturned(r) in before
  }

  predicate NoDatabaseClose(before: seq<Note>) {
    forall note | note in before :: !note.DatabaseClosed?
  }

  predicate NoCloseEnd(before: seq<Note>) {
    forall note | note in before :: !note.CloseEnded?
  }

  /**
   Runners start once and never after closing began; streams close once, and before the runners are cancelled; the
   database closes once, after every started runner returned; and every caller returns the one error, after all that.
   */
  predicate IsAllowed(before: seq<Note>, note: Note, hasConn: bool, runners: nat) {
    match note
    case RunnersStarted => RunnersStarted !in before && CloseBegan !in before
    case RunnerReturned(r) => RunnersStarted in before && r < runners && RunnerReturned(r) !in before
    case StreamsClosed => StreamsClosed !in before
    case RunnersCancelled =>
      RunnersStarted in before && StreamsClosed in before && CloseBegan in before && RunnersCancelled !in before
    case CloseBegan => CloseBegan !in before
    case DatabaseClosed(_) =>
      && hasConn && StreamsClosed in before && CloseBegan in before
      && NoDatabaseClose(before) && HaveReturned(before, runners)
    case CloseEnded(err) =>
      && StreamsClosed in before && CloseBegan in before && NoCloseEnd(before) && HaveReturned(before, runners)
      && (if hasConn then DatabaseClosed(err) in before else err.None?)
    case CloseReturned(_, err) => CloseEnded(err) in before
  }

  ghost predicate IsOrderly(notes: seq<Note>, hasConn: bool, runners: nat) {
    forall i | 0 <= i < |notes| :: IsAllowed(notes[..i], notes[i], hasConn, runners)
  }

  lemma OneMoreNote(notes: seq<Note>, note: Note, hasConn: bool, runners: nat)
    requires IsOrderly(notes, hasConn, runners) && IsAllowed(notes, note, hasConn, runners)
    ensures IsOrderly(notes + [note], hasConn, runners)
  {
    var more := notes + [note];
    forall i | 0 <= i < |more| ensures IsAllowed(more[..i], more[i], hasConn, runners) {
      assert more[..i] == notes[..i];
      assert notes[..|notes|] == notes;
    }
  }

  // What every step keeps

  /** The fields say what happened. */
  ghost predicate FieldsFit(a: App) {
    && (a.backgroundStarted <==> RunnersStarted in a.notes)
    && (a.backgroundCancel <==> a.backgroundStarted)
    && (a.backgroundStarted ==> a.backgroundDone == FromRunners)
    && (!a.backgroundStarted ==> a.backgroundDone != FromRunners)
    && (a.closeStarted <==> CloseBegan in a.notes)
    && (a.closeStarted <==> !a.closeDone.NoGate?)
    && (forall r :: r in a.returned <==> RunnerReturned(r) in a.notes)
    && (a.runnersDone ==> a.backgroundStarted && forall r: nat | r < a.runners :: r in a.returned)
    && (a.closeDone.Open? ==> CloseEnded(a.closeErr) in a.notes)
    && (!a.closeDone.Open? ==> NoCloseEnd(a.notes))
  }

  predicate IsCloser(place: Place) {
    place.AtStreams? || place.AtCancel? || place.AtWait? || place.AtDatabase? || place.AtEnd?
  }

  /** What the caller that closes has behind it and before it. */
  ghost predicate CloserFits(a: App, place: Place) {
    && a.closeStarted && a.closeDone == Shut
    && (place.AtStreams? || place.AtCancel? ==> place.cancel == a.backgroundStarted && RunnersCancelled !in a.notes)
    && (place.AtStreams? || place.AtCancel? || place.AtWait? ==>
          place.done == a.backgroundDone && !place.done.NoDone? && NoDatabaseClose(a.notes))
    && (!place.AtStreams? ==> StreamsClosed in a.notes)
    && (place.AtWait? && a.backgroundStarted ==> RunnersCancelled in a.notes)
    && (place.AtDatabase? ==> NoDatabaseClose(a.notes) && HaveReturned(a.notes, a.runners))
    && (place.AtEnd? ==> HaveReturned(a.notes, a.runners)
                         && if a.hasConn then DatabaseClosed(place.error) in a.notes else place.error.None?)
  }

  ghost predicate PlaceFits(a: App, place: Place) {
    if IsCloser(place) then CloserFits(a, place)
    else if place.AtGate? then a.closeStarted
    else if place.AtRead? then a.closeDone.Open?
    else CloseEnded(place.error) in a.notes
  }

  ghost predicate Inv(w: World) {
    && IsOrderly(w.app.notes, w.app.hasConn, w.app.runners) && FieldsFit(w.app)
    && (forall c | c in w.callers :: PlaceFits(w.app, w.callers[c]))
    && (forall c, d | c in w.callers && d in w.callers && IsCloser(w.callers[c]) && IsCloser(w.callers[d]) :: c == d)
    && (!w.app.closeStarted ==> RunnersCancelled !in w.app.notes && NoDatabaseClose(w.app.notes))
  }

  // One more note

  /** Notes that leave it open whether the database was closed and the runners cancelled. */
  predicate IsHarmless(note: Note) {
    note.RunnerReturned? || note.StreamsClosed? || note.CloseReturned?
  }

  lemma HarmlessNotes(notes: seq<Note>, note: Note, runners: nat)
    requires IsHarmless(note)
    ensures NoDatabaseClose(notes + [note]) <==> NoDatabaseClose(notes)
    ensures NoCloseEnd(notes + [note]) <==> NoCloseEnd(notes)
    ensures RunnersStarted in notes + [note] <==> RunnersStarted in notes
    ensures RunnersCancelled in notes + [note] <==> RunnersCancelled in notes
    ensures CloseBegan in notes + [note] <==> CloseBegan in notes
    ensures HaveReturned(notes, runners) ==> HaveReturned(notes + [note], runners)
  {
    var more := notes + [note];
    assert forall n :: n in more <==> n in notes || n == note;
  }

  lemma HarmlessPlaces(a: App, note: Note, place: Place)
    requires IsHarmless(note) && PlaceFits(a, place)
    ensures PlaceFits(Noted(a, note), place)
  {
    HarmlessNotes(a.notes, note, a.runners);
  }

  /** A harmless note leaves everything in place, if it is allowed and the fields agree with it. */
  lemma HarmlessKeeps(w: World, note: Note)
    requires Inv(w) && IsHarmless(note) && IsAllowed(w.app.notes, note, w.app.hasConn, w.app.runners)
    requires FieldsFit(Noted(w.app, note))
    ensures Inv(World(Noted(w.app, note), w.callers))
  {
    OneMoreNote(w.app.notes, note, w.app.hasConn, w.app.runners);
    HarmlessNotes(w.app.notes, note, w.app.runners);
    forall c | c in w.callers ensures PlaceFits(Noted(w.app, note), w.callers[c]) {
      HarmlessPlaces(w.app, note, w.callers[c]);
    }
  }

  lemma CloseStreamsKeeps(w: World)
    requires Inv(w)
    ensures Inv(w.(app := AfterCloseStreams(w.app))) && StreamsClosed in AfterCloseStreams(w.app).notes
  {
    if StreamsClosed !in w.app.notes {
      HarmlessNotes(w.app.notes, StreamsClosed, w.app.runners);
      HarmlessKeeps(w, StreamsClosed);
    }
  }

  /** The places of callers do not depend on which runners have returned, as far as the fields go. */
  lemma ReturnedKeeps(w: World, r: nat)
    requires Inv(w) && w.app.backgroundStarted && r < w.app.runners && r !in w.app.returned
    ensures Inv(World(Noted(w.app.(returned := w.app.returned + {r}), RunnerReturned(r)), w.callers))
  {
    var a := w.app.(returned := w.app.returned + {r});
    var next := Noted(a, RunnerReturned(r));
    OneMoreNote(w.app.notes, RunnerReturned(r), w.app.hasConn, w.app.runners);
    HarmlessNotes(w.app.notes, RunnerReturned(r), w.app.runners);
    forall c | c in w.callers ensures PlaceFits(next, w.callers[c]) {
      assert PlaceFits(a, w.callers[c]);
      HarmlessPlaces(a, RunnerReturned(r), w.callers[c]);
    }
  }

  lemma RunnersDoneKeeps(w: World)
    requires Inv(w) && w.app.backgroundStarted && forall r: nat | r < w.app.runners :: r in w.app.returned
    ensures Inv(w.(app := w.app.(runnersDone := true)))
  {
    forall c | c in w.callers ensures PlaceFits(w.app.(runnersDone := true), w.callers[c]) {
      assert PlaceFits(w.app, w.callers[c]);
    }
  }

  lemma PlaceMeansClosing(a: App, place: Place)
    requires FieldsFit(a) && PlaceFits(a, place)
    ensures a.closeStarted
  {
  }

  /** Before closing begins there are no callers. */
  lemma NobodyYet(w: World)
    requires Inv(w) && !w.app.closeStarted
    ensures w.callers == map[]
  {
    forall c ensures c !in w.callers {
      if c in w.callers {
        PlaceMeansClosing(w.app, w.callers[c]);
      }
    }
  }

  lemma RunBackgroundKeeps(w: World)
    requires Inv(w)
    ensures Inv(w.(app := AfterRunBackground(w.app)))
  {
    var a := w.app;
    if !a.closeStarted && !a.backgroundStarted {
      var next := AfterRunBackground(a);
      OneMoreNote(a.notes, RunnersStarted, a.hasConn, a.runners);
      assert forall note :: note in next.notes <==> note in a.notes || note == RunnersStarted;
      NobodyYet(w);
    }
  }

  // The sections of Close

  lemma BeginFits(a: App)
    requires FieldsFit(a) && IsOrderly(a.notes, a.hasConn, a.runners) && !a.closeStarted
    requires RunnersCancelled !in a.notes && NoDatabaseClose(a.notes)
    ensures
      var next := AfterBeginClose(a);
      && FieldsFit(next) && IsOrderly(next.notes, next.hasConn, next.runners)
      && CloserFits(next, AtStreams(next.backgroundCancel, next.backgroundDone))
  {
    var next := AfterBeginClose(a);
    OneMoreNote(a.notes, CloseBegan, a.hasConn, a.runners);
    assert forall note :: note in next.notes <==> note in a.notes || note == CloseBegan;
  }

  lemma CloseKeeps(w: World, caller: nat)
    requires Inv(w) && caller !in w.callers
    ensures Inv(Close(w, caller))
  {
    if !w.app.closeStarted {
      NobodyYet(w);
      BeginFits(w.app);
    }
  }

  lemma StreamsSection(w: World, caller: nat, error: Error)
    requires Inv(w) && caller in w.callers && w.callers[caller].AtStreams?
    ensures Inv(Advance(w, caller, error))
  {
    CloseStreamsKeeps(w);
    var closed := w.(app := AfterCloseStreams(w.app));
    assert PlaceFits(closed.app, closed.callers[caller]);
    MoveKeeps(closed, caller, AtCancel(w.callers[caller].cancel, w.callers[caller].done));
  }

  /** A caller may move on if its next place fits. */
  lemma MoveKeeps(w: World, caller: nat, place: Place)
    requires Inv(w) && caller in w.callers && PlaceFits(w.app, place)
    requires IsCloser(place) ==> IsCloser(w.callers[caller])
    ensures Inv(w.(callers := w.callers[caller := place]))
  {
    var next := w.callers[caller := place];
    forall c, d | c in next && d in next && IsCloser(next[c]) && IsCloser(next[d]) ensures c == d {
      assert c in w.callers && IsCloser(w.callers[c]);
      assert d in w.callers && IsCloser(w.callers[d]);
    }
  }

  lemma WaitSection(w: World, caller: nat, error: Error)
    requires Inv(w) && caller in w.callers && w.callers[caller].AtWait?
    ensures Inv(Advance(w, caller, error))
  {
    var place := w.callers[caller];
    if IsDone(w.app, place.done) {
      assert PlaceFits(w.app, place);
      assert HaveReturned(w.app.notes, w.app.runners);
      MoveKeeps(w, caller, AtDatabase);
    }
  }

  /** Those who are not the closer are not concerned by what the closer notes. */
  lemma OthersUnconcerned(a: App, note: Note, place: Place)
    requires PlaceFits(a, place) && !IsCloser(place)
    requires note.RunnersCancelled? || note.DatabaseClosed?
    ensures PlaceFits(Noted(a, note), place)
  {
  }

  lemma CancelSection(w: World, caller: nat, error: Error)
    requires Inv(w) && caller in w.callers && w.callers[caller].AtCancel?
    ensures Inv(Advance(w, caller, error))
  {
    var a, place := w.app, w.callers[caller];
    assert PlaceFits(a, place);
    if place.cancel {
      var next := Noted(a, RunnersCancelled);
      OneMoreNote(a.notes, RunnersCancelled, a.hasConn, a.runners);
      assert forall note :: note in next.notes <==> note in a.notes || note == RunnersCancelled;
      assert FieldsFit(next);
      CloserNotes(w, caller, RunnersCancelled, AtWait(place.done));
    } else {
      MoveKeeps(w, caller, AtWait(place.done));
    }
  }

  /** The closer notes something and moves on. */
  lemma CloserNotes(w: World, caller: nat, note: Note, place: Place)
    requires Inv(w) && caller in w.callers && IsCloser(w.callers[caller])
    requires note.RunnersCancelled? || note.DatabaseClosed?
    requires IsOrderly(Noted(w.app, note).notes, w.app.hasConn, w.app.runners) && FieldsFit(Noted(w.app, note))
    requires PlaceFits(Noted(w.app, note), place)
    ensures Inv(World(Noted(w.app, note), w.callers[caller := place]))
  {
    var next := World(Noted(w.app, note), w.callers[caller := place]);
    forall c | c in next.callers ensures PlaceFits(next.app, next.callers[c]) {
      if c != caller {
        OthersUnconcerned(w.app, note, w.callers[c]);
      }
    }
    assert forall c | c in w.callers && c != caller :: !IsCloser(w.callers[c]);
    assert forall c | c in next.callers && IsCloser(next.callers[c]) :: c == caller;
    assert PlaceFits(w.app, w.callers[caller]);
  }

  lemma DatabaseSection(w: World, caller: nat, error: Error)
    requires Inv(w) && caller in w.callers && w.callers[caller].AtDatabase?
    ensures Inv(Advance(w, caller, error))
  {
    var a := w.app;
    assert PlaceFits(a, w.callers[caller]);
    if a.hasConn {
      var next := Noted(a, DatabaseClosed(error));
      OneMoreNote(a.notes, DatabaseClosed(error), a.hasConn, a.runners);
      assert forall note :: note in next.notes <==> note in a.notes || note == DatabaseClosed(error);
      assert FieldsFit(next);
      CloserNotes(w, caller, DatabaseClosed(error), AtEnd(error));
    } else {
      MoveKeeps(w, caller, AtEnd(None));
    }
  }

  lemma EndFits(a: App, err: Error)
    requires FieldsFit(a) && IsOrderly(a.notes, a.hasConn, a.runners) && CloserFits(a, AtEnd(err))
    ensures
      var next := AfterEndClose(a, err);
      FieldsFit(next) && IsOrderly(next.notes, next.hasConn, next.runners) && CloseEnded(err) in next.notes
  {
    OneMoreNote(a.notes, CloseEnded(err), a.hasConn, a.runners);
    assert forall note :: note in AfterEndClose(a, err).notes <==> note in a.notes || note == CloseEnded(err);
  }

  lemma EndUnconcerned(a: App, err: Error, place: Place)
    requires PlaceFits(a, place) && !IsCloser(place)
    ensures PlaceFits(AfterEndClose(a, err), place)
  {
  }

  /** The closer goes over to those who are done, everybody else stays. */
  lemma CloserLeaves(w: World, caller: nat, next: App, place: Place)
    requires Inv(w) && caller in w.callers && IsCloser(w.callers[caller]) && !IsCloser(place)
    requires FieldsFit(next) && IsOrderly(next.notes, next.hasConn, next.runners) && next.closeStarted
    requires PlaceFits(next, place)
    requires forall c | c in w.callers && c != caller :: PlaceFits(next, w.callers[c])
    ensures Inv(World(next, w.callers[caller := place]))
  {
    assert forall c | c in w.callers && c != caller :: !IsCloser(w.callers[c]);
  }

  lemma EndSection(w: World, caller: nat, error: Error)
    requires Inv(w) && caller in w.callers && w.callers[caller].AtEnd?
    ensures Inv(Advance(w, caller, error))
  {
    var err := w.callers[caller].error;
    assert PlaceFits(w.app, w.callers[caller]);
    EndFits(w.app, err);
    var next := AfterEndClose(w.app, err);
    forall c | c in w.callers && c != caller ensures PlaceFits(next, w.callers[c]) {
      EndUnconcerned(w.app, err, w.callers[c]);
    }
    CloserLeaves(w, caller, next, AtReturn(err));
  }

  lemma ReturnFields(a: App, caller: nat, err: Error)
    requires FieldsFit(a)
    ensures FieldsFit(Noted(a, CloseReturned(caller, err)))
    ensures CloseEnded(err) in a.notes ==> CloseEnded(err) in Noted(a, CloseReturned(caller, err)).notes
  {
    HarmlessNotes(a.notes, CloseReturned(caller, err), a.runners);
    assert forall n :: n in Noted(a, CloseReturned(caller, err)).notes
                       <==> n in a.notes || n == CloseReturned(caller, err);
  }

  /** A caller that knows the outcome returns it. */
  lemma ReturnSection(w: World, caller: nat, err: Error)
    requires Inv(w) && caller in w.callers && !IsCloser(w.callers[caller]) && CloseEnded(err) in w.app.notes
    ensures Inv(World(Noted(w.app, CloseReturned(caller, err)), w.callers[caller := Gone(err)]))
  {
    ReturnFields(w.app, caller, err);
    HarmlessKeeps(w, CloseReturned(caller, err));
    MoveKeeps(World(Noted(w.app, CloseReturned(caller, err)), w.callers), caller, Gone(err));
  }

  lemma AdvanceKeeps(w: World, caller: nat, error: Error)
    requires Inv(w) && caller in w.callers
    ensures Inv(Advance(w, caller, error))
  {
    assert PlaceFits(w.app, w.callers[caller]);
    match w.callers[caller]
    case AtStreams(_, _) => StreamsSection(w, caller, error);
    case AtCancel(_, _) => CancelSection(w, caller, error);
    case AtWait(_) => WaitSection(w, caller, error);
    case AtDatabase => DatabaseSection(w, caller, error);
    case AtEnd(_) => EndSection(w, caller, error);
    case AtReturn(err) => ReturnSection(w, caller, err);
    case AtGate =>
      if w.app.closeDone.Open? {
        MoveKeeps(w, caller, AtRead);
      }
    case AtRead => ReturnSection(w, caller, w.app.closeErr);
    case Gone(_) =>
  }

  lemma StepKeeps(w: World, step: Step)
    requires Inv(w)
    ensures Inv(Next(w, step))
  {
    match step
    case DoRunBackground => RunBackgroundKeeps(w);
    case DoRunnerReturns(r) =>
      if w.app.backgroundStarted && r < w.app.runners && r !in w.app.returned {
        ReturnedKeeps(w, r);
      }
    case DoRunnersDone =>
      if w.app.backgroundStarted && forall r: nat | r < w.app.runners :: r in w.app.returned {
        RunnersDoneKeeps(w);
      }
    case DoCloseStreams => CloseStreamsKeeps(w);
    case DoClose(caller) =>
      if caller !in w.callers {
        CloseKeeps(w, caller);
      }
    case DoAdvance(caller, error) =>
      if caller in w.callers {
        AdvanceKeeps(w, caller, error);
      }
  }

  lemma AdvanceKeepsSetup(w: World, caller: nat, error: Error)
    requires caller in w.callers
    ensures Advance(w, caller, error).app.hasConn == w.app.hasConn
    ensures Advance(w, caller, error).app.runners == w.app.runners
  {
  }

  lemma NextKeepsSetup(w: World, step: Step)
    ensures Next(w, step).app.hasConn == w.app.hasConn && Next(w, step).app.runners == w.app.runners
  {
    if step.DoAdvance? && step.caller in w.callers {
      AdvanceKeepsSetup(w, step.caller, step.error);
    }
  }

  lemma {:induction false} RunsKeep(hasConn: bool, runners: nat, steps: seq<Step>)
    ensures Inv(Run(hasConn, runners, steps))
    ensures Run(hasConn, runners, steps).app.hasConn == hasConn && Run(hasConn, runners, steps).app.runners == runners
  {
    if steps == [] {
      NewFits(hasConn, runners);
    } else {
      var n := |steps| - 1;
      RunsKeep(hasConn, runners, steps[..n]);
      StepKeeps(Run(hasConn, runners, steps[..n]), steps[n]);
      NextKeepsSetup(Run(hasConn, runners, steps[..n]), steps[n]);
    }
  }

  lemma NewFits(hasConn: bool, runners: nat)
    ensures Inv(World(New(hasConn, runners), map[]))
  {
  }

  /** Whatever the interleaving of starts and closes, things happen in the allowed order. */
  lemma ShutdownIsOrderly(hasConn: bool, runners: nat, steps: seq<Step>)
    ensures IsOrderly(Run(hasConn, runners, steps).app.notes, hasConn, runners)
  {
    RunsKeep(hasConn, runners, steps);
  }

  /** Every caller of Close that has returned returned the one error, and by then the database was closed with it. */
  lemma CallersAgree(hasConn: bool, runners: nat, steps: seq<Step>, c: nat, d: nat)
    requires
      var w := Run(hasConn, runners, steps);
      c in w.callers && d in w.callers && w.callers[c].Gone? && w.callers[d].Gone?
    ensures
      var w := Run(hasConn, runners, steps);
      && w.callers[c].error == w.callers[d].error
      && (if hasConn then DatabaseClosed(w.callers[c].error) in w.app.notes else w.callers[c].error.None?)
  {
    RunsKeep(hasConn, runners, steps);
    var w := Run(hasConn, runners, steps);
    assert PlaceFits(w.app, w.callers[c]) && PlaceFits(w.app, w.callers[d]);
    OneEnd(w.app.notes, hasConn, runners, w.callers[c].error, w.callers[d].error);
    EndMeansClosed(w.app.notes, hasConn, runners, w.callers[c].error);
  }

  lemma NoLaterEnd(notes: seq<Note>, hasConn: bool, runners: nat, i: nat)
    requires IsOrderly(notes, hasConn, runners) && i < |notes| && notes[i].CloseEnded?
    ensures forall j | i < j < |notes| :: !notes[j].CloseEnded?
  {
    forall j | i < j < |notes| ensures !notes[j].CloseEnded? {
      assert IsAllowed(notes[..j], notes[j], hasConn, runners);
      assert notes[..j][i] == notes[i];
    }
  }

  lemma OneEnd(notes: seq<Note>, hasConn: bool, runners: nat, e: Error, f: Error)
    requires IsOrderly(notes, hasConn, runners) && CloseEnded(e) in notes && CloseEnded(f) in notes
    ensures e == f
  {
    var i :| 0 <= i < |notes| && notes[i] == CloseEnded(e);
    var j :| 0 <= j < |notes| && notes[j] == CloseEnded(f);
    NoLaterEnd(notes, hasConn, runners, i);
    NoLaterEnd(notes, hasConn, runners, j);
    assert i == j;
  }

  lemma EndMeansClosed(notes: seq<Note>, hasConn: bool, runners: nat, e: Error)
    requires IsOrderly(notes, hasConn, runners) && CloseEnded(e) in notes
    ensures if hasConn then DatabaseClosed(e) in notes else e.None?
  {
    var i :| 0 <= i < |notes| && notes[i] == CloseEnded(e);
    assert IsAllowed(notes[..i], notes[i], hasConn, runners);
  }

  /** A caller of Close is never stuck once the started runners have returned: some step moves it on. */
  lemma CloserIsNotStuck(hasConn: bool, runners: nat, steps: seq<Step>, c: nat, error: Error)
    requires
      var w := Run(hasConn, runners, steps);
      && c in w.callers && IsCloser(w.callers[c])
      && (w.app.backgroundStarted ==> w.app.runnersDone)
    ensures
      var w := Run(hasConn, runners, steps);
      Next(w, DoAdvance(c, error)).callers[c] != w.callers[c]
  {
    RunsKeep(hasConn, runners, steps);
    var w := Run(hasConn, runners, steps);
    assert PlaceFits(w.app, w.callers[c]);
  }
}
