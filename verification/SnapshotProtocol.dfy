/**
 The hook that keeps the browser's list of snapshots, and every run of live events, refreshes, out-of-order or failed
 completions, renderings, mounting and unmounting.
 */
module SnapshotProtocol {
  import opened Wrappers
  import opened LiveModel
  import opened ServerSnapshots

  /** What a refresh remembers of its start. */
  datatype Request = Request(generation: nat, revision: nat)

  /** A change of the list that waits to be applied to the list of its time. */
  datatype Update = Merge(snapshot: Snapshot) | Reconcile(fetched: seq<Snapshot>, revision: nat)

  datatype LoadStatus = LoadPending | LoadSucceeded | LoadFailed

  datatype State = State(
    shown: seq<Snapshot>, updates: seq<Update>, mounted: bool, eventRevision: nat, revisions: Revisions,
    generation: nat, load: LoadStatus)

  const INITIAL := State([], [], false, 0, map[], 0, LoadPending)

  function Apply(nameLe: Collation, shown: seq<Snapshot>, update: Update, revisions: Revisions): seq<Snapshot> {
    match update
    case Merge(snapshot) => MergeSnapshot(nameLe, shown, snapshot)
    case Reconcile(fetched, revision) => SortSnapshots(nameLe, Reconciled(shown, fetched, revisions, revision))
  }

  function AfterRefresh(s: State): State {
    s.(generation := s.generation + 1)
  }

  function AfterMount(s: State): State {
    AfterRefresh(s.(mounted := true))
  }

  predicate IsApplied(s: State, request: Request) {
    s.mounted && request.generation == s.generation
  }

  function AfterSuccess(s: State, request: Request, fetched: seq<Snapshot>): State {
    if IsApplied(s, request)
    then s.(load := LoadSucceeded, updates := s.updates + [Reconcile(fetched, request.revision)])
    else s
  }

  function AfterFailure(s: State, request: Request, aborted: bool): State {
    if IsApplied(s, request) && !aborted && s.load != LoadSucceeded then s.(load := LoadFailed) else s
  }

  function AfterEvent(s: State, snapshot: Snapshot): State {
    if s.mounted then
      var revision := s.eventRevision + 1;
      s.(eventRevision := revision, revisions := s.revisions[snapshot.serverId := revision],
         updates := s.updates + [Merge(snapshot)])
    else s
  }

  /** The oldest waiting change is applied, with the revisions as they are by then. */
  function AfterRender(nameLe: Collation, s: State): State {
    if s.updates == [] then s
    else s.(shown := Apply(nameLe, s.shown, s.updates[0], s.revisions), updates := s.updates[1..])
  }

  class Hook {
    const nameLe: Collation
    var snapshots: seq<Snapshot>
    var updates: seq<Update>
    var mounted: bool
    var eventRevision: nat
    var revisions: Revisions
    var generation: nat
    var load: LoadStatus

    ghost function Value(): State
      reads this
    {
      State(snapshots, updates, mounted, eventRevision, revisions, generation, load)
    }

    constructor (nameLe: Collation)
      ensures this.nameLe == nameLe && Value() == INITIAL
    {
      this.nameLe := nameLe;
      snapshots, updates, mounted, eventRevision, revisions, generation := [], [], false, 0, map[], 0;
      load := LoadPending;
    }

    method Mount() returns (request: Request)
      modifies this
      ensures Value() == AfterMount(old(Value())) && request == Request(generation, eventRevision)
      ensures mounted && generation == old(generation) + 1
    {
      mounted := true;
      request := Refresh();
    }

    method Unmount()
      modifies this
      ensures Value() == old(Value()).(mounted := false)
    {
      mounted := false;
    }

    /** A refresh up to the point where it waits for the response. */
    method Refresh() returns (request: Request)
      modifies this
      ensures Value() == AfterRefresh(old(Value())) && request == Request(generation, eventRevision)
    {
      var requestRevision := eventRevision;
      var requestGeneration := generation + 1;
      generation := requestGeneration;
      return Request(requestGeneration, requestRevision);
    }

    method Succeed(request: Request, fetched: seq<Snapshot>)
      modifies this
      ensures Value() == AfterSuccess(old(Value()), request, fetched)
      ensures Value() ==
        if old(mounted) && request.generation == old(generation)
        then old(Value()).(load := LoadSucceeded, updates := old(updates) + [Reconcile(fetched, request.revision)])
        else old(Value())
    {
      if !mounted || request.generation != generation {
        return;
      }
      load := LoadSucceeded;
      updates := updates + [Reconcile(fetched, request.revision)];
    }

    method Fail(request: Request, aborted: bool)
      modifies this
      ensures Value() == AfterFailure(old(Value()), request, aborted)
      ensures snapshots == old(snapshots) && updates == old(updates) && revisions == old(revisions)
      ensures load ==
        if old(mounted) && !aborted && request.generation == old(generation) && old(load) != LoadSucceeded
        then LoadFailed else old(load)
    {
      if !mounted || aborted || request.generation != generation {
        return;
      }
      if load != LoadSucceeded {
        load := LoadFailed;
      }
    }

    /** A live event, unless it could not be parsed. */
    method HandleSnapshot(parsed: Option<Snapshot>)
      modifies this
      ensures Value() == if parsed.None? then old(Value()) else AfterEvent(old(Value()), parsed.value)
      ensures updates == if parsed.Some? && mounted then old(updates) + [Merge(parsed.value)] else old(updates)
    {
      if parsed.Some? && mounted {
        eventRevision := eventRevision + 1;
        revisions := revisions[parsed.value.serverId := eventRevision];
        updates := updates + [Merge(parsed.value)];
      }
    }

    method Render()
      modifies this
      ensures Value() == AfterRender(nameLe, old(Value()))
    {
      if updates == [] {
        return;
      }
      var update := updates[0];
      updates := updates[1..];
      match update
      case Merge(snapshot) =>
        snapshots := MergeSnapshot(nameLe, snapshots, snapshot);
      case Reconcile(fetched, revision) =>
        snapshots := ReconcileFetch(nameLe, snapshots, fetched, revisions, revision);
    }
  }

  // Runs

  /** The fetch applied last: what it brought, and how many events had been received when it began. */
  datatype Applied = NoFetch | Fetch(fetched: seq<Snapshot>, generation: nat, revision: nat)

  /** The hook, every refresh begun so far, every event received while mounted, and the last applied fetch. */
  datatype World = World(state: State, requests: seq<Request>, events: seq<Snapshot>, applied: Applied)

  const START := World(INITIAL, [], [], NoFetch)

  datatype Step =
    | DoMount
    | DoUnmount
    | DoRefresh
    | DoSucceed(request: nat, fetched: seq<Snapshot>)
    | DoFail(request: nat, aborted: bool)
    | DoEvent(snapshot: Snapshot)
    | DoRender

  function Begin(w: World, state: State): World {
    w.(state := state, requests := w.requests + [Request(state.generation, state.eventRevision)])
  }

  function Succeeded(w: World, request: Request, fetched: seq<Snapshot>): World {
    w.(state := AfterSuccess(w.state, request, fetched),
       applied := if IsApplied(w.state, request) then Fetch(fetched, request.generation, request.revision)
                  else w.applied)
  }

  function Received(w: World, snapshot: Snapshot): World {
    w.(state := AfterEvent(w.state, snapshot), events := if w.state.mounted then w.events + [snapshot] else w.events)
  }

  function Next(nameLe: Collation, w: World, step: Step): World {
    match step
    case DoMount => Begin(w, AfterMount(w.state))
    case DoUnmount => w.(state := w.state.(mounted := false))
    case DoRefresh => Begin(w, AfterRefresh(w.state))
    case DoSucceed(i, fetched) => if i < |w.requests| then Succeeded(w, w.requests[i], fetched) else w
    case DoFail(i, aborted) =>
      if i < |w.requests| then w.(state := AfterFailure(w.state, w.requests[i], aborted)) else w
    case DoEvent(snapshot) => Received(w, snapshot)
    case DoRender => w.(state := AfterRender(nameLe, w.state))
  }

  function Run(nameLe: Collation, steps: seq<Step>): World {
    if steps == [] then START
    else Next(nameLe, Run(nameLe, steps[..|steps| - 1]), steps[|steps| - 1])
  }

  // What should be shown

  /** One more than the position of the last event of a server, and zero if there is none. */
  function LastEvent(events: seq<Snapshot>, id: int): (revision: nat)
    ensures revision <= |events|
    ensures revision > 0 ==> events[revision - 1].serverId == id
  {
    if events == [] then 0
    else if events[|events| - 1].serverId == id then |events|
    else LastEvent(events[..|events| - 1], id)
  }

  function Since(applied: Applied): nat {
    if applied.NoFetch? then 0 else applied.revision
  }

  /** The last event received after the last applied fetch began, otherwise the fetch's entry, otherwise nothing. */
  function Expected(events: seq<Snapshot>, applied: Applied, id: int): Option<Snapshot> {
    var last := LastEvent(events, id);
    if last > Since(applied) then Some(events[last - 1])
    else if applied.NoFetch? then None
    else Lookup(applied.fetched, id)
  }

  // One server's entry, once all waiting changes are applied

  function EntryAfter(entry: Option<Snapshot>, update: Update, id: int, revision: nat): Option<Snapshot> {
    match update
    case Merge(snapshot) => if snapshot.serverId == id then Some(snapshot) else entry
    case Reconcile(fetched, requestRevision) => ReconciledEntry(entry, Lookup(fetched, id), revision > requestRevision)
  }

  function Settled(entry: Option<Snapshot>, updates: seq<Update>, id: int, revision: nat): Option<Snapshot> {
    if updates == [] then entry
    else
      var n := |updates| - 1;
      EntryAfter(Settled(entry, updates[..n], id, revision), updates[n], id, revision)
  }

  lemma {:induction false} SettledFirst(entry: Option<Snapshot>, updates: seq<Update>, id: int, revision: nat)
    requires updates != []
    ensures Settled(entry, updates, id, revision)
            == Settled(EntryAfter(entry, updates[0], id, revision), updates[1..], id, revision)
  {
    var n := |updates| - 1;
    if n == 0 {
      assert updates[..0] == updates[1..] == [];
    } else {
      SettledFirst(entry, updates[..n], id, revision);
      assert updates[..n][1..] == updates[1..][..n - 1];
    }
  }

  predicate BringsUnique(update: Update) {
    update.Reconcile? ==> UniqueIds(update.fetched)
  }

  ghost predicate ListFits(nameLe: Collation, shown: seq<Snapshot>) {
    UniqueIds(shown) && InOrder(nameLe, shown)
  }

  /** A change of the list is a change of each entry, and keeps the list sorted and without duplicates. */
  lemma ApplyEntries(nameLe: Collation, shown: seq<Snapshot>, update: Update, revisions: Revisions, id: int)
    requires IsCollation(nameLe) && UniqueIds(shown) && BringsUnique(update)
    ensures ListFits(nameLe, Apply(nameLe, shown, update, revisions))
    ensures Lookup(Apply(nameLe, shown, update, revisions), id)
            == EntryAfter(Lookup(shown, id), update, id, RevisionOf(revisions, id))
  {
    match update
    case Merge(snapshot) =>
      MergedEntries(shown, snapshot, id);
      SortKeepsEntries(nameLe, Merged(shown, snapshot));
    case Reconcile(fetched, revision) =>
      ReconciledEntries(shown, fetched, revisions, revision, id);
      SortKeepsEntries(nameLe, Reconciled(shown, fetched, revisions, revision));
  }

  // What every step keeps

  ghost predicate RequestsFit(w: World) {
    && |w.requests| == w.state.generation
    && (forall i | 0 <= i < |w.requests| :: w.requests[i].generation == i + 1 && w.requests[i].revision <= |w.events|)
    && (forall i, j | 0 <= i < j < |w.requests| :: w.requests[i].revision <= w.requests[j].revision)
  }

  ghost predicate AppliedFits(w: World) {
    w.applied.Fetch? ==>
      && 1 <= w.applied.generation <= |w.requests|
      && w.applied.revision == w.requests[w.applied.generation - 1].revision
  }

  ghost predicate RevisionsFit(w: World) {
    && w.state.eventRevision == |w.events|
    && forall id :: RevisionOf(w.state.revisions, id) == LastEvent(w.events, id)
  }

  ghost predicate EntriesFit(w: World) {
    forall id :: Settled(Lookup(w.state.shown, id), w.state.updates, id, LastEvent(w.events, id))
                 == Expected(w.events, w.applied, id)
  }

  ghost predicate Inv(nameLe: Collation, w: World) {
    && RequestsFit(w) && AppliedFits(w) && RevisionsFit(w) && EntriesFit(w)
    && ListFits(nameLe, w.state.shown)
    && forall i | 0 <= i < |w.state.updates| :: BringsUnique(w.state.updates[i])
  }

  lemma EventKeepsEntries(w: World, snapshot: Snapshot)
    requires RequestsFit(w) && AppliedFits(w) && RevisionsFit(w) && EntriesFit(w) && w.state.mounted
    ensures RevisionsFit(Received(w, snapshot)) && EntriesFit(Received(w, snapshot))
  {
    var next := Received(w, snapshot);
    assert next.events[..|w.events|] == w.events;
    assert next.state.updates[..|w.state.updates|] == w.state.updates;
    forall id
      ensures RevisionOf(next.state.revisions, id) == LastEvent(next.events, id)
      ensures Settled(Lookup(next.state.shown, id), next.state.updates, id, LastEvent(next.events, id))
              == Expected(next.events, next.applied, id)
    {
      assert RevisionOf(w.state.revisions, id) == LastEvent(w.events, id);
    }
  }

  lemma SuccessKeepsEntries(w: World, request: Request, fetched: seq<Snapshot>)
    requires RequestsFit(w) && AppliedFits(w) && EntriesFit(w) && IsApplied(w.state, request)
    requires 1 <= request.generation && w.requests[request.generation - 1] == request
    ensures EntriesFit(Succeeded(w, request, fetched))
  {
    var next := Succeeded(w, request, fetched);
    assert Since(w.applied) <= request.revision;
    assert next.state.updates[..|w.state.updates|] == w.state.updates;
    forall id
      ensures Settled(Lookup(next.state.shown, id), next.state.updates, id, LastEvent(next.events, id))
              == Expected(next.events, next.applied, id)
    {
      assert Settled(Lookup(w.state.shown, id), w.state.updates, id, LastEvent(w.events, id))
             == Expected(w.events, w.applied, id);
    }
  }

  lemma EventKeeps(nameLe: Collation, w: World, snapshot: Snapshot)
    requires Inv(nameLe, w)
    ensures Inv(nameLe, Received(w, snapshot))
  {
    if w.state.mounted {
      EventKeepsEntries(w, snapshot);
    }
  }

  lemma RenderKeepsEntry(nameLe: Collation, w: World, id: int)
    requires IsCollation(nameLe) && UniqueIds(w.state.shown) && RevisionsFit(w) && EntriesFit(w)
    requires w.state.updates != [] && BringsUnique(w.state.updates[0])
    ensures
      var next := AfterRender(nameLe, w.state);
      Settled(Lookup(next.shown, id), next.updates, id, LastEvent(w.events, id)) == Expected(w.events, w.applied, id)
  {
    var s := w.state;
    assert RevisionOf(s.revisions, id) == LastEvent(w.events, id);
    assert Settled(Lookup(s.shown, id), s.updates, id, LastEvent(w.events, id)) == Expected(w.events, w.applied, id);
    ApplyEntries(nameLe, s.shown, s.updates[0], s.revisions, id);
    SettledFirst(Lookup(s.shown, id), s.updates, id, LastEvent(w.events, id));
  }

  lemma RenderKeepsEntries(nameLe: Collation, w: World)
    requires IsCollation(nameLe) && UniqueIds(w.state.shown) && RevisionsFit(w) && EntriesFit(w)
    requires w.state.updates != [] && BringsUnique(w.state.updates[0])
    ensures EntriesFit(w.(state := AfterRender(nameLe, w.state)))
  {
    var next := AfterRender(nameLe, w.state);
    forall id
      ensures Settled(Lookup(next.shown, id), next.updates, id, LastEvent(w.events, id))
              == Expected(w.events, w.applied, id)
    {
      RenderKeepsEntry(nameLe, w, id);
    }
  }

  lemma RenderKeeps(nameLe: Collation, w: World)
    requires IsCollation(nameLe) && Inv(nameLe, w)
    ensures Inv(nameLe, w.(state := AfterRender(nameLe, w.state)))
  {
    if w.state.updates != [] {
      RenderKeepsEntries(nameLe, w);
      ApplyEntries(nameLe, w.state.shown, w.state.updates[0], w.state.revisions, 0);
    }
  }

  /** A fetch lists every server once. */
  predicate IsProper(step: Step) {
    step.DoSucceed? ==> UniqueIds(step.fetched)
  }

  lemma BeginKeeps(nameLe: Collation, w: World, state: State)
    requires Inv(nameLe, w) && state == w.state.(mounted := state.mounted, generation := w.state.generation + 1)
    ensures Inv(nameLe, Begin(w, state))
  {
  }

  lemma SuccessKeeps(nameLe: Collation, w: World, i: nat, fetched: seq<Snapshot>)
    requires Inv(nameLe, w) && UniqueIds(fetched) && i < |w.requests|
    ensures Inv(nameLe, Succeeded(w, w.requests[i], fetched))
  {
    if IsApplied(w.state, w.requests[i]) {
      SuccessKeepsEntries(w, w.requests[i], fetched);
    }
  }

  lemma StepKeeps(nameLe: Collation, w: World, step: Step)
    requires IsCollation(nameLe) && Inv(nameLe, w) && IsProper(step)
    ensures Inv(nameLe, Next(nameLe, w, step))
  {
    match step
    case DoMount => BeginKeeps(nameLe, w, AfterMount(w.state));
    case DoUnmount =>
    case DoRefresh => BeginKeeps(nameLe, w, AfterRefresh(w.state));
    case DoSucceed(i, fetched) =>
      if i < |w.requests| {
        SuccessKeeps(nameLe, w, i, fetched);
      }
    case DoFail(i, aborted) =>
    case DoEvent(snapshot) => EventKeeps(nameLe, w, snapshot);
    case DoRender => RenderKeeps(nameLe, w);
  }

  lemma {:induction false} RunsKeep(nameLe: Collation, steps: seq<Step>)
    requires IsCollation(nameLe) && forall i | 0 <= i < |steps| :: IsProper(steps[i])
    ensures Inv(nameLe, Run(nameLe, steps))
  {
    if steps != [] {
      var n := |steps| - 1;
      RunsKeep(nameLe, steps[..n]);
      StepKeeps(nameLe, Run(nameLe, steps[..n]), steps[n]);
    } else {
      forall id ensures Settled(Lookup(START.state.shown, id), START.state.updates, id, LastEvent(START.events, id))
                        == Expected(START.events, START.applied, id) {
      }
    }
  }

  /** A response is applied if the hook is mounted and no refresh has begun since its own; nothing else is. */
  lemma AppliedExactly(nameLe: Collation, steps: seq<Step>, step: Step)
    requires IsCollation(nameLe) && forall i | 0 <= i < |steps| :: IsProper(steps[i])
    ensures
      var w := Run(nameLe, steps);
      Next(nameLe, w, step).applied ==
        if step.DoSucceed? && w.state.mounted && step.request == |w.requests| - 1
        then Fetch(step.fetched, |w.requests|, w.requests[step.request].revision)
        else w.applied
  {
    RunsKeep(nameLe, steps);
  }

  lemma StepMounts(nameLe: Collation, w: World, step: Step)
    ensures Next(nameLe, w, step).state.mounted <==> step.DoMount? || (w.state.mounted && !step.DoUnmount?)
  {
  }

  /** The mounting at i has not been undone. */
  predicate StaysMounted(steps: seq<Step>, i: int) {
    0 <= i < |steps| && steps[i].DoMount? && forall k | i < k < |steps| :: !steps[k].DoUnmount?
  }

  lemma MountingLasts(steps: seq<Step>, step: Step)
    ensures (exists i :: StaysMounted(steps + [step], i))
            <==> step.DoMount? || ((exists i :: StaysMounted(steps, i)) && !step.DoUnmount?)
  {
    var more := steps + [step];
    assert forall k | 0 <= k < |steps| :: steps[k] == more[k];
    assert step.DoMount? ==> StaysMounted(more, |steps|);
    if i :| StaysMounted(more, i) && i < |steps| {
      assert StaysMounted(steps, i) && more[|steps|] == step;
    }
    if i :| StaysMounted(steps, i) && !step.DoUnmount? {
      assert StaysMounted(more, i);
    }
  }

  /** The hook is mounted if some mounting has not been undone. */
  lemma {:induction false} MountedExactly(nameLe: Collation, steps: seq<Step>)
    ensures Run(nameLe, steps).state.mounted <==> exists i :: StaysMounted(steps, i)
  {
    if steps != [] {
      var n := |steps| - 1;
      MountedExactly(nameLe, steps[..n]);
      StepMounts(nameLe, Run(nameLe, steps[..n]), steps[n]);
      MountingLasts(steps[..n], steps[n]);
      assert steps[..n] + [steps[n]] == steps;
    }
  }

  lemma StepLoads(nameLe: Collation, w: World, step: Step)
    requires w.state.load == LoadSucceeded <==> w.applied.Fetch?
    ensures Next(nameLe, w, step).state.load == LoadSucceeded <==> Next(nameLe, w, step).applied.Fetch?
  {
  }

  /** The load has succeeded once some response was applied, and for good. */
  lemma {:induction false} LoadTellsApplied(nameLe: Collation, steps: seq<Step>)
    ensures Run(nameLe, steps).state.load == LoadSucceeded <==> Run(nameLe, steps).applied.Fetch?
  {
    if steps != [] {
      LoadTellsApplied(nameLe, steps[..|steps| - 1]);
      StepLoads(nameLe, Run(nameLe, steps[..|steps| - 1]), steps[|steps| - 1]);
    }
  }

  /** Every refresh remembers how many events had been received when it began. */
  lemma BeginsWithEvents(nameLe: Collation, steps: seq<Step>, step: Step)
    requires IsCollation(nameLe) && forall i | 0 <= i < |steps| :: IsProper(steps[i])
    ensures
      var w, next := Run(nameLe, steps), Next(nameLe, Run(nameLe, steps), step);
      if step.DoMount? || step.DoRefresh? then
        |next.requests| == |w.requests| + 1 && next.requests[|w.requests|].revision == |w.events|
      else next.requests == w.requests
    ensures
      var w := Run(nameLe, steps);
      Next(nameLe, w, step).events ==
        if step.DoEvent? && w.state.mounted then w.events + [step.snapshot] else w.events
  {
    RunsKeep(nameLe, steps);
  }

  /**
   Whatever the interleaving, once the waiting changes are applied each server is shown by the last live event received
   after the last applied fetch began, otherwise by that fetch's entry, otherwise not at all.
   */
  lemma ShowsLatest(nameLe: Collation, steps: seq<Step>, id: int)
    requires IsCollation(nameLe) && forall i | 0 <= i < |steps| :: IsProper(steps[i])
    requires Run(nameLe, steps).state.updates == []
    ensures
      var w := Run(nameLe, steps);
      Lookup(w.state.shown, id) == Expected(w.events, w.applied, id)
  {
    RunsKeep(nameLe, steps);
    var w := Run(nameLe, steps);
    assert Settled(Lookup(w.state.shown, id), w.state.updates, id, LastEvent(w.events, id))
           == Expected(w.events, w.applied, id);
  }

  /** At every moment the list shows each server once, offline servers first, and by name among equals. */
  lemma StaysSorted(nameLe: Collation, steps: seq<Step>)
    requires IsCollation(nameLe) && forall i | 0 <= i < |steps| :: IsProper(steps[i])
    ensures
      var shown := Run(nameLe, steps).state.shown;
      && (forall i, j | 0 <= i < j < |shown| :: shown[i].serverId != shown[j].serverId)
      && (forall i, j | 0 <= i < j < |shown| :: shown[i].online ==> shown[j].online)
      && (forall i, j | 0 <= i < j < |shown| && shown[i].online == shown[j].online ::
            nameLe(shown[i].serverName, shown[j].serverName))
  {
    RunsKeep(nameLe, steps);
  }
}
