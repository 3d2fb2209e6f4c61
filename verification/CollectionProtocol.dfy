/** Every run of list loads, requests to single servers and additions, with responses in any order. */
module CollectionProtocol {
  import opened Wrappers
  import opened ServerRegistry
  import opened ServerCollection

  /** What happened, in order; an ending names the position of its beginning. */
  datatype Act =
    | LoadBegan(ticket: LoadTicket)
    | LoadEnded(load: nat, result: Option<seq<Server>>, installed: bool)
    | RequestBegan(id: int, pending: Pending)
    | RequestEnded(request: nat, response: Response, applied: bool)
    | Added(server: Server)

  datatype World = World(state: State, acts: seq<Act>)

  const START := World(INITIAL, [])

  datatype Step =
    | DoBeginLoad
    | DoEndLoad(load: nat, result: Option<seq<Server>>)
    | DoBeginRequest(id: int, action: Action)
    | DoEndRequest(request: nat, response: Response)
    | DoAdd(server: Server)

  function BeginLoad(w: World): World {
    var next := AfterBeginLoad(w.state);
    World(next, w.acts + [LoadBegan(LoadTicket(next.nextGeneration, next.mutationRevision))])
  }

  function EndLoad(w: World, load: nat, result: Option<seq<Server>>): World {
    if load < |w.acts| && w.acts[load].LoadBegan? then
      var ticket := w.acts[load].ticket;
      World(AfterEndLoad(w.state, ticket, result),
            w.acts + [LoadEnded(load, result, result.Some? && IsInstalled(w.state, ticket))])
    else w
  }

  function BeginRequest(w: World, id: int, action: Action): World {
    var next := AfterBeginRequest(w.state, id, action);
    World(next, w.acts + [RequestBegan(id, Pending(action, next.nextGeneration))])
  }

  function EndRequest(w: World, request: nat, response: Response): World {
    if request < |w.acts| && w.acts[request].RequestBegan? then
      var RequestBegan(id, pending) := w.acts[request];
      World(AfterEndRequest(w.state, id, pending.generation, response),
            w.acts + [RequestEnded(request, response, IsLatest(w.state, id, pending.generation) && response != Failed)])
    else w
  }

  function Add(w: World, server: Server): World {
    World(AfterAdd(w.state, server), w.acts + [Added(server)])
  }

  function Next(w: World, step: Step): World {
    match step
    case DoBeginLoad => BeginLoad(w)
    case DoEndLoad(load, result) => EndLoad(w, load, result)
    case DoBeginRequest(id, action) => BeginRequest(w, id, action)
    case DoEndRequest(request, response) => EndRequest(w, request, response)
    case DoAdd(server) => Add(w, server)
  }

  function After(w: World, steps: seq<Step>): World {
    if steps == [] then w else Next(After(w, steps[..|steps| - 1]), steps[|steps| - 1])
  }

  // What the acts say

  /** A request began or was applied, or a server was added. */
  predicate IsMutation(act: Act) {
    act.RequestBegan? || act.Added? || (act.RequestEnded? && act.applied)
  }

  function Mutations(acts: seq<Act>): nat {
    if acts == [] then 0
    else Mutations(acts[..|acts| - 1]) + if IsMutation(acts[|acts| - 1]) then 1 else 0
  }

  /** How many generations were given out. */
  function Begun(acts: seq<Act>): nat {
    if acts == [] then 0
    else Begun(acts[..|acts| - 1]) + if acts[|acts| - 1].LoadBegan? || acts[|acts| - 1].RequestBegan? then 1 else 0
  }

  predicate NoNewerLoad(acts: seq<Act>, load: nat) {
    forall i | load < i < |acts| :: !acts[i].LoadBegan?
  }

  predicate NoMutationSince(acts: seq<Act>, load: nat) {
    forall i | load < i < |acts| :: !IsMutation(acts[i])
  }

  predicate NoNewerRequest(acts: seq<Act>, request: nat, id: int) {
    forall i | request < i < |acts| :: !(acts[i].RequestBegan? && acts[i].id == id)
  }

  predicate HasEnded(acts: seq<Act>, request: nat) {
    exists i | request < i < |acts| :: acts[i].RequestEnded? && acts[i].request == request
  }

  /** The server's latest request is unfinished. */
  predicate IsAwaited(acts: seq<Act>, request: nat, id: int) {
    && request < |acts| && acts[request].RequestBegan? && acts[request].id == id
    && NoNewerRequest(acts, request, id) && !HasEnded(acts, request)
  }

  // What every step keeps

  ghost predicate TicketsFit(acts: seq<Act>) {
    && (forall i | 0 <= i < |acts| && acts[i].LoadBegan? ::
          acts[i].ticket == LoadTicket(Begun(acts[..i]) + 1, Mutations(acts[..i])))
    && (forall i | 0 <= i < |acts| && acts[i].RequestBegan? :: acts[i].pending.generation == Begun(acts[..i]) + 1)
  }

  ghost predicate CountersFit(w: World) {
    w.state.nextGeneration == Begun(w.acts) && w.state.mutationRevision == Mutations(w.acts)
  }

  /** The latest list generation is that of the last load, if there is one. */
  ghost predicate LatestListFits(w: World) {
    && w.state.latestList <= w.state.nextGeneration
    && forall i | 0 <= i < |w.acts| && w.acts[i].LoadBegan? ::
         NoNewerLoad(w.acts, i) <==> w.acts[i].ticket.generation == w.state.latestList
  }

  ghost predicate LatestServerFits(w: World) {
    && (forall i | 0 <= i < |w.acts| && w.acts[i].RequestBegan? ::
          NoNewerRequest(w.acts, i, w.acts[i].id)
          <==> IsLatest(w.state, w.acts[i].id, w.acts[i].pending.generation))
    && (forall id | id in w.state.latestServer :: w.state.latestServer[id] <= w.state.nextGeneration)
  }

  ghost predicate PendingFits(w: World) {
    && (forall i: nat, id: int | IsAwaited(w.acts, i, id) ::
          id in w.state.pending && w.state.pending[id] == w.acts[i].pending)
    && (forall id | id in w.state.pending ::
          exists i: nat :: IsAwaited(w.acts, i, id) && w.state.pending[id] == w.acts[i].pending)
  }

  ghost predicate Inv(w: World) {
    TicketsFit(w.acts) && CountersFit(w) && LatestListFits(w) && LatestServerFits(w) && PendingFits(w)
  }

  // One more act

  lemma {:induction false} BegunGrows(acts: seq<Act>, i: nat)
    requires i < |acts|
    ensures Begun(acts[..i]) + (if acts[i].LoadBegan? || acts[i].RequestBegan? then 1 else 0) <= Begun(acts)
  {
    var n := |acts| - 1;
    if i < n {
      BegunGrows(acts[..n], i);
      assert acts[..n][..i] == acts[..i];
    }
  }

  lemma Counts(acts: seq<Act>, act: Act)
    ensures Begun(acts + [act]) == Begun(acts) + if act.LoadBegan? || act.RequestBegan? then 1 else 0
    ensures Mutations(acts + [act]) == Mutations(acts) + if IsMutation(act) then 1 else 0
  {
    assert (acts + [act])[..|acts|] == acts;
  }

  lemma TicketsGrow(acts: seq<Act>, act: Act)
    requires TicketsFit(acts)
    requires act.LoadBegan? ==> act.ticket == LoadTicket(Begun(acts) + 1, Mutations(acts))
    requires act.RequestBegan? ==> act.pending.generation == Begun(acts) + 1
    ensures TicketsFit(acts + [act])
  {
    var more := acts + [act];
    assert forall i | 0 <= i <= |acts| :: more[..i] == acts[..i];
    assert acts[..|acts|] == acts;
    forall i | 0 <= i < |more|
      ensures more[i].LoadBegan? ==> more[i].ticket == LoadTicket(Begun(more[..i]) + 1, Mutations(more[..i]))
      ensures more[i].RequestBegan? ==> more[i].pending.generation == Begun(more[..i]) + 1
    {
      assert more[..i] == acts[..i];
      assert i < |acts| ==> more[i] == acts[i];
    }
  }

  /** Generations given out so far do not exceed their number. */
  lemma GenerationsBounded(acts: seq<Act>, i: nat)
    requires TicketsFit(acts) && i < |acts|
    ensures acts[i].LoadBegan? ==> 1 <= acts[i].ticket.generation <= Begun(acts)
    ensures acts[i].RequestBegan? ==> 1 <= acts[i].pending.generation <= Begun(acts)
  {
    BegunGrows(acts, i);
  }

  lemma NewerLoadGrows(acts: seq<Act>, act: Act, i: nat)
    requires i < |acts|
    ensures NoNewerLoad(acts + [act], i) <==> NoNewerLoad(acts, i) && !act.LoadBegan?
  {
    var more := acts + [act];
    assert more[|acts|] == act && forall k | 0 <= k < |acts| :: more[k] == acts[k];
  }

  lemma NewerRequestGrows(acts: seq<Act>, act: Act, i: nat, id: int)
    requires i < |acts|
    ensures NoNewerRequest(acts + [act], i, id) <==> NoNewerRequest(acts, i, id) && !(act.RequestBegan? && act.id == id)
  {
    var more := acts + [act];
    assert more[|acts|] == act && forall k | 0 <= k < |acts| :: more[k] == acts[k];
  }

  lemma AwaitedGrows(acts: seq<Act>, act: Act, i: nat, id: int)
    ensures i < |acts| ==>
      (IsAwaited(acts + [act], i, id)
       <==> IsAwaited(acts, i, id) && !(act.RequestBegan? && act.id == id) && !(act.RequestEnded? && act.request == i))
    ensures IsAwaited(acts + [act], |acts|, id) <==> act.RequestBegan? && act.id == id
  {
    var more := acts + [act];
    assert more[|acts|] == act && forall k | 0 <= k < |acts| :: more[k] == acts[k];
    if i < |acts| {
      NewerRequestGrows(acts, act, i, id);
      assert HasEnded(more, i) <==> HasEnded(acts, i) || (act.RequestEnded? && act.request == i) by {
        if HasEnded(acts, i) {
          var k :| i < k < |acts| && acts[k].RequestEnded? && acts[k].request == i;
          assert more[k].RequestEnded?;
        }
      }
    }
  }

  // List loads

  lemma LatestListGrows(w: World, next: World, act: Act)
    requires TicketsFit(w.acts) && CountersFit(w) && LatestListFits(w) && next.acts == w.acts + [act]
    requires next.state.nextGeneration >= w.state.nextGeneration
    requires if act.LoadBegan? then act.ticket.generation == next.state.latestList == next.state.nextGeneration
                                    == w.state.nextGeneration + 1
             else next.state.latestList == w.state.latestList
    ensures LatestListFits(next)
  {
    forall i | 0 <= i < |next.acts| && next.acts[i].LoadBegan?
      ensures NoNewerLoad(next.acts, i) <==> next.acts[i].ticket.generation == next.state.latestList
    {
      if i < |w.acts| {
        NewerLoadGrows(w.acts, act, i);
        GenerationsBounded(w.acts, i);
        assert next.acts[i] == w.acts[i];
      }
    }
  }

  // Requests

  lemma LatestServerGrows(w: World, next: World, act: Act)
    requires TicketsFit(w.acts) && CountersFit(w) && LatestServerFits(w) && next.acts == w.acts + [act]
    requires next.state.nextGeneration >= w.state.nextGeneration
    requires
      if act.RequestBegan? then
        && next.state.latestServer == w.state.latestServer[act.id := act.pending.generation]
        && act.pending.generation == next.state.nextGeneration == w.state.nextGeneration + 1
      else next.state.latestServer == w.state.latestServer
    ensures LatestServerFits(next)
  {
    forall i | 0 <= i < |next.acts| && next.acts[i].RequestBegan?
      ensures NoNewerRequest(next.acts, i, next.acts[i].id)
              <==> IsLatest(next.state, next.acts[i].id, next.acts[i].pending.generation)
    {
      if i < |w.acts| {
        NewerRequestGrows(w.acts, act, i, w.acts[i].id);
        GenerationsBounded(w.acts, i);
        assert next.acts[i] == w.acts[i];
      }
    }
  }

  lemma PendingUntouched(w: World, next: World, act: Act)
    requires PendingFits(w) && next.acts == w.acts + [act] && next.state.pending == w.state.pending
    requires !act.RequestBegan? && !act.RequestEnded?
    ensures PendingFits(next)
  {
    forall i: nat, id: int | IsAwaited(next.acts, i, id)
      ensures id in next.state.pending && next.state.pending[id] == next.acts[i].pending
    {
      AwaitedGrows(w.acts, act, i, id);
      assert i < |w.acts| && IsAwaited(w.acts, i, id);
    }
    forall id | id in next.state.pending
      ensures exists i: nat :: IsAwaited(next.acts, i, id) && next.state.pending[id] == next.acts[i].pending
    {
      var i: nat :| IsAwaited(w.acts, i, id) && w.state.pending[id] == w.acts[i].pending;
      AwaitedGrows(w.acts, act, i, id);
      assert IsAwaited(next.acts, i, id) && next.acts[i] == w.acts[i];
    }
  }

  lemma PendingBegins(w: World, id: int, action: Action)
    requires PendingFits(w)
    ensures PendingFits(BeginRequest(w, id, action))
  {
    var next := BeginRequest(w, id, action);
    var act := next.acts[|w.acts|];
    forall i: nat, other: int | IsAwaited(next.acts, i, other)
      ensures other in next.state.pending && next.state.pending[other] == next.acts[i].pending
    {
      AwaitedGrows(w.acts, act, i, other);
      assert i < |w.acts| ==> IsAwaited(w.acts, i, other) && other != id;
    }
    forall other | other in next.state.pending
      ensures exists i: nat :: IsAwaited(next.acts, i, other) && next.state.pending[other] == next.acts[i].pending
    {
      if other == id {
        AwaitedGrows(w.acts, act, |w.acts|, id);
        assert IsAwaited(next.acts, |w.acts|, id);
      } else {
        var i: nat :| IsAwaited(w.acts, i, other) && w.state.pending[other] == w.acts[i].pending;
        AwaitedGrows(w.acts, act, i, other);
        assert IsAwaited(next.acts, i, other) && next.acts[i] == w.acts[i];
      }
    }
  }

  /** Later requests have later generations. */
  lemma GenerationsAscend(acts: seq<Act>, i: nat, j: nat)
    requires TicketsFit(acts) && i < j < |acts| && acts[i].RequestBegan? && acts[j].RequestBegan?
    ensures acts[i].pending.generation < acts[j].pending.generation
  {
    BegunGrows(acts[..j], i);
    assert acts[..j][..i] == acts[..i];
  }

  lemma PendingEnds(w: World, request: nat, response: Response)
    requires TicketsFit(w.acts) && PendingFits(w) && request < |w.acts| && w.acts[request].RequestBegan?
    ensures PendingFits(EndRequest(w, request, response))
  {
    var next := EndRequest(w, request, response);
    var act := next.acts[|w.acts|];
    var RequestBegan(id, pending) := w.acts[request];
    forall i: nat, other: int | IsAwaited(next.acts, i, other)
      ensures other in next.state.pending && next.state.pending[other] == next.acts[i].pending
    {
      AwaitedGrows(w.acts, act, i, other);
      assert i < |w.acts| && IsAwaited(w.acts, i, other) && i != request;
      GenerationsAscend(w.acts, if i < request then i else request, if i < request then request else i);
    }
    forall other | other in next.state.pending
      ensures exists i: nat :: IsAwaited(next.acts, i, other) && next.state.pending[other] == next.acts[i].pending
    {
      var i: nat :| IsAwaited(w.acts, i, other) && w.state.pending[other] == w.acts[i].pending;
      AwaitedGrows(w.acts, act, i, other);
      assert i == request ==> other == id;
      assert IsAwaited(next.acts, i, other) && next.acts[i] == w.acts[i];
    }
  }

  // Steps and runs

  /** What an act does to the counters. */
  ghost predicate IsCounted(s: State, next: State, act: Act) {
    && next.nextGeneration == s.nextGeneration + (if act.LoadBegan? || act.RequestBegan? then 1 else 0)
    && next.mutationRevision == s.mutationRevision + (if IsMutation(act) then 1 else 0)
    && (act.LoadBegan? ==> act.ticket == LoadTicket(next.nextGeneration, s.mutationRevision))
    && (act.RequestBegan? ==> act.pending.generation == next.nextGeneration)
    && next.latestList == (if act.LoadBegan? then next.nextGeneration else s.latestList)
    && next.latestServer ==
         (if act.RequestBegan? then s.latestServer[act.id := next.nextGeneration] else s.latestServer)
  }

  lemma ActKeeps(w: World, next: World, act: Act)
    requires Inv(w) && next.acts == w.acts + [act] && IsCounted(w.state, next.state, act) && PendingFits(next)
    ensures Inv(next)
  {
    Counts(w.acts, act);
    TicketsGrow(w.acts, act);
    LatestListGrows(w, next, act);
    LatestServerGrows(w, next, act);
  }

  lemma EndLoadIsCounted(w: World, load: nat, result: Option<seq<Server>>)
    requires load < |w.acts| && w.acts[load].LoadBegan?
    ensures IsCounted(w.state, EndLoad(w, load, result).state, EndLoad(w, load, result).acts[|w.acts|])
    ensures EndLoad(w, load, result).state.pending == w.state.pending
  {
  }

  lemma EndRequestIsCounted(w: World, request: nat, response: Response)
    requires request < |w.acts| && w.acts[request].RequestBegan?
    ensures IsCounted(w.state, EndRequest(w, request, response).state, EndRequest(w, request, response).acts[|w.acts|])
  {
  }

  lemma EndLoadKeeps(w: World, load: nat, result: Option<seq<Server>>)
    requires Inv(w)
    ensures Inv(EndLoad(w, load, result))
  {
    if load < |w.acts| && w.acts[load].LoadBegan? {
      var next := EndLoad(w, load, result);
      EndLoadIsCounted(w, load, result);
      PendingUntouched(w, next, next.acts[|w.acts|]);
      ActKeeps(w, next, next.acts[|w.acts|]);
    }
  }

  lemma EndRequestKeeps(w: World, request: nat, response: Response)
    requires Inv(w)
    ensures Inv(EndRequest(w, request, response))
  {
    if request < |w.acts| && w.acts[request].RequestBegan? {
      var next := EndRequest(w, request, response);
      EndRequestIsCounted(w, request, response);
      PendingEnds(w, request, response);
      ActKeeps(w, next, next.acts[|w.acts|]);
    }
  }

  lemma BeginLoadKeeps(w: World)
    requires Inv(w)
    ensures Inv(BeginLoad(w))
  {
    var next := BeginLoad(w);
    PendingUntouched(w, next, next.acts[|w.acts|]);
    ActKeeps(w, next, next.acts[|w.acts|]);
  }

  lemma BeginRequestKeeps(w: World, id: int, action: Action)
    requires Inv(w)
    ensures Inv(BeginRequest(w, id, action))
  {
    var next := BeginRequest(w, id, action);
    PendingBegins(w, id, action);
    ActKeeps(w, next, next.acts[|w.acts|]);
  }

  lemma AddKeeps(w: World, server: Server)
    requires Inv(w)
    ensures Inv(Add(w, server))
  {
    var next := Add(w, server);
    PendingUntouched(w, next, next.acts[|w.acts|]);
    ActKeeps(w, next, next.acts[|w.acts|]);
  }

  lemma StepKeeps(w: World, step: Step)
    requires Inv(w)
    ensures Inv(Next(w, step))
  {
    match step
    case DoBeginLoad => BeginLoadKeeps(w);
    case DoEndLoad(load, result) => EndLoadKeeps(w, load, result);
    case DoBeginRequest(id, action) => BeginRequestKeeps(w, id, action);
    case DoEndRequest(request, response) => EndRequestKeeps(w, request, response);
    case DoAdd(server) => AddKeeps(w, server);
  }

  lemma {:induction false} RunsKeep(w: World, steps: seq<Step>)
    requires Inv(w)
    ensures Inv(After(w, steps))
  {
    if steps != [] {
      RunsKeep(w, steps[..|steps| - 1]);
      StepKeeps(After(w, steps[..|steps| - 1]), steps[|steps| - 1]);
    }
  }

  // Theorems

  lemma {:induction false} MutationsSince(acts: seq<Act>, k: nat)
    requires k < |acts| && !IsMutation(acts[k])
    ensures Mutations(acts) >= Mutations(acts[..k])
    ensures Mutations(acts) == Mutations(acts[..k]) <==> NoMutationSince(acts, k)
    decreases |acts|
  {
    var n := |acts| - 1;
    if k < n {
      MutationsSince(acts[..n], k);
      assert acts[..n][..k] == acts[..k];
      assert NoMutationSince(acts, k) <==> NoMutationSince(acts[..n], k) && !IsMutation(acts[n]);
    }
  }

  /**
   In every reachable state the result of a load is installed exactly if no newer load began and no request began or was
   applied and no server was added since the load began.
   */
  lemma InstalledExactly(steps: seq<Step>, load: nat)
    requires
      var acts := After(START, steps).acts;
      load < |acts| && acts[load].LoadBegan?
    ensures
      var w := After(START, steps);
      IsInstalled(w.state, w.acts[load].ticket) <==> NoNewerLoad(w.acts, load) && NoMutationSince(w.acts, load)
  {
    RunsKeep(START, steps);
    MutationsSince(After(START, steps).acts, load);
  }

  /** The result of a request is applied exactly if no later request for the same server began. */
  lemma AppliedExactly(steps: seq<Step>, request: nat)
    requires
      var acts := After(START, steps).acts;
      request < |acts| && acts[request].RequestBegan?
    ensures
      var w := After(START, steps);
      var RequestBegan(id, pending) := w.acts[request];
      IsLatest(w.state, id, pending.generation) <==> NoNewerRequest(w.acts, request, id)
  {
    RunsKeep(START, steps);
  }

  /** A server is marked pending exactly while its latest request is unfinished, with that request's action. */
  lemma PendingExactly(steps: seq<Step>, id: int)
    ensures
      var w := After(START, steps);
      && (id in w.state.pending <==> exists i: nat :: IsAwaited(w.acts, i, id))
      && forall i: nat | IsAwaited(w.acts, i, id) :: w.state.pending[id] == w.acts[i].pending
  {
    RunsKeep(START, steps);
  }

  /** No entry of the list is the server's. */
  predicate IsAbsent(servers: seq<Server>, id: int) {
    forall server | server in servers :: server.id != id
  }

  /** Nothing after a removal brings the server back: it is not added, and loads begun later do not list it. */
  predicate StaysRemoved(acts: seq<Act>, removal: nat, id: int) {
    forall i | removal < i < |acts| ::
      && (acts[i].Added? ==> acts[i].server.id != id)
      && (acts[i].LoadEnded? && acts[i].load > removal && acts[i].result.Some? ==> IsAbsent(acts[i].result.value, id))
  }

  /** An act is the applied removal of a server. */
  predicate IsRemoval(acts: seq<Act>, removal: nat, id: int) {
    && removal < |acts| && acts[removal].RequestEnded? && acts[removal].applied && acts[removal].response == Removed
    && acts[removal].request < removal && acts[acts[removal].request].RequestBegan?
    && acts[acts[removal].request].id == id
  }

  lemma InstalledKeepsAbsent(w: World, load: nat, result: Option<seq<Server>>, removal: nat, id: int)
    requires Inv(w) && IsRemoval(w.acts, removal, id) && IsAbsent(w.state.servers, id)
    requires StaysRemoved(EndLoad(w, load, result).acts, removal, id)
    ensures IsAbsent(EndLoad(w, load, result).state.servers, id)
  {
    if load < |w.acts| && w.acts[load].LoadBegan? && result.Some? && IsInstalled(w.state, w.acts[load].ticket) {
      MutationsSince(w.acts, load);
      assert load > removal;
      assert EndLoad(w, load, result).acts[|w.acts|] == LoadEnded(load, result, true);
    }
  }

  lemma ResponseKeepsAbsent(servers: seq<Server>, other: int, response: Response, id: int)
    requires IsAbsent(servers, id)
    ensures IsAbsent(Respond(servers, other, response), id)
  {
    if response.Changed? {
      ReplacedKeepsAbsent(servers, response.updated, id);
    }
  }

  lemma StepKeepsAbsent(w: World, step: Step, removal: nat, id: int)
    requires Inv(w) && IsRemoval(w.acts, removal, id) && IsAbsent(w.state.servers, id)
    requires StaysRemoved(Next(w, step).acts, removal, id)
    ensures IsAbsent(Next(w, step).state.servers, id)
  {
    match step
    case DoEndLoad(load, result) => InstalledKeepsAbsent(w, load, result, removal, id);
    case DoAdd(server) => assert Next(w, step).acts[|w.acts|] == Added(server);
    case DoEndRequest(request, response) =>
      if request < |w.acts| && w.acts[request].RequestBegan? {
        ResponseKeepsAbsent(w.state.servers, w.acts[request].id, response, id);
      }
    case _ =>
  }

  lemma ReplacedKeepsAbsent(servers: seq<Server>, updated: Server, id: int)
    requires IsAbsent(servers, id)
    ensures IsAbsent(Replaced(servers, updated), id)
  {
    assert forall i | 0 <= i < |servers| :: servers[i] in servers;
  }

  /** Once a removal is applied the server stays absent. */
  lemma {:induction false} AbsentStaysAbsent(w: World, steps: seq<Step>, removal: nat, id: int)
    requires Inv(w) && IsRemoval(w.acts, removal, id) && IsAbsent(w.state.servers, id)
    requires StaysRemoved(After(w, steps).acts, removal, id)
    ensures IsAbsent(After(w, steps).state.servers, id)
    ensures IsRemoval(After(w, steps).acts, removal, id)
  {
    if steps != [] {
      var n := |steps| - 1;
      var before := After(w, steps[..n]);
      RunsKeep(w, steps[..n]);
      ActsGrow(before, steps[n]);
      assert forall i | 0 <= i < |before.acts| :: before.acts[i] == After(w, steps).acts[i];
      AbsentStaysAbsent(w, steps[..n], removal, id);
      StepKeepsAbsent(before, steps[n], removal, id);
    }
  }

  lemma ActsGrow(w: World, step: Step)
    ensures w.acts <= Next(w, step).acts
  {
  }

  /**
   A removed server stays away: a list whose load began before the removal was applied is never installed after it,
   however late it arrives.
   */
  lemma RemovedStaysAway(earlier: seq<Step>, request: nat, later: seq<Step>)
    requires
      var w := After(START, earlier);
      && request < |w.acts| && w.acts[request].RequestBegan? && NoNewerRequest(w.acts, request, w.acts[request].id)
      && StaysRemoved(After(EndRequest(w, request, Removed), later).acts, |w.acts|, w.acts[request].id)
    ensures
      var w := After(START, earlier);
      IsAbsent(After(EndRequest(w, request, Removed), later).state.servers, w.acts[request].id)
  {
    var w := After(START, earlier);
    AppliedExactly(earlier, request);
    RunsKeep(START, earlier);
    EndRequestKeeps(w, request, Removed);
    AbsentStaysAbsent(EndRequest(w, request, Removed), later, |w.acts|, w.acts[request].id);
  }
}
