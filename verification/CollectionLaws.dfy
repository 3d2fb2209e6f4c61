/** What the list shows, and how its loading stands, read off the acts alone. */
module CollectionLaws {
  import opened Wrappers
  import opened ServerRegistry
  import opened ServerCollection
  import opened CollectionProtocol

  // Replacing and removing, entry by entry

  /** Every entry of the changed server is replaced, the others stay; a removal or a failure puts nothing in. */
  lemma RespondedExactly(servers: seq<Server>, id: int, updated: Server, i: nat)
    requires i < |servers|
    ensures
      var next := Respond(servers, id, Changed(updated));
      && |next| == |servers|
      && (servers[i].id == updated.id ==> next[i] == updated)
      && (servers[i].id != updated.id ==> next[i] == servers[i])
    ensures servers[i] in Respond(servers, id, Removed) <==> servers[i].id != id
    ensures Respond(servers, id, Failed) == servers
  {
  }

  /** Removal goes through the list entry by entry, in order. */
  lemma WithoutGrows(servers: seq<Server>, server: Server, id: int)
    ensures Without(servers + [server], id) == Without(servers, id) + if server.id == id then [] else [server]
  {
    assert (servers + [server])[..|servers|] == servers;
  }

  // The list

  /** A response counts if no later request for the server has begun. */
  predicate Counts(acts: seq<Act>, request: nat) {
    && request < |acts| && acts[request].RequestBegan?
    && forall i | request < i < |acts| :: acts[i].RequestBegan? ==> acts[i].id != acts[request].id
  }

  /** A change of the list: a request began, a response that changes something was applied, or a server was added. */
  predicate Changes(acts: seq<Act>, i: nat)
    requires i < |acts|
  {
    match acts[i]
    case RequestBegan(_, _) => true
    case RequestEnded(request, response, _) => response != Failed && Counts(acts[..i], request)
    case Added(_) => true
    case _ => false
  }

  /** No load has begun since this one. */
  predicate IsLastLoad(acts: seq<Act>, load: nat) {
    && load < |acts| && acts[load].LoadBegan?
    && forall i | load < i < |acts| :: !acts[i].LoadBegan?
  }

  predicate IsUnchangedSince(acts: seq<Act>, load: nat) {
    forall i | load < i < |acts| :: !Changes(acts, i)
  }

  /** The list: what the last loads, responses and additions that counted have made of it. */
  function ShownBy(acts: seq<Act>): seq<Server> {
    if acts == [] then []
    else
      var n := |acts| - 1;
      var before := ShownBy(acts[..n]);
      match acts[n]
      case LoadEnded(load, result, _) =>
        if result.Some? && IsLastLoad(acts[..n], load) && IsUnchangedSince(acts[..n], load) then result.value
        else before
      case RequestEnded(request, response, _) =>
        if Counts(acts[..n], request) then Respond(before, acts[request].id, response) else before
      case Added(server) => Without(before, server.id) + [server]
      case _ => before
  }

  /** How the last load stands. */
  function LoadBy(acts: seq<Act>): LoadState {
    if acts == [] then Loading
    else
      var n := |acts| - 1;
      match acts[n]
      case LoadBegan(_) => Loading
      case LoadEnded(load, result, _) =>
        if !IsLastLoad(acts[..n], load) then LoadBy(acts[..n]) else if result.None? then LoadError else Loaded
      case _ => LoadBy(acts[..n])
  }

  /** The acts say truly which responses were applied. */
  ghost predicate FlagsFit(acts: seq<Act>) {
    forall i | 0 <= i < |acts| :: IsMutation(acts[i]) <==> Changes(acts, i)
  }

  ghost predicate Shows(w: World) {
    w.state.servers == ShownBy(w.acts) && w.state.load == LoadBy(w.acts) && FlagsFit(w.acts)
  }

  lemma FlagsGrow(acts: seq<Act>, act: Act)
    requires FlagsFit(acts) && (IsMutation(act) <==> Changes(acts + [act], |acts|))
    ensures FlagsFit(acts + [act])
  {
    var more := acts + [act];
    forall i | 0 <= i < |more|
      ensures IsMutation(more[i]) <==> Changes(more, i)
    {
      if i < |acts| {
        assert more[..i] == acts[..i] && more[i] == acts[i];
      }
    }
  }

  lemma InstalledIff(w: World, load: nat)
    requires Inv(w) && FlagsFit(w.acts) && load < |w.acts| && w.acts[load].LoadBegan?
    ensures IsNewest(w.state, w.acts[load].ticket) <==> IsLastLoad(w.acts, load)
    ensures IsInstalled(w.state, w.acts[load].ticket) <==> IsLastLoad(w.acts, load) && IsUnchangedSince(w.acts, load)
  {
    MutationsSince(w.acts, load);
    assert NoNewerLoad(w.acts, load) <==> IsLastLoad(w.acts, load);
    assert NoMutationSince(w.acts, load) <==> IsUnchangedSince(w.acts, load) by {
      assert forall i | load < i < |w.acts| :: IsMutation(w.acts[i]) <==> Changes(w.acts, i);
    }
  }

  lemma CountsIff(w: World, request: nat)
    requires Inv(w) && request < |w.acts| && w.acts[request].RequestBegan?
    ensures IsLatest(w.state, w.acts[request].id, w.acts[request].pending.generation) <==> Counts(w.acts, request)
  {
    assert NoNewerRequest(w.acts, request, w.acts[request].id) <==> Counts(w.acts, request);
  }

  lemma LoadEndShows(w: World, load: nat, result: Option<seq<Server>>)
    requires Inv(w) && Shows(w)
    ensures Shows(EndLoad(w, load, result))
  {
    if load < |w.acts| && w.acts[load].LoadBegan? {
      var next := EndLoad(w, load, result);
      var act := next.acts[|w.acts|];
      assert next.acts[..|w.acts|] == w.acts;
      InstalledIff(w, load);
      FlagsGrow(w.acts, act);
    }
  }

  lemma EndRequestParts(w: World, request: nat, response: Response)
    requires request < |w.acts| && w.acts[request].RequestBegan?
    ensures
      var next := EndRequest(w, request, response);
      var RequestBegan(id, pending) := w.acts[request];
      var applied := IsLatest(w.state, id, pending.generation) && response != Failed;
      && next.acts == w.acts + [RequestEnded(request, response, applied)]
      && next.state.load == w.state.load
      && next.state.servers == if applied then Respond(w.state.servers, id, response) else w.state.servers
  {
  }

  lemma ShownAfterRequest(acts: seq<Act>, request: nat, response: Response, applied: bool)
    requires request < |acts| && acts[request].RequestBegan?
    ensures
      var act := RequestEnded(request, response, applied);
      && LoadBy(acts + [act]) == LoadBy(acts)
      && ShownBy(acts + [act]) ==
           (if Counts(acts, request) then Respond(ShownBy(acts), acts[request].id, response) else ShownBy(acts))
      && (Changes(acts + [act], |acts|) <==> response != Failed && Counts(acts, request))
  {
    assert (acts + [RequestEnded(request, response, applied)])[..|acts|] == acts;
  }

  lemma RequestEndShows(w: World, request: nat, response: Response)
    requires Inv(w) && Shows(w)
    ensures Shows(EndRequest(w, request, response))
  {
    if request < |w.acts| && w.acts[request].RequestBegan? {
      var applied := Counts(w.acts, request) && response != Failed;
      CountsIff(w, request);
      EndRequestParts(w, request, response);
      ShownAfterRequest(w.acts, request, response, applied);
      FlagsGrow(w.acts, RequestEnded(request, response, applied));
    }
  }

  lemma OtherActShows(w: World, next: World, act: Act)
    requires Shows(w) && next.acts == w.acts + [act]
    requires act.LoadBegan? || act.RequestBegan? || act.Added?
    requires next.state.load == if act.LoadBegan? then Loading else w.state.load
    requires next.state.servers ==
      if act.Added? then Without(w.state.servers, act.server.id) + [act.server] else w.state.servers
    ensures Shows(next)
  {
    ShownAfterAct(w.acts, act);
    FlagsGrow(w.acts, act);
  }

  lemma ShownAfterAct(acts: seq<Act>, act: Act)
    requires act.LoadBegan? || act.RequestBegan? || act.Added?
    ensures LoadBy(acts + [act]) == if act.LoadBegan? then Loading else LoadBy(acts)
    ensures ShownBy(acts + [act])
            == if act.Added? then Without(ShownBy(acts), act.server.id) + [act.server] else ShownBy(acts)
    ensures Changes(acts + [act], |acts|) <==> !act.LoadBegan?
  {
    assert (acts + [act])[..|acts|] == acts;
  }

  lemma OtherStepShows(w: World, step: Step)
    requires Shows(w) && !step.DoEndLoad? && !step.DoEndRequest?
    ensures Shows(Next(w, step))
  {
    var next := Next(w, step);
    OtherActShows(w, next, next.acts[|w.acts|]);
  }

  /** In every run the list and its load are what the acts make of them, and the acts tell truly what was applied. */
  lemma {:induction false} ListFollowsActs(steps: seq<Step>)
    ensures After(START, steps).state.servers == ShownBy(After(START, steps).acts)
    ensures After(START, steps).state.load == LoadBy(After(START, steps).acts)
    ensures FlagsFit(After(START, steps).acts)
  {
    if steps != [] {
      var before, step := After(START, steps[..|steps| - 1]), steps[|steps| - 1];
      ListFollowsActs(steps[..|steps| - 1]);
      RunsKeep(START, steps[..|steps| - 1]);
      match step
      case DoEndLoad(load, result) => LoadEndShows(before, load, result);
      case DoEndRequest(request, response) => RequestEndShows(before, request, response);
      case _ => OtherStepShows(before, step);
    }
  }

  /** An applied change is what the list then shows, wherever it showed the server. */
  lemma ChangeIsShown(steps: seq<Step>, request: nat, updated: Server, i: nat)
    requires
      var w := After(START, steps);
      Counts(w.acts, request) && i < |w.state.servers| && w.state.servers[i].id == updated.id
    ensures
      var shown := After(START, steps + [DoEndRequest(request, Changed(updated))]).state.servers;
      |shown| == |After(START, steps).state.servers| && shown[i] == updated
  {
    var all := steps + [DoEndRequest(request, Changed(updated))];
    assert all[..|steps|] == steps;
    RunsKeep(START, steps);
    CountsIff(After(START, steps), request);
    EndRequestParts(After(START, steps), request, Changed(updated));
  }
}
