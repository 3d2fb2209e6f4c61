/** The browser's list of registered servers: list loads race with changes to single servers. */
module ServerCollection {
  import opened Wrappers
  import opened ServerRegistry

  datatype Action = Rename | Toggle | Delete | Rotate

  datatype Pending = Pending(action: Action, generation: nat)

  datatype LoadState = Loading | Loaded | LoadError

  datatype State = State(
    servers: seq<Server>, load: LoadState, pending: map<int, Pending>, nextGeneration: nat,
    latestList: nat, latestServer: map<int, nat>, mutationRevision: nat)

  const INITIAL := State([], Loading, map[], 0, 0, map[], 0)

  /** What a load remembers of its start. */
  datatype LoadTicket = LoadTicket(generation: nat, revision: nat)

  function Replaced(servers: seq<Server>, next: Server): (replaced: seq<Server>)
    ensures |replaced| == |servers|
    ensures forall i | 0 <= i < |servers| :: replaced[i] == if servers[i].id == next.id then next else servers[i]
  {
    seq(|servers|, i requires 0 <= i < |servers| => if servers[i].id == next.id then next else servers[i])
  }

  function Without(servers: seq<Server>, id: int): (left: seq<Server>)
    ensures forall server :: server in left <==> server in servers && server.id != id
  {
    if servers == [] then []
    else
      var n := |servers| - 1;
      assert servers == servers[..n] + [servers[n]];
      Without(servers[..n], id) + if servers[n].id != id then [servers[n]] else []
  }

  function AfterBeginLoad(s: State): State {
    s.(nextGeneration := s.nextGeneration + 1, latestList := s.nextGeneration + 1, load := Loading)
  }

  predicate IsNewest(s: State, ticket: LoadTicket) {
    s.latestList == ticket.generation
  }

  predicate IsInstalled(s: State, ticket: LoadTicket) {
    IsNewest(s, ticket) && s.mutationRevision == ticket.revision
  }

  /** None is a failed load. */
  function AfterEndLoad(s: State, ticket: LoadTicket, result: Option<seq<Server>>): State {
    if !IsNewest(s, ticket) then s
    else if result.None? then s.(load := LoadError)
    else if IsInstalled(s, ticket) then s.(load := Loaded, servers := result.value)
    else s.(load := Loaded)
  }

  function AfterBeginRequest(s: State, id: int, action: Action): State {
    var generation := s.nextGeneration + 1;
    s.(nextGeneration := generation, mutationRevision := s.mutationRevision + 1,
       latestServer := s.latestServer[id := generation], pending := s.pending[id := Pending(action, generation)])
  }

  predicate IsLatest(s: State, id: int, generation: nat) {
    id in s.latestServer && s.latestServer[id] == generation
  }

  function Finished(s: State, id: int, generation: nat): State {
    if id in s.pending && s.pending[id].generation == generation then s.(pending := s.pending - {id}) else s
  }

  /** What the response to a request asks for: nothing, a replaced server, or a removed one. */
  datatype Response = Failed | Changed(updated: Server) | Removed

  function Respond(servers: seq<Server>, id: int, response: Response): seq<Server> {
    match response
    case Failed => servers
    case Changed(updated) => Replaced(servers, updated)
    case Removed => Without(servers, id)
  }

  function AfterEndRequest(s: State, id: int, generation: nat, response: Response): State {
    Finished(
      if IsLatest(s, id, generation) && response != Failed
      then s.(mutationRevision := s.mutationRevision + 1, servers := Respond(s.servers, id, response))
      else s,
      id, generation)
  }

  function AfterAdd(s: State, server: Server): State {
    s.(mutationRevision := s.mutationRevision + 1, servers := Without(s.servers, server.id) + [server])
  }

  /** How a request ends for its caller. */
  datatype Outcome = Applied | NotApplied | Thrown

  class Collection {
    var servers: seq<Server>
    var load: LoadState
    var pending: map<int, Pending>
    var nextGeneration: nat
    var latestList: nat
    var latestServer: map<int, nat>
    var mutationRevision: nat

    ghost function Value(): State
      reads this
    {
      State(servers, load, pending, nextGeneration, latestList, latestServer, mutationRevision)
    }

    constructor ()
      ensures Value() == INITIAL
    {
      servers, load, pending := [], Loading, map[];
      nextGeneration, latestList, latestServer, mutationRevision := 0, 0, map[], 0;
    }

    /** A load up to the point where it waits for the response. */
    method BeginLoad() returns (ticket: LoadTicket)
      modifies this
      ensures Value() == AfterBeginLoad(old(Value()))
      ensures ticket == LoadTicket(nextGeneration, mutationRevision)
    {
      nextGeneration := nextGeneration + 1;
      ticket := LoadTicket(nextGeneration, mutationRevision);
      latestList := ticket.generation;
      load := Loading;
    }

    method EndLoad(ticket: LoadTicket, result: Option<seq<Server>>)
      modifies this
      ensures Value() == AfterEndLoad(old(Value()), ticket, result)
    {
      if latestList != ticket.generation {
        return;
      }
      if result.None? {
        load := LoadError;
        return;
      }
      if mutationRevision == ticket.revision {
        servers := result.value;
      }
      load := Loaded;
    }

    method BeginServerRequest(id: int, action: Action) returns (generation: nat)
      modifies this
      ensures Value() == AfterBeginRequest(old(Value()), id, action) && generation == nextGeneration
    {
      nextGeneration := nextGeneration + 1;
      generation := nextGeneration;
      mutationRevision := mutationRevision + 1;
      latestServer := latestServer[id := generation];
      pending := pending[id := Pending(action, generation)];
    }

    method FinishServerRequest(id: int, generation: nat)
      modifies this`pending
      ensures Value() == Finished(old(Value()), id, generation)
    {
      if id !in pending || pending[id].generation != generation {
        return;
      }
      pending := pending - {id};
    }

    /** The rest of an update or removal, once its response is there. */
    method EndServerRequest(id: int, generation: nat, response: Response) returns (outcome: Outcome)
      modifies this
      ensures Value() == AfterEndRequest(old(Value()), id, generation, response)
      ensures outcome == if !IsLatest(old(Value()), id, generation) then NotApplied
                         else if response == Failed then Thrown else Applied
    {
      if id !in latestServer || latestServer[id] != generation {
        outcome := NotApplied;
      } else if response == Failed {
        outcome := Thrown;
      } else {
        mutationRevision := mutationRevision + 1;
        if response.Changed? {
          var replaced := [];
          for i := 0 to |servers|
            invariant replaced == Replaced(servers, response.updated)[..i]
          {
            replaced := replaced + [if servers[i].id == response.updated.id then response.updated else servers[i]];
          }
          servers := replaced;
        } else {
          servers := Filter(id);
        }
        outcome := Applied;
      }
      FinishServerRequest(id, generation);
    }

    method Filter(id: int) returns (left: seq<Server>)
      ensures left == Without(servers, id)
    {
      left := [];
      for i := 0 to |servers|
        invariant left == Without(servers[..i], id)
      {
        assert servers[..i + 1][..i] == servers[..i];
        if servers[i].id != id {
          left := left + [servers[i]];
        }
      }
      assert servers[..|servers|] == servers;
    }

    method AddServer(server: Server)
      modifies this
      ensures Value() == AfterAdd(old(Value()), server)
    {
      mutationRevision := mutationRevision + 1;
      var left := Filter(server.id);
      servers := left + [server];
    }
  }
}
