/** One lock that orders reports, sweeps, renamings and deletions across registry, live store and history. */
module Coordination {
  import opened Wrappers
  import opened Protocol
  import opened LiveModel
  import opened ServerRegistry
  import opened LiveStore
  import Aggregation

  /** The state the lock protects, and every event handed to the hub and the observers so far. */
  datatype Site = Site(ledger: Ledger, snapshots: Snapshots, memory: Aggregation.Memory, published: seq<Event>)

  function OfflineEvents(changed: seq<Snapshot>): (events: seq<Event>)
    ensures |events| == |changed|
    ensures forall i | 0 <= i < |changed| :: events[i] == Event(Offline, changed[i])
  {
    seq(|changed|, i requires 0 <= i < |changed| => Event(Offline, changed[i]))
  }

  /** A report of an authenticated server is taken in, once its version is recorded without an error. */
  function Received(s: Site, server: Server, report: AgentReport, receivedAt: int, sourceIp: string, m: Mutation): Site
    requires s.memory.Valid()
  {
    var recorded := s.(ledger := AfterVersion(s.ledger, server.id, report.agentVersion, m));
    if m != Done || server.id !in s.ledger.rows then recorded
    else
      var snapshot := SnapshotOf(server, report, receivedAt, sourceIp);
      recorded.(snapshots := s.snapshots[server.id := snapshot],
                memory := Aggregation.Accepted(s.memory, server.id, report, receivedAt),
                published := s.published + [Event(Updated, snapshot)])
  }

  function Renamed(s: Site, id: int, name: Option<string>, enabled: Option<bool>, now: int, m: Mutation): Site {
    var ledger := AfterUpdate(s.ledger, id, name, enabled, now, m);
    if id in s.ledger.rows && m == Done
    then s.(ledger := ledger, snapshots := AfterRename(s.snapshots, id, ledger.rows[id].server.name))
    else s.(ledger := ledger)
  }

  function Deleted(s: Site, id: int, m: Mutation): Site {
    var ledger := AfterDelete(s.ledger, id, m);
    if id in s.ledger.rows && m == Done
    then s.(ledger := ledger, snapshots := s.snapshots - {id}, memory := Aggregation.WithoutServer(s.memory, id))
    else s.(ledger := ledger)
  }

  /** The change an update asks for, once it is found to be one. */
  function Request(name: Option<string>, enabled: Option<bool>): Result<Option<string>, Error> {
    if name.None? && enabled.None? then Failure(InvalidInput)
    else if name.None? then Success(None)
    else if TrimSpace(name.value) == "" then Failure(InvalidInput)
    else Success(Some(TrimSpace(name.value)))
  }

  class Coordinator {
    const registry: Registry
    const store: Store
    const history: Aggregation.Aggregator
    var published: seq<Event>

    ghost function State(): Site
      reads this, registry, store, history
    {
      Site(registry.Contents(), store.snapshots, history.State(), published)
    }

    ghost predicate Valid()
      reads this, registry, store, history
    {
      && registry.Contents().Valid() && history.State().Valid()
      && forall id | id in store.snapshots :: store.snapshots[id].serverId == id
    }

    constructor (registry: Registry, store: Store, history: Aggregation.Aggregator)
      requires registry.Contents().Valid() && history.State().Valid() && store.snapshots == map[]
      ensures this.registry == registry && this.store == store && this.history == history
      ensures published == [] && Valid()
    {
      this.registry, this.store, this.history := registry, store, history;
      published := [];
    }

    /** Hub and observers get every event in the same order. */
    method Publish(event: Event)
      modifies this
      ensures published == old(published) + [event]
    {
      published := published + [event];
    }

    /** A report that is refused changes nothing but, if the recording took effect and yet failed, the version. */
    method Accept(token: string, report: AgentReport, receivedAt: int, sourceIp: string, lookupFails: bool, m: Mutation)
      returns (result: Result<Snapshot, Error>)
      requires Valid()
      modifies this, registry, store, history
      ensures Valid()
      ensures
        var server := Authenticated(old(State()).ledger, token);
        State() == if lookupFails || server.Failure? then old(State())
                   else Received(old(State()), server.value, report, receivedAt, sourceIp, m)
      ensures result.Success? <==>
        !lookupFails && m == Done && Authenticated(old(State()).ledger, token).Success?
      ensures !lookupFails && Authenticated(old(State()).ledger, token).Failure?
        ==> result == Failure(Authenticated(old(State()).ledger, token).error)
      ensures result.Success? ==>
        var id := result.value.serverId;
        && id in old(registry.rows) && old(registry.rows)[id].token == token && old(registry.rows)[id].server.enabled
        && result.value == Snapshot(id, old(registry.rows)[id].server.name, true, receivedAt, sourceIp, report)
        && store.snapshots == old(store.snapshots)[id := result.value]
        && published == old(published) + [Event(Updated, result.value)]
        && history.State() == Aggregation.Accepted(old(history.State()), id, report, receivedAt)
      ensures result.Failure? ==> store.snapshots == old(store.snapshots) && history.State() == old(history.State())
                                  && published == old(published)
      ensures result.Failure? && m != DoneButFailed ==> State() == old(State())
    {
      var authenticated := registry.AuthenticateToken(token, lookupFails);
      if authenticated.Failure? {
        return Failure(authenticated.error);
      }
      var server := authenticated.value;
      assert server.id in registry.rows;
      var recorded := registry.UpdateAgentVersion(server.id, report.agentVersion, m);
      if recorded.Failure? {
        return Failure(recorded.error);
      }
      var snapshot := store.UpsertFrom(server, report, receivedAt, sourceIp);
      Publish(Event(Updated, snapshot));
      history.Accept(server.id, report, receivedAt);
      return Success(snapshot);
    }

    method Sweep(cutoff: int) returns (changed: seq<Snapshot>)
      requires Valid()
      modifies this, store
      ensures Valid()
      ensures State() == old(State()).(snapshots := AfterSweep(old(store.snapshots), cutoff),
                                       published := old(published) + OfflineEvents(changed))
      ensures IsChanged(old(store.snapshots), cutoff, changed)
      ensures forall id | id in old(store.snapshots) ::
        && id in store.snapshots
        && (store.snapshots[id].online <==>
              old(store.snapshots)[id].online && old(store.snapshots)[id].lastReceivedAt >= cutoff)
      ensures published == old(published) + OfflineEvents(changed)
      ensures forall snapshot :: snapshot in changed <==>
        && snapshot.serverId in old(store.snapshots)
        && old(store.snapshots)[snapshot.serverId].online
        && old(store.snapshots)[snapshot.serverId].lastReceivedAt < cutoff
        && snapshot == old(store.snapshots)[snapshot.serverId].(online := false)
    {
      changed := store.MarkOffline(cutoff);
      forall snapshot
        ensures snapshot in changed <==>
          && snapshot.serverId in old(store.snapshots)
          && old(store.snapshots)[snapshot.serverId].online
          && old(store.snapshots)[snapshot.serverId].lastReceivedAt < cutoff
          && snapshot == old(store.snapshots)[snapshot.serverId].(online := false)
      {
        ChangedExactly(old(store.snapshots), cutoff, changed, snapshot);
      }
      for i := 0 to |changed|
        invariant published == old(published) + OfflineEvents(changed)[..i]
        invariant store.snapshots == AfterSweep(old(store.snapshots), cutoff)
      {
        Publish(Event(Offline, changed[i]));
        assert OfflineEvents(changed)[..i + 1] == OfflineEvents(changed)[..i] + [Event(Offline, changed[i])];
      }
      assert OfflineEvents(changed)[..|changed|] == OfflineEvents(changed);
    }

    /** An update of a registered server, with the coordinator attached to the service. */
    method ReconcileUpdate(id: int, name: Option<string>, enabled: Option<bool>, now: int, m: Mutation)
      returns (result: Result<Server, Error>)
      requires Valid()
      modifies registry, store
      ensures Valid()
      ensures State() == if Request(name, enabled).Failure? then old(State())
                         else Renamed(old(State()), id, Request(name, enabled).value, enabled, now, m)
      ensures result.Success? <==> Request(name, enabled).Success? && id in old(registry.rows) && m == Done
      ensures result == Failure(InvalidInput) <==>
        (name.None? && enabled.None?) || (name.Some? && TrimSpace(name.value) == "")
      ensures result.Failure? ==> store.snapshots == old(store.snapshots)
      ensures result.Success? ==>
        && id in registry.rows && result.value == registry.rows[id].server
        && (name.Some? ==> result.value.name == TrimSpace(name.value))
        && (enabled.Some? ==> result.value.enabled == enabled.value)
        && store.snapshots.Keys == old(store.snapshots).Keys
        && forall other | other in store.snapshots ::
             store.snapshots[other] == if other == id then old(store.snapshots)[id].(serverName := result.value.name)
                                       else old(store.snapshots)[other]
    {
      if name.None? && enabled.None? {
        return Failure(InvalidInput);
      }
      var trimmed := name;
      if name.Some? {
        trimmed := Some(TrimSpace(name.value));
        if trimmed.value == "" {
          return Failure(InvalidInput);
        }
      }
      result := registry.ApplyUpdate(id, trimmed, enabled, now, m);
      if result.Failure? {
        return;
      }
      store.Rename(result.value.id, result.value.name);
    }

    /** A deletion of a registered server, with the coordinator attached to the service. */
    method ReconcileDelete(id: int, m: Mutation) returns (result: Result<(), Error>)
      requires Valid()
      modifies registry, store, history
      ensures Valid()
      ensures State() == Deleted(old(State()), id, m)
      ensures result.Success? ==>
        && registry.rows == old(registry.rows) - {id} && store.snapshots == old(store.snapshots) - {id}
        && forall key :: key in history.buckets <==> key in old(history.buckets) && key.serverId != id
      ensures result.Failure? ==>
        store.snapshots == old(store.snapshots) && history.State() == old(history.State())
      ensures result.Success? <==> id in old(registry.rows) && m == Done
    {
      result := registry.ApplyDelete(id, m);
      if result.Failure? {
        return;
      }
      store.Delete(id);
      history.RemoveServer(id);
    }
  }
}
