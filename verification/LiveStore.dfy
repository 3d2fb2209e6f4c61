/** The latest snapshot of every server that has reported. */
module LiveStore {
  import opened Protocol
  import opened LiveModel
  import opened Sets
  import opened ServerRegistry

  type Snapshots = map<int, Snapshot>

  function SnapshotOf(server: Server, report: AgentReport, receivedAt: int, sourceIp: string): Snapshot {
    Snapshot(server.id, server.name, true, receivedAt, sourceIp, report)
  }

  predicate Lapsed(snapshot: Snapshot, cutoff: int) {
    snapshot.online && snapshot.lastReceivedAt < cutoff
  }

  function Swept(snapshot: Snapshot, cutoff: int): Snapshot {
    if Lapsed(snapshot, cutoff) then snapshot.(online := false) else snapshot
  }

  function AfterSweep(s: Snapshots, cutoff: int): Snapshots {
    map id | id in s :: Swept(s[id], cutoff)
  }

  function AfterRename(s: Snapshots, id: int, name: string): Snapshots {
    if id in s then s[id := s[id].(serverName := name)] else s
  }

  /** What a sweep reports: each server it took offline, once, in any order. */
  ghost predicate IsChanged(s: Snapshots, cutoff: int, changed: seq<Snapshot>) {
    && (forall i | 0 <= i < |changed| :: changed[i].serverId in s && Lapsed(s[changed[i].serverId], cutoff)
                                         && changed[i] == s[changed[i].serverId].(online := false))
    && (forall i, j | 0 <= i < j < |changed| :: changed[i].serverId != changed[j].serverId)
    && (forall id | id in s && Lapsed(s[id], cutoff) :: exists i :: 0 <= i < |changed| && changed[i].serverId == id)
  }

  /** The snapshots a sweep takes offline are the online ones not heard from since the cutoff, and no others. */
  lemma ChangedExactly(s: Snapshots, cutoff: int, changed: seq<Snapshot>, snapshot: Snapshot)
    requires IsChanged(s, cutoff, changed)
    ensures snapshot in changed <==>
      && snapshot.serverId in s
      && s[snapshot.serverId].online && s[snapshot.serverId].lastReceivedAt < cutoff
      && snapshot == s[snapshot.serverId].(online := false)
  {
    var id := snapshot.serverId;
    if id in s && Lapsed(s[id], cutoff) {
      var i :| 0 <= i < |changed| && changed[i].serverId == id;
      assert changed[i] in changed;
    }
  }

  /** After a sweep a server is online if it was and has been heard from since the cutoff. */
  lemma SweptExactly(s: Snapshots, cutoff: int, id: int)
    ensures id in AfterSweep(s, cutoff) <==> id in s
    ensures id in s ==>
      var swept := AfterSweep(s, cutoff)[id];
      && (swept.online <==> s[id].online && s[id].lastReceivedAt >= cutoff)
      && swept == s[id].(online := swept.online)
  {
  }

  class Store {
    var snapshots: Snapshots

    constructor ()
      ensures snapshots == map[]
    {
      snapshots := map[];
    }

    method UpsertFrom(server: Server, report: AgentReport, receivedAt: int, sourceIp: string)
      returns (snapshot: Snapshot)
      modifies this
      ensures snapshot == Snapshot(server.id, server.name, true, receivedAt, sourceIp, report)
      ensures snapshots == old(snapshots)[server.id := snapshot]
    {
      snapshot := Snapshot(server.id, server.name, true, receivedAt, sourceIp, report);
      snapshots := snapshots[server.id := snapshot];
    }

    /** The map is walked in any order. */
    method MarkOffline(cutoff: int) returns (changed: seq<Snapshot>)
      requires forall id | id in snapshots :: snapshots[id].serverId == id
      modifies this
      ensures snapshots == AfterSweep(old(snapshots), cutoff)
      ensures IsChanged(old(snapshots), cutoff, changed)
      ensures forall id | id in old(snapshots) ::
        && id in snapshots
        && (snapshots[id].online <==> old(snapshots)[id].online && old(snapshots)[id].lastReceivedAt >= cutoff)
    {
      changed := [];
      var waiting := snapshots.Keys;
      while waiting != {}
        invariant waiting <= old(snapshots).Keys
        invariant snapshots == map id | id in old(snapshots) ::
                                 if id in waiting then old(snapshots)[id] else Swept(old(snapshots)[id], cutoff)
        invariant forall i | 0 <= i < |changed| ::
                    var id := changed[i].serverId;
                    && id in old(snapshots) && id !in waiting && Lapsed(old(snapshots)[id], cutoff)
                    && changed[i] == old(snapshots)[id].(online := false)
        invariant forall i, j | 0 <= i < j < |changed| :: changed[i].serverId != changed[j].serverId
        invariant forall id | id in old(snapshots) && id !in waiting && Lapsed(old(snapshots)[id], cutoff) ::
                    exists i :: 0 <= i < |changed| && changed[i].serverId == id
        decreases waiting
      {
        var id := Any(waiting);
        var snapshot := snapshots[id];
        waiting := waiting - {id};
        if snapshot.online && snapshot.lastReceivedAt < cutoff {
          ghost var before := changed;
          snapshot := snapshot.(online := false);
          snapshots := snapshots[id := snapshot];
          changed := changed + [snapshot];
          assert changed[|before|].serverId == id;
          assert forall i | 0 <= i < |before| :: changed[i] == before[i];
        }
      }
    }

    method Rename(serverId: int, name: string)
      modifies this
      ensures snapshots == AfterRename(old(snapshots), serverId, name)
      ensures snapshots.Keys == old(snapshots).Keys
      ensures forall id | id in snapshots ::
        snapshots[id] == if id == serverId then old(snapshots)[id].(serverName := name) else old(snapshots)[id]
    {
      if serverId !in snapshots {
        return;
      }
      var snapshot := snapshots[serverId].(serverName := name);
      snapshots := snapshots[serverId := snapshot];
    }

    method Delete(serverId: int)
      modifies this
      ensures snapshots == old(snapshots) - {serverId}
    {
      snapshots := snapshots - {serverId};
    }
  }
}
