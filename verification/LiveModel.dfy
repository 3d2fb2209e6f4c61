/** What the server knows of each monitored machine right now, and the events that tell of changes. */
module LiveModel {
  import opened Protocol

  datatype Snapshot = Snapshot(
    serverId: int, serverName: string, online: bool, lastReceivedAt: int, sourceIp: string, report: AgentReport)

  datatype EventKind = Updated | Offline

  datatype Event = Event(kind: EventKind, snapshot: Snapshot)
}
