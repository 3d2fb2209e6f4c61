/** What happens to one server in a run: when it is told to be online, and when, and why, offline. */
module LiveLaws {
  import opened Wrappers
  import opened Protocol
  import opened LiveModel
  import opened ServerRegistry
  import opened LiveStore
  import opened Coordination
  import opened LiveProtocol
  import Aggregation

  /** The report of the server is taken in. */
  predicate TakesIn(w: World, step: Step, id: int) {
    step.DoReceive? && w.entered.Some? && w.entered.value.id == id && step.mutation == Done
  }

  /** The sweep takes the server offline. */
  ghost predicate TakesDown(w: World, step: Step, id: int) {
    && step.DoSweep? && w.entered.None? && IsChanged(w.site.snapshots, step.cutoff, step.changed)
    && id in w.site.snapshots && w.site.snapshots[id].online && w.site.snapshots[id].lastReceivedAt < step.cutoff
  }

  /** What a step adds to the stream of one server. */
  ghost function Told(w: World, step: Step, id: int): seq<Event> {
    if TakesIn(w, step, id) then
      var name := w.entered.value.name;
      [Event(Updated, Snapshot(id, name, true, step.receivedAt, step.sourceIp, step.report))]
    else if TakesDown(w, step, id) then [Event(Offline, w.site.snapshots[id].(online := false))]
    else []
  }

  lemma NothingTold(w: World, step: Step, id: int)
    requires w.site.memory.Valid() && Next(w, step).site.published == w.site.published && Told(w, step, id) == []
    ensures EventsOf(Next(w, step).site.published, id) == EventsOf(w.site.published, id) + Told(w, step, id)
  {
    assert EventsOf(w.site.published, id) + [] == EventsOf(w.site.published, id);
  }

  lemma ReportTold(w: World, step: Step, id: int)
    requires Fits(w) && step.DoReceive?
    ensures EventsOf(Next(w, step).site.published, id) == EventsOf(w.site.published, id) + Told(w, step, id)
  {
    if w.entered.Some? && step.mutation == Done {
      var event := Event(Updated, SnapshotOf(w.entered.value, step.report, step.receivedAt, step.sourceIp));
      assert (w.site.published + [event])[..|w.site.published|] == w.site.published;
      assert EventsOf(w.site.published, id) + [] == EventsOf(w.site.published, id);
    } else {
      NothingTold(w, step, id);
    }
  }

  lemma SweepTold(w: World, step: Step, id: int)
    requires Fits(w) && step.DoSweep?
    ensures EventsOf(Next(w, step).site.published, id) == EventsOf(w.site.published, id) + Told(w, step, id)
  {
    var s := w.site;
    if w.entered.None? && IsChanged(s.snapshots, step.cutoff, step.changed) {
      assert StreamFits(EventsOf(s.published, id), s.snapshots, id);
      SweepKeepsStream(s.published, s.snapshots, step.cutoff, step.changed, id);
    } else {
      NothingTold(w, step, id);
    }
  }

  /**
   A server's stream grows by its reports, and by one offline event at a sweep that finds it online but not heard from
   since its cutoff; nothing else is ever told of it.
   */
  lemma StreamGrows(w: World, step: Step, id: int)
    requires Fits(w)
    ensures EventsOf(Next(w, step).site.published, id) == EventsOf(w.site.published, id) + Told(w, step, id)
  {
    if step.DoReceive? {
      ReportTold(w, step, id);
    } else if step.DoSweep? {
      SweepTold(w, step, id);
    } else {
      NothingTold(w, step, id);
    }
  }

  /** What is live of a server is what was told of it last, but for its name. */
  lemma SnapshotIsTold(w: World, id: int)
    requires Fits(w) && id in w.site.snapshots
    ensures
      var stream, snapshot := EventsOf(w.site.published, id), w.site.snapshots[id];
      && stream != []
      && var last := stream[|stream| - 1];
         && last.snapshot.(serverName := snapshot.serverName) == snapshot
         && (last.kind == Updated <==> snapshot.online)
  {
    assert StreamFits(EventsOf(w.site.published, id), w.site.snapshots, id);
  }

  /** A sweep tells nothing of a server last heard from at or after its cutoff. */
  lemma SweepSparesHeard(w: World, cutoff: int, changed: seq<Snapshot>, id: int)
    requires Fits(w)
    requires
      var stream := EventsOf(w.site.published, id);
      stream != [] && stream[|stream| - 1].snapshot.lastReceivedAt >= cutoff
    ensures EventsOf(Next(w, DoSweep(cutoff, changed)).site.published, id) == EventsOf(w.site.published, id)
    ensures id in w.site.snapshots ==>
      && id in Next(w, DoSweep(cutoff, changed)).site.snapshots
      && Next(w, DoSweep(cutoff, changed)).site.snapshots[id] == w.site.snapshots[id]
  {
    var step := DoSweep(cutoff, changed);
    StreamGrows(w, step, id);
    if id in w.site.snapshots {
      SnapshotIsTold(w, id);
      SweepLeaves(w, cutoff, changed, id);
    }
    assert Told(w, step, id) == [];
    assert EventsOf(w.site.published, id) + [] == EventsOf(w.site.published, id);
  }

  lemma SweepLeaves(w: World, cutoff: int, changed: seq<Snapshot>, id: int)
    requires w.site.memory.Valid() && id in w.site.snapshots && w.site.snapshots[id].lastReceivedAt >= cutoff
    ensures
      var next := Next(w, DoSweep(cutoff, changed)).site.snapshots;
      id in next && next[id] == w.site.snapshots[id]
  {
    SweptExactly(w.site.snapshots, cutoff, id);
  }

  /** A completed sweep leaves a server online exactly if it was and has been heard from since the cutoff. */
  lemma SweepDecidesExactly(w: World, cutoff: int, changed: seq<Snapshot>, id: int)
    requires Fits(w) && w.entered.None? && IsChanged(w.site.snapshots, cutoff, changed) && id in w.site.snapshots
    ensures
      var stream, next := EventsOf(w.site.published, id), Next(w, DoSweep(cutoff, changed)).site.snapshots;
      && stream != [] && id in next
      && var last := stream[|stream| - 1];
         next[id].online <==> last.kind == Updated && last.snapshot.lastReceivedAt >= cutoff
  {
    SnapshotIsTold(w, id);
    SweptExactly(w.site.snapshots, cutoff, id);
  }

  /** The offline event repeats the report before it, which was received before some sweep's cutoff. */
  ghost predicate WasDue(stream: seq<Event>, i: nat, cutoff: int) {
    && 0 < i < |stream| && stream[i - 1].kind == Updated && stream[i - 1].snapshot.lastReceivedAt < cutoff
    && stream[i].snapshot.(online := true, serverName := "") == stream[i - 1].snapshot.(serverName := "")
  }

  lemma IsDueNow(w: World, step: Step, id: int)
    requires Fits(w) && TakesDown(w, step, id)
    ensures
      var before := EventsOf(w.site.published, id);
      WasDue(EventsOf(Next(w, step).site.published, id), |before|, step.cutoff)
  {
    StreamGrows(w, step, id);
    SnapshotIsTold(w, id);
  }

  lemma WasDueStays(stream: seq<Event>, more: seq<Event>, i: nat, cutoff: int)
    requires WasDue(stream, i, cutoff)
    ensures WasDue(stream + more, i, cutoff)
  {
  }

  /** In every run each offline event comes from a sweep whose cutoff its server's latest report did not reach. */
  lemma {:induction false} OfflineWasDue(steps: seq<Step>, id: int, i: nat) returns (j: nat)
    requires NoneStrays(START, steps)
    requires
      var stream := EventsOf(After(START, steps).site.published, id);
      i < |stream| && stream[i].kind == Offline
    ensures j < |steps| && steps[j].DoSweep?
    ensures WasDue(EventsOf(After(START, steps).site.published, id), i, steps[j].cutoff)
  {
    var n := |steps| - 1;
    var w := After(START, steps[..n]);
    var before := EventsOf(w.site.published, id);
    PrefixStaysTogether(START, steps);
    RunsFit(START, steps[..n]);
    StreamGrows(w, steps[n], id);
    if i < |before| {
      j := OfflineWasDue(steps[..n], id, i);
      WasDueStays(before, Told(w, steps[n], id), i, steps[j].cutoff);
    } else {
      IsDueNow(w, steps[n], id);
      j := n;
    }
  }
}
