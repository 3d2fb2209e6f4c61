/** The browser's list of live snapshots: live events race with fetches of the whole list. */
module ServerSnapshots {
  import opened Wrappers
  import opened LiveModel
  import opened Sorting

  /** The locale's comparison of names: any total preorder. */
  type Collation = (string, string) -> bool

  ghost predicate IsCollation(nameLe: Collation) {
    TotalPreorder(nameLe)
  }

  predicate Precedes(nameLe: Collation, a: Snapshot, b: Snapshot) {
    if a.online != b.online then !a.online else nameLe(a.serverName, b.serverName)
  }

  function SortSnapshots(nameLe: Collation, snapshots: seq<Snapshot>): seq<Snapshot> {
    SortBy((a, b) => Precedes(nameLe, a, b), snapshots)
  }

  /** Offline servers first, by name within each group. */
  ghost predicate InOrder(nameLe: Collation, snapshots: seq<Snapshot>) {
    && (forall i, j | 0 <= i < j < |snapshots| :: snapshots[i].online ==> snapshots[j].online)
    && (forall i, j | 0 <= i < j < |snapshots| && snapshots[i].online == snapshots[j].online ::
          nameLe(snapshots[i].serverName, snapshots[j].serverName))
  }

  predicate UniqueIds(snapshots: seq<Snapshot>) {
    forall i, j | 0 <= i < j < |snapshots| :: snapshots[i].serverId != snapshots[j].serverId
  }

  /** The first entry of a server. */
  function Lookup(snapshots: seq<Snapshot>, id: int): (found: Option<Snapshot>)
    ensures found.Some? ==> found.value in snapshots && found.value.serverId == id
    ensures found.None? ==> forall s | s in snapshots :: s.serverId != id
  {
    if snapshots == [] then None
    else if snapshots[0].serverId == id then Some(snapshots[0])
    else Lookup(snapshots[1..], id)
  }

  function IndexOf(snapshots: seq<Snapshot>, id: int): (index: Option<nat>)
    ensures index.Some? ==> index.value < |snapshots| && Lookup(snapshots, id) == Some(snapshots[index.value])
                            && snapshots[index.value].serverId == id
    ensures index.None? ==> Lookup(snapshots, id) == None
  {
    if snapshots == [] then None
    else if snapshots[0].serverId == id then Some(0)
    else
      var rest := IndexOf(snapshots[1..], id);
      if rest.None? then None else Some(rest.value + 1)
  }

  function Merged(snapshots: seq<Snapshot>, incoming: Snapshot): seq<Snapshot> {
    var index := IndexOf(snapshots, incoming.serverId);
    if index.None? then snapshots + [incoming] else snapshots[index.value := incoming]
  }

  function MergeSnapshot(nameLe: Collation, snapshots: seq<Snapshot>, incoming: Snapshot): seq<Snapshot> {
    SortSnapshots(nameLe, Merged(snapshots, incoming))
  }

  type Revisions = map<int, nat>

  function RevisionOf(revisions: Revisions, id: int): nat {
    if id in revisions then revisions[id] else 0
  }

  /** The last entry of a server. */
  function LastEntry(snapshots: seq<Snapshot>, id: int): Option<Snapshot> {
    if snapshots == [] then None
    else
      var n := |snapshots| - 1;
      if snapshots[n].serverId == id then Some(snapshots[n]) else LastEntry(snapshots[..n], id)
  }

  /** A fetched entry gives way to one on screen that an event brought after the request began. */
  function Chosen(current: seq<Snapshot>, incoming: Snapshot, revisions: Revisions, revision: nat): Snapshot {
    var existing := LastEntry(current, incoming.serverId);
    if existing.Some? && RevisionOf(revisions, incoming.serverId) > revision then existing.value else incoming
  }

  function Kept(current: seq<Snapshot>, fetched: seq<Snapshot>, revisions: Revisions, revision: nat): seq<Snapshot> {
    if current == [] then []
    else
      var n := |current| - 1;
      Kept(current[..n], fetched, revisions, revision) +
      if Lookup(fetched, current[n].serverId).None? && RevisionOf(revisions, current[n].serverId) > revision
      then [current[n]] else []
  }

  function Reconciled(current: seq<Snapshot>, fetched: seq<Snapshot>, revisions: Revisions, revision: nat)
    : seq<Snapshot>
  {
    seq(|fetched|, i requires 0 <= i < |fetched| => Chosen(current, fetched[i], revisions, revision))
    + Kept(current, fetched, revisions, revision)
  }

  /** The entries by server; should a server occur twice, its last entry stays. */
  method ById(snapshots: seq<Snapshot>) returns (byId: map<int, Snapshot>)
    ensures forall id :: LastEntry(snapshots, id) == if id in byId then Some(byId[id]) else None
  {
    byId := map[];
    for i := 0 to |snapshots|
      invariant forall id :: LastEntry(snapshots[..i], id) == if id in byId then Some(byId[id]) else None
    {
      assert snapshots[..i + 1][..i] == snapshots[..i];
      byId := byId[snapshots[i].serverId := snapshots[i]];
    }
    assert snapshots[..|snapshots|] == snapshots;
  }

  method ReconcileFetch(nameLe: Collation, current: seq<Snapshot>, fetched: seq<Snapshot>, revisions: Revisions,
                        revision: nat)
    returns (reconciled: seq<Snapshot>)
    ensures reconciled == SortSnapshots(nameLe, Reconciled(current, fetched, revisions, revision))
  {
    var currentById := ById(current);
    var fetchedIds := set incoming | incoming in fetched :: incoming.serverId;
    var list: seq<Snapshot> := [];
    for i := 0 to |fetched|
      invariant |list| == i
      invariant forall k | 0 <= k < i :: list[k] == Chosen(current, fetched[k], revisions, revision)
    {
      var incoming := fetched[i];
      if incoming.serverId !in currentById {
        list := list + [incoming];
      } else if RevisionOf(revisions, incoming.serverId) > revision {
        list := list + [currentById[incoming.serverId]];
      } else {
        list := list + [incoming];
      }
    }
    var extra := KeptEntries(current, fetched, fetchedIds, revisions, revision);
    assert list + extra == Reconciled(current, fetched, revisions, revision);
    reconciled := SortSnapshots(nameLe, list + extra);
  }

  /** The entries on screen that the fetch does not have but an event brought after it began. */
  method KeptEntries(current: seq<Snapshot>, fetched: seq<Snapshot>, fetchedIds: set<int>, revisions: Revisions,
                     revision: nat)
    returns (kept: seq<Snapshot>)
    requires forall id :: id in fetchedIds <==> exists s :: s in fetched && s.serverId == id
    ensures kept == Kept(current, fetched, revisions, revision)
  {
    kept := [];
    for i := 0 to |current|
      invariant kept == Kept(current[..i], fetched, revisions, revision)
    {
      var existing := current[i];
      assert current[..i + 1][..i] == current[..i];
      if existing.serverId !in fetchedIds && RevisionOf(revisions, existing.serverId) > revision {
        kept := kept + [existing];
      }
    }
    assert current[..|current|] == current;
  }

  // Lists without duplicates

  lemma {:induction false} UniqueLookup(snapshots: seq<Snapshot>, id: int)
    requires UniqueIds(snapshots)
    ensures forall k | 0 <= k < |snapshots| && snapshots[k].serverId == id ::
      Lookup(snapshots, id) == Some(snapshots[k])
  {
    if snapshots != [] {
      assert forall k | 0 < k < |snapshots| :: snapshots[1..][k - 1] == snapshots[k];
      UniqueLookup(snapshots[1..], id);
    }
  }

  /** In a list without duplicates, a server's entry is the one found. */
  lemma LookupIsMembership(snapshots: seq<Snapshot>, s: Snapshot)
    requires UniqueIds(snapshots) && s in snapshots
    ensures Lookup(snapshots, s.serverId) == Some(s)
  {
    var k :| 0 <= k < |snapshots| && snapshots[k] == s;
    UniqueLookup(snapshots, s.serverId);
  }

  /** Lists with the same elements find the same entries. */
  lemma SameLookup(a: seq<Snapshot>, b: seq<Snapshot>, id: int)
    requires UniqueIds(a) && UniqueIds(b) && forall s :: s in a <==> s in b
    ensures Lookup(a, id) == Lookup(b, id)
  {
    if Lookup(a, id).Some? {
      LookupIsMembership(b, Lookup(a, id).value);
    }
  }

  lemma PrecedesIsTotalPreorder(nameLe: Collation)
    requires IsCollation(nameLe)
    ensures TotalPreorder((a, b) => Precedes(nameLe, a, b))
  {
  }

  lemma SortedIsInOrder(nameLe: Collation, sorted: seq<Snapshot>)
    requires SortedBy((a, b) => Precedes(nameLe, a, b), sorted)
    ensures InOrder(nameLe, sorted)
  {
    var le := (a, b) => Precedes(nameLe, a, b);
    assert forall i, j | 0 <= i < j < |sorted| :: le(sorted[i], sorted[j]);
  }

  /** Sorting puts offline servers first, by name, and changes nobody's entry. */
  lemma SortKeepsEntries(nameLe: Collation, snapshots: seq<Snapshot>)
    requires IsCollation(nameLe) && UniqueIds(snapshots)
    ensures
      var sorted := SortSnapshots(nameLe, snapshots);
      && InOrder(nameLe, sorted) && UniqueIds(sorted)
      && forall id :: Lookup(sorted, id) == Lookup(snapshots, id)
  {
    var le := (a, b) => Precedes(nameLe, a, b);
    var sorted := SortSnapshots(nameLe, snapshots);
    PrecedesIsTotalPreorder(nameLe);
    SortByOrders(le, snapshots);
    SortByMembers(le, snapshots);
    SortByKeepsDistinct(le, snapshots);
    SortedIsInOrder(nameLe, sorted);
    forall i, j | 0 <= i < j < |sorted| ensures sorted[i].serverId != sorted[j].serverId {
      assert sorted[i] in snapshots && sorted[j] in snapshots && sorted[i] != sorted[j];
    }
    forall id ensures Lookup(sorted, id) == Lookup(snapshots, id) {
      SameLookup(sorted, snapshots, id);
    }
  }

  lemma {:induction false} LastEntryIsEntry(snapshots: seq<Snapshot>, id: int)
    ensures
      var last := LastEntry(snapshots, id);
      if last.Some? then last.value in snapshots && last.value.serverId == id
      else forall s | s in snapshots :: s.serverId != id
  {
    if snapshots != [] {
      LastEntryIsEntry(snapshots[..|snapshots| - 1], id);
    }
  }

  lemma LastIsOnly(snapshots: seq<Snapshot>, id: int)
    requires UniqueIds(snapshots)
    ensures LastEntry(snapshots, id) == Lookup(snapshots, id)
  {
    LastEntryIsEntry(snapshots, id);
    if LastEntry(snapshots, id).Some? {
      LookupIsMembership(snapshots, LastEntry(snapshots, id).value);
    }
  }

  // What merging and reconciling do to each server's entry

  lemma MergedEntries(snapshots: seq<Snapshot>, incoming: Snapshot, id: int)
    requires UniqueIds(snapshots)
    ensures UniqueIds(Merged(snapshots, incoming))
    ensures Lookup(Merged(snapshots, incoming), id)
            == if id == incoming.serverId then Some(incoming) else Lookup(snapshots, id)
  {
    var merged := Merged(snapshots, incoming);
    var index := IndexOf(snapshots, incoming.serverId);
    var place := if index.None? then |snapshots| else index.value;
    assert UniqueIds(merged);
    assert merged[place] == incoming;
    LookupIsMembership(merged, incoming);
    if id != incoming.serverId {
      assert forall k | 0 <= k < |snapshots| && k != place :: merged[k] == snapshots[k];
      assert forall x | x in merged && x.serverId == id :: x in snapshots;
      if Lookup(snapshots, id).Some? {
        var k :| 0 <= k < |snapshots| && snapshots[k] == Lookup(snapshots, id).value;
        assert merged[k] == snapshots[k];
        LookupIsMembership(merged, merged[k]);
      }
    }
  }

  /** What a reconciliation makes of one server's entry. */
  function ReconciledEntry(existing: Option<Snapshot>, incoming: Option<Snapshot>, isNewer: bool): Option<Snapshot> {
    if existing.Some? && isNewer then existing else incoming
  }

  lemma {:induction false} KeptIsWanted(current: seq<Snapshot>, fetched: seq<Snapshot>, revisions: Revisions,
                                        revision: nat)
    requires UniqueIds(current)
    ensures
      var kept := Kept(current, fetched, revisions, revision);
      && UniqueIds(kept)
      && forall s :: s in kept <==> s in current && Lookup(fetched, s.serverId).None?
                                    && RevisionOf(revisions, s.serverId) > revision
  {
    if current != [] {
      var n := |current| - 1;
      KeptIsWanted(current[..n], fetched, revisions, revision);
      var before := Kept(current[..n], fetched, revisions, revision);
      assert current == current[..n] + [current[n]];
      forall i | 0 <= i < |before| ensures before[i].serverId != current[n].serverId {
        assert before[i] in current[..n];
      }
    }
  }

  lemma ReconciledEntries(current: seq<Snapshot>, fetched: seq<Snapshot>, revisions: Revisions, revision: nat, id: int)
    requires UniqueIds(current) && UniqueIds(fetched)
    ensures UniqueIds(Reconciled(current, fetched, revisions, revision))
    ensures Lookup(Reconciled(current, fetched, revisions, revision), id)
            == ReconciledEntry(Lookup(current, id), Lookup(fetched, id), RevisionOf(revisions, id) > revision)
  {
    var list := Reconciled(current, fetched, revisions, revision);
    var kept := Kept(current, fetched, revisions, revision);
    KeptIsWanted(current, fetched, revisions, revision);
    ReconciledIsUnique(current, fetched, revisions, revision);
    ReconciledOrigin(current, fetched, revisions, revision, id);
    LastIsOnly(current, id);
    if Lookup(fetched, id).Some? {
      var i :| 0 <= i < |fetched| && fetched[i] == Lookup(fetched, id).value;
      assert list[i] == Chosen(current, fetched[i], revisions, revision);
      LookupIsMembership(list, list[i]);
    } else if Lookup(current, id).Some? {
      LookupIsMembership(current, Lookup(current, id).value);
      if RevisionOf(revisions, id) > revision {
        assert Lookup(current, id).value in kept;
        LookupIsMembership(list, Lookup(current, id).value);
      }
    }
  }

  lemma ReconciledIsUnique(current: seq<Snapshot>, fetched: seq<Snapshot>, revisions: Revisions, revision: nat)
    requires UniqueIds(current) && UniqueIds(fetched)
    ensures UniqueIds(Reconciled(current, fetched, revisions, revision))
  {
    var list := Reconciled(current, fetched, revisions, revision);
    var kept := Kept(current, fetched, revisions, revision);
    KeptIsWanted(current, fetched, revisions, revision);
    ChosenKeepIds(current, fetched, revisions, revision);
    forall i, j | 0 <= i < |fetched| <= j < |list| ensures list[i].serverId != list[j].serverId {
      assert list[j] in kept && fetched[i] in fetched;
    }
    assert forall i | |fetched| <= i < |list| :: list[i] == kept[i - |fetched|];
  }

  lemma ChosenKeepIds(current: seq<Snapshot>, fetched: seq<Snapshot>, revisions: Revisions, revision: nat)
    ensures forall i | 0 <= i < |fetched| ::
      Reconciled(current, fetched, revisions, revision)[i].serverId == fetched[i].serverId
  {
    forall i | 0 <= i < |fetched|
      ensures Chosen(current, fetched[i], revisions, revision).serverId == fetched[i].serverId
    {
      LastEntryIsEntry(current, fetched[i].serverId);
    }
  }

  /** Whom the fetch does not have is there only if an event brought them after it began. */
  lemma ReconciledOrigin(current: seq<Snapshot>, fetched: seq<Snapshot>, revisions: Revisions, revision: nat, id: int)
    requires UniqueIds(current)
    ensures Lookup(fetched, id).None? ==>
      forall s | s in Reconciled(current, fetched, revisions, revision) && s.serverId == id ::
        s in current && RevisionOf(revisions, id) > revision
  {
    var list := Reconciled(current, fetched, revisions, revision);
    KeptIsWanted(current, fetched, revisions, revision);
    ChosenKeepIds(current, fetched, revisions, revision);
    if Lookup(fetched, id).None? {
      assert forall i | 0 <= i < |fetched| :: fetched[i] in fetched && list[i].serverId != id;
      assert forall s | s in list && s.serverId == id :: s in Kept(current, fetched, revisions, revision);
    }
  }
}
