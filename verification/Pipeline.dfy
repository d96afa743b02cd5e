/** From any run of the registry, through the projection, to a snapshot the reader accepts. */
module Pipeline {
  import opened Common
  import opened Forest
  import opened Sorting
  import opened Schema
  import opened RegistryRuns
  import opened ProjectionSpec
  import opened ProjectionLaws
  import opened NativePass
  import opened Snapshot
  import opened Protocol

  /** Rows that enumerate a table, in whatever order the database returns them. */
  ghost predicate Enumerates(rows: seq<Entry>, t: Table) {
    && DistinctEntries(rows)
    && (forall i :: 0 <= i < |rows| ==> rows[i].id in t && t[rows[i].id] == rows[i].row)
    && (forall k :: k in t ==> HasEntry(rows, k))
  }

  lemma EnumeratedTable(rows: seq<Entry>, t: Table)
    requires Enumerates(rows, t)
    ensures TableOf(rows) == t
  {
    TableMembers(rows);
  }

  lemma EnumeratedRow(rows: seq<Entry>, t: Table, k: Id)
    requires WellFormed(t) && Enumerates(rows, t) && k in t
    ensures RowError(rows, k, t[k]).None?
  {
    if t[k].parent.Some? {
      assert HasEntry(rows, ParentId(k, t[k]));
    }
  }

  /** Rows of a well-formed table are always projected. */
  lemma WellFormedAccepted(rows: seq<Entry>, t: Table)
    requires WellFormed(t) && Enumerates(rows, t)
    ensures Accepted(rows) && TableOf(rows) == t
  {
    EnumeratedTable(rows, t);
    forall i | 0 <= i < |rows| ensures RowError(rows, rows[i].id, rows[i].row).None? {
      EnumeratedRow(rows, t, rows[i].id);
    }
  }

  // ----- what the reader checks -----

  lemma SessionsParse(v: View, ids: seq<Id>)
    requires ViewOk(v) && UniqueSlots(v.t)
    requires Common.Distinct(ids) && forall i :: 0 <= i < |ids| ==> ids[i] in v.final
    ensures SessionsOk(SessionsFor(v, ids))
  {
    var sessions := SessionsFor(v, ids);
    forall i | 0 <= i < |sessions| ensures SessionOk(sessions[i]) && sessions[i].facts.logicalSlot == v.t[ids[i]].slot {
      assert sessions[i] == SessionOf(v, ids[i]);
    }
  }

  lemma NodeParses(v: View, k: Id)
    requires ViewOk(v) && k in v.t
    ensures AgentOk(NodeOf(v, k)) && NodeOf(v, k).id == k
    ensures NodeOf(v, k).facts.logicalSlot == v.t[k].slot
  {
  }

  /** The published nodes by identity. */
  ghost function PublishedNodes(v: View): map<Id, AgentNode>
    requires ViewOk(v)
  {
    map k | k in Published(v) :: NodeOf(v, k)
  }

  /** Indexing agents whose identities are listed. */
  lemma {:induction false} IndexListed(ids: seq<Id>, agents: seq<AgentNode>)
    requires |agents| == |ids| && Common.Distinct(ids) && forall i :: 0 <= i < |ids| ==> agents[i].id == ids[i]
    ensures forall k :: k in Index(agents) <==> k in ids
    ensures forall i :: 0 <= i < |ids| ==> ids[i] in Index(agents) && Index(agents)[ids[i]] == agents[i]
  {
    IndexMembers(agents);
    forall i | 0 <= i < |ids| ensures ids[i] in Index(agents) && Index(agents)[ids[i]] == agents[i] {
      assert agents[i].id in Index(agents);
      var j :| 0 <= j < |agents| && agents[j] == Index(agents)[ids[i]];
      assert ids[j] == ids[i];
    }
    forall k | k in Index(agents) ensures k in ids {
      var j :| 0 <= j < |agents| && agents[j] == Index(agents)[k];
      assert ids[j] in ids;
    }
  }

  lemma IndexedNodes(v: View, ids: seq<Id>)
    requires ViewOk(v) && Common.Lists(ids, Published(v)) && forall i :: 0 <= i < |ids| ==> ids[i] in v.t
    ensures Index(NodesFor(v, ids)) == PublishedNodes(v)
  {
    forall i | 0 <= i < |ids| ensures NodesFor(v, ids)[i].id == ids[i] {
      NodeParses(v, ids[i]);
    }
    IndexListed(ids, NodesFor(v, ids));
  }

  lemma PublishedLinks(v: View)
    requires ViewOk(v)
    ensures ParentLinks(PublishedNodes(v)) == GraphLinks(v)
  {
    forall k | k in Published(v)
      ensures NodeOf(v, k).parent == if k in GraphLinks(v) then Some(GraphLinks(v)[k]) else None
    {
      NodeParent(v, k);
    }
  }

  lemma ParentParses(v: View, k: Id)
    requires ViewOk(v) && k in Published(v)
    ensures ParentError(PublishedNodes(v), NodeOf(v, k)).None?
  {
    PublishedGraph(v);
    NodeParent(v, k);
    NodeParses(v, k);
    if k in GraphLinks(v) {
      NodeParses(v, GraphLinks(v)[k]);
      LineageParent(v, k);
    }
  }

  lemma LineageParent(v: View, k: Id)
    requires ViewOk(v) && k in GraphLinks(v) && GraphLinks(v)[k] in v.t
    ensures NodeOf(v, k).lineage == Some(PaseoLineage) ==> v.t[GraphLinks(v)[k]].slot.Some?
  {
    if k in v.links {
      assert IsRoot(v.t, v.links[k]);
    }
  }

  lemma AgentsParse(v: View, ids: seq<Id>)
    requires ViewOk(v) && UniqueSlots(v.t)
    requires Common.Lists(ids, Published(v)) && forall i :: 0 <= i < |ids| ==> ids[i] in v.t
    ensures GraphOk(NodesFor(v, ids))
  {
    var agents := NodesFor(v, ids);
    IndexedNodes(v, ids);
    PublishedLinks(v);
    PublishedGraph(v);
    forall i | 0 <= i < |agents|
      ensures AgentOk(agents[i]) && agents[i].id == ids[i] && agents[i].facts.logicalSlot == v.t[ids[i]].slot
      ensures ParentError(Index(agents), agents[i]).None?
    {
      NodeParses(v, ids[i]);
      assert ids[i] in ids;
      ParentParses(v, ids[i]);
    }
  }

  /** The reader accepts every snapshot of a table with unique slots. */
  lemma ProjectionParses(t: Table, order: seq<Id>)
    requires TopologyOk(t) && UniqueSlots(t) && IsRootOrder(t, order)
    ensures SnapshotOk(ProjectionOf(t, order))
  {
    ViewOfOk(t);
    VisibleParse(ViewOf(t), order);
    GraphParses(ViewOf(t), order);
  }

  lemma VisibleParse(v: View, order: seq<Id>)
    requires ViewOk(v) && UniqueSlots(v.t) && IsRootOrder(v.t, order)
    ensures forall i :: 0 <= i < |VisibleIds(v, order)| ==> VisibleIds(v, order)[i] in v.final
    ensures SessionsOk(SessionsFor(v, VisibleIds(v, order)))
  {
    VisibleIdsExactly(v, order);
    var ids := VisibleIds(v, order);
    assert forall i :: 0 <= i < |ids| ==> ids[i] in VisibleRoots(v);
    SessionsParse(v, ids);
  }

  lemma GraphParses(v: View, order: seq<Id>)
    requires ViewOk(v) && UniqueSlots(v.t) && IsRootOrder(v.t, order)
    ensures IsForest(GraphLinks(v)) && forall i :: 0 <= i < |AgentIds(v, order)| ==> AgentIds(v, order)[i] in v.t
    ensures GraphOk(NodesFor(v, AgentIds(v, order)))
  {
    AgentsListPublished(v, order);
    var ids := AgentIds(v, order);
    assert forall i :: 0 <= i < |ids| ==> ids[i] in Published(v);
    AgentsParse(v, ids);
  }

  lemma WellFormedTopology(t: Table)
    requires WellFormed(t)
    ensures TopologyOk(t) && UniqueSlots(t)
  {
  }

  /** The roots of a well-formed table by slot. */
  ghost function RootOrder(t: Table): (order: seq<Id>)
    requires WellFormed(t)
    ensures IsRootOrder(t, order)
  {
    var roots := set k | k in t && IsRoot(t, k);
    assert TotalOrder(SlotOrder(t), roots);
    SortedListing(SlotOrder(t), roots)
  }

  /** The one snapshot a well-formed table has. */
  ghost function SnapshotOf(t: Table): Projected
    requires WellFormed(t)
  {
    WellFormedTopology(t);
    ProjectionOf(t, RootOrder(t))
  }

  lemma SnapshotUnique(t: Table, order: seq<Id>)
    requires WellFormed(t) && IsRootOrder(t, order)
    ensures TopologyOk(t) && ProjectionOf(t, order) == SnapshotOf(t)
  {
    WellFormedTopology(t);
    RootOrderUnique(t, order, RootOrder(t));
  }

  /** A session of the snapshot carries its row's title. */
  lemma SessionTitled(t: Table, i: nat)
    requires WellFormed(t) && i < |SnapshotOf(t).sessions|
    ensures var s := SnapshotOf(t).sessions[i]; s.id in t && s.facts.title == t[s.id].title
  {
    WellFormedTopology(t);
    ViewOfOk(t);
    VisibleParse(ViewOf(t), RootOrder(t));
    var r := VisibleIds(ViewOf(t), RootOrder(t))[i];
    assert SnapshotOf(t).sessions[i] == SessionOf(ViewOf(t), r);
  }

  /** An active root is among the sessions. */
  lemma ActiveShown(t: Table, r: Id) returns (i: nat)
    requires WellFormed(t) && IsRoot(t, r) && t[r].status != Idle
    ensures i < |SnapshotOf(t).sessions| && SnapshotOf(t).sessions[i].id == r
  {
    WellFormedTopology(t);
    ViewOfOk(t);
    VisibleIdsExactly(ViewOf(t), RootOrder(t));
    ActiveVisible(t, r);
    i :| 0 <= i < |VisibleIds(ViewOf(t), RootOrder(t))| && VisibleIds(ViewOf(t), RootOrder(t))[i] == r;
    assert SnapshotOf(t).sessions[i] == SessionOf(ViewOf(t), r);
  }

  lemma ActiveVisible(t: Table, r: Id)
    requires TopologyOk(t) && ViewOk(ViewOf(t)) && IsRoot(t, r) && t[r].status != Idle
    ensures r in VisibleRoots(ViewOf(t))
  {
    CarriedIsMaximum(PaseoLinks(t), RootStatuses(t), r);
    NativeIsMaximum(t, r);
    assert Below(NativeLinks(t), r, r) && Below(PaseoLinks(t), r, r);
  }

  /** Retitling an active root changes the snapshot. */
  lemma TitleShows(t: Table, u: Table, r: Id)
    requires WellFormed(t) && WellFormed(u) && IsRoot(t, r) && t[r].status != Idle
    requires r in u && u[r].title != t[r].title
    ensures SnapshotOf(t) != SnapshotOf(u)
  {
    var i := ActiveShown(t, r);
    SessionTitled(t, i);
    if SnapshotOf(t) == SnapshotOf(u) {
      SessionTitled(u, i);
      assert false;
    }
  }

  /** Reading the rows back in any order and projecting them gives that snapshot. */
  method ProjectTable(ghost t: Table, rows: seq<Entry>) returns (p: Projected)
    requires WellFormed(t) && Enumerates(rows, t)
    ensures p == SnapshotOf(t)
  {
    WellFormedAccepted(rows, t);
    var r := ProjectSnapshotRows(rows);
    ghost var order :| IsRootOrder(t, order) && r.value == ProjectionOf(t, order);
    SnapshotUnique(t, order);
    p := r.value;
  }

  /**
   * Whatever is done to an empty registry, and in whatever order its rows are
   * read back, the projection succeeds, the order of its roots is determined,
   * and the reader accepts the snapshot.
   */
  lemma EveryRunPublishes(ops: seq<Op>, rows: seq<Entry>, order: seq<Id>)
    requires Enumerates(rows, Run(ops))
    ensures Accepted(rows) && TableOf(rows) == Run(ops) && TopologyOk(Run(ops))
    ensures IsRootOrder(Run(ops), order) ==> SnapshotOk(ProjectionOf(Run(ops), order))
    ensures forall other :: IsRootOrder(Run(ops), order) && IsRootOrder(Run(ops), other) ==> other == order
  {
    var t := Run(ops);
    WellFormedAccepted(rows, t);
    WellFormedTopology(t);
    if IsRootOrder(t, order) {
      ProjectionParses(t, order);
      forall other | IsRootOrder(t, other) ensures other == order {
        RootOrderUnique(t, order, other);
      }
    }
  }

  /** Read the table, project it, and hand it to the reader: neither end ever refuses. */
  method PublishRun(ghost ops: seq<Op>, rows: seq<Entry>) returns (p: Projected)
    requires Enumerates(rows, Run(ops))
    ensures TopologyOk(Run(ops))
    ensures SnapshotOk(p) && exists order :: IsRootOrder(Run(ops), order) && p == ProjectionOf(Run(ops), order)
  {
    EveryRunPublishes(ops, rows, []);
    var projected := ProjectSnapshotRows(rows);
    ghost var order :| IsRootOrder(Run(ops), order) && projected.value == ProjectionOf(Run(ops), order);
    EveryRunPublishes(ops, rows, order);
    var parsed := ParseSessionSnapshot(projected.value);
    p := parsed.value;
  }
}
