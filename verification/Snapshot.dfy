/** `projectSnapshotRows` end to end, and its freedom from internal errors and row order. */
module Snapshot {
  import opened Common
  import opened Forest
  import opened Lineage
  import opened Walks
  import opened Sorting
  import opened Schema
  import opened ProjectionSpec
  import opened ProjectionLaws
  import opened NativePass
  import opened Projection
  import opened ProjectionOutput

  ghost function NodesFor(v: View, ids: seq<Id>): (s: seq<AgentNode>)
    requires ViewOk(v) && forall i :: 0 <= i < |ids| ==> ids[i] in v.t
    ensures |s| == |ids| && forall i :: 0 <= i < |ids| ==> s[i] == NodeOf(v, ids[i])
  {
    seq(|ids|, i requires 0 <= i < |ids| => NodeOf(v, ids[i]))
  }

  /** The cards and nodes to publish are rows of the table. */
  lemma ListedInTable(v: View, order: seq<Id>)
    requires ViewOk(v) && IsRootOrder(v.t, order)
    ensures IsForest(GraphLinks(v))
    ensures forall i :: 0 <= i < |VisibleIds(v, order)| ==> VisibleIds(v, order)[i] in v.final
    ensures forall i :: 0 <= i < |AgentIds(v, order)| ==> AgentIds(v, order)[i] in v.t
  {
    VisibleIdsExactly(v, order);
    AgentsListPublished(v, order);
    var visible, agents := VisibleIds(v, order), AgentIds(v, order);
    assert forall i :: 0 <= i < |visible| ==> visible[i] in VisibleRoots(v);
    assert forall i :: 0 <= i < |agents| ==> agents[i] in Published(v);
  }

  /** The snapshot a well-formed table deserves, its roots taken in slot order. */
  ghost function ProjectionOf(t: Table, order: seq<Id>): Projected
    requires TopologyOk(t) && IsRootOrder(t, order)
  {
    ViewOfOk(t);
    var v := ViewOf(t);
    ListedInTable(v, order);
    Projected(SessionsFor(v, VisibleIds(v, order)), NodesFor(v, AgentIds(v, order)))
  }

  ghost predicate Accepted(rows: seq<Entry>) {
    DistinctEntries(rows) && RowsOk(rows) && IsForest(NativeLinks(TableOf(rows)))
  }

  lemma AcceptedTopology(rows: seq<Entry>)
    requires DistinctEntries(rows) && RowsOk(rows)
    ensures var t := TableOf(rows); (forall k :: k in t ==> RowChecks(k, t[k])) && ForeignKeys(t)
    ensures |TableOf(rows)| == |rows|
  {
    TableMembers(rows);
    var t := TableOf(rows);
    forall k | k in t ensures RowChecks(k, t[k]) && (t[k].parent.Some? ==> ParentId(k, t[k]) in t) {
      assert HasEntry(rows, k);
      var i :| 0 <= i < |rows| && rows[i].id == k;
      assert RowError(rows, rows[i].id, rows[i].row).None?;
    }
  }

  // ----- the native half -----

  datatype NativePart = NativePart(t: Table, order: seq<Id>, nativeOrder: seq<Id>, rootOf: map<Id, Id>,
                                   results: map<Id, NodeResult>)

  ghost predicate NativeRight(p: NativePart) {
    && TopologyOk(p.t) && IsRootOrder(p.t, p.order)
    && Lists(p.nativeOrder, p.t.Keys)
    && (forall k :: k in p.t ==> k in p.rootOf && p.rootOf[k] == Top(NativeLinks(p.t), k))
    && p.results.Keys == p.t.Keys && ResultsRight(p.t, p.results)
  }

  method SortRoots(t: Table, rootRows: seq<Id>) returns (order: seq<Id>)
    requires forall k :: k in t ==> RowChecks(k, t[k])
    requires Distinct(rootRows) && forall k :: k in rootRows <==> IsRoot(t, k)
    ensures IsRootOrder(t, order)
  {
    assert TotalOrder(SlotOrder(t), Elements(rootRows));
    order := SortBy(rootRows, SlotOrder(t));
  }

  method NativeHalf(rows: seq<Entry>) returns (r: Result<NativePart, ProjectionError>)
    ensures r.Failure? ==> Rejected(rows, r.error) && !Accepted(rows)
    ensures r.Success? ==> Accepted(rows) && NativeRight(r.value) && r.value.t == TableOf(rows)
  {
    var t, duplicate := IndexRows(rows);
    if duplicate {
      return Failure(DuplicateIdentity);
    }
    var error, rootRows, childrenOf := ClassifyRows(rows, t);
    if error.Some? {
      return Failure(error.value);
    }
    AcceptedTopology(rows);
    TakeAll(rows);
    var order := SortRoots(t, rootRows);
    var nativeOrder, rootOf, totalVisited := NativeOrder(t, order, childrenOf, |rows|);
    AllVisitedIffForest(t, order, nativeOrder, rootOf);
    if totalVisited != |rows| {
      return Failure(Cycle);
    }
    GroundedPartForest(NativeLinks(t));
    var results := NativeResults(t, nativeOrder, childrenOf);
    return Success(NativePart(t, order, nativeOrder, rootOf, results));
  }

  // ----- the Paseo half -----

  method LineageOfRoots(t: Table, order: seq<Id>) returns (links: map<Id, Id>)
    requires IsRootOrder(t, order)
    ensures links == PaseoLinks(t)
  {
    var rows: seq<LineageRow> := [];
    ghost var facts := RootFacts(t);
    for n := 0 to |order|
      invariant |rows| == n && forall i :: 0 <= i < n ==> rows[i].id == order[i]
      invariant forall i :: 0 <= i < n ==> order[i] in facts && rows[i].facts == facts[order[i]]
    {
      assert order[n] in order;
      rows := rows + [LineageRow(order[n], PaseoFacts(t[order[n]]))];
    }
    assert forall k :: k in facts ==> k in order;
    FactsListed(rows, order, facts);
    links := ResolvePaseoParentLinks(rows);
  }

  /** Rows that list a map's facts are those facts. */
  lemma {:induction false} FactsListed(rows: seq<LineageRow>, order: seq<Id>, facts: map<Id, Facts>)
    requires |rows| == |order| && Distinct(order) && forall i :: 0 <= i < |rows| ==> rows[i].id == order[i]
    requires forall i :: 0 <= i < |rows| ==> order[i] in facts && rows[i].facts == facts[order[i]]
    requires forall k :: k in facts ==> k in order
    ensures DistinctIds(rows) && FactsOf(rows) == facts
  {
    FactsMembers(rows);
    forall k | k in facts ensures k in FactsOf(rows) {
      var i :| 0 <= i < |order| && order[i] == k;
      assert rows[i].id == k;
    }
  }

  method RootStatusMap(t: Table, order: seq<Id>, results: map<Id, NodeResult>) returns (native: map<Id, Status>)
    requires IsForest(NativeLinks(t)) && results.Keys == t.Keys && ResultsRight(t, results)
    requires forall k :: k in order <==> IsRoot(t, k)
    ensures native == RootStatuses(t)
  {
    native := map[];
    for n := 0 to |order|
      invariant forall r :: r in native <==> r in order[..n]
      invariant forall r :: r in native ==> r in t && native[r] == NativeStatus(t, r)
    {
      var r := order[n];
      assert r in order;
      TakeStep(order, n);
      if r !in results {
        assert false; // corrupt-row
      }
      native := native[r := results[r].effectiveStatus];
    }
    TakeAll(order);
  }

  method ViewFrom(p: NativePart) returns (v: View)
    requires NativeRight(p)
    ensures v == ViewOf(p.t) && ViewOk(v)
  {
    var links := LineageOfRoots(p.t, p.order);
    var native := RootStatusMap(p.t, p.order, p.results);
    assert Lists(p.order, native.Keys);
    var final := CarryStatuses(links, native, p.order);
    Assembled(p.t, links, native, final);
    v := View(p.t, links, final);
  }

  lemma Assembled(t: Table, links: map<Id, Id>, native: map<Id, Status>, final: map<Id, Status>)
    requires TopologyOk(t) && links == PaseoLinks(t) && native == RootStatuses(t)
    requires final.Keys == native.Keys && forall r :: r in native ==> final[r] == CarriedStatus(links, native, r)
    ensures View(t, links, final) == ViewOf(t) && ViewOk(View(t, links, final))
  {
    ViewOfOk(t);
    assert final == ViewOf(t).final;
  }

  lemma SessionsMatch(v: View, cards: map<Id, Tally>, results: map<Id, NodeResult>, visible: seq<Id>,
                      sessions: seq<Session>)
    requires ViewOk(v) && CardsRight(v, cards) && results.Keys == v.t.Keys && ResultsRight(v.t, results)
    requires forall i :: 0 <= i < |visible| ==> visible[i] in v.final
    requires |sessions| == |visible|
    requires forall i :: 0 <= i < |visible| ==> sessions[i] == SessionRecord(v.t, v.final, cards, results, visible[i])
    ensures sessions == SessionsFor(v, visible)
  {
    forall i | 0 <= i < |visible| ensures sessions[i] == SessionOf(v, visible[i]) {
      assert cards[visible[i]] == CardOf(v, visible[i]);
    }
  }

  /** The node map holds exactly the published nodes, each as specified. */
  ghost predicate NodesRight(v: View, nodes: map<Id, AgentNode>)
    requires ViewOk(v)
  {
    nodes.Keys == Published(v) && forall k :: k in Published(v) ==> nodes[k] == NodeOf(v, k)
  }

  lemma NodeKeysMatch(v: View, rootOf: map<Id, Id>, roots: set<Id>, k: Id)
    requires ViewOk(v) && k in v.t && k in rootOf && rootOf[k] == Top(NativeLinks(v.t), k)
    requires forall r :: r in roots <==> r in VisibleRoots(v)
    ensures k in Published(v) <==> k in roots || ShowsNative(v.t, roots, rootOf, k)
    ensures k in roots ==> v.t[k].parent.None?
  {
    PublishedByTop(v, k);
  }

  lemma NodeSetMatches(v: View, rootOf: map<Id, Id>, roots: set<Id>, nodes: set<Id>)
    requires ViewOk(v)
    requires forall k :: k in v.t ==> k in rootOf && rootOf[k] == Top(NativeLinks(v.t), k)
    requires forall r :: r in roots <==> r in VisibleRoots(v)
    requires forall k :: k in nodes <==> k in roots || ShowsNative(v.t, roots, rootOf, k)
    ensures nodes == Published(v)
  {
    forall k ensures k in nodes <==> k in Published(v) {
      if k in v.t {
        NodeKeysMatch(v, rootOf, roots, k);
      }
    }
  }

  lemma NodeValuesMatch(v: View, p: NativePart, cards: map<Id, Tally>, roots: map<Id, AgentNode>,
                        nodes: map<Id, AgentNode>)
    requires ViewOk(v) && v.t == p.t && CardsRight(v, cards)
    requires p.results.Keys == p.t.Keys && ResultsRight(p.t, p.results)
    requires forall k :: k in roots ==> k in v.final && k in nodes && nodes[k] == RootNodeRecord(v, cards, k)
    requires forall k :: k in nodes && k !in roots ==>
               k in p.t && p.t[k].parent.Some? && nodes[k] == NativeNode(k, p.t[k], p.results[k].effectiveStatus)
    ensures forall k :: k in nodes ==> k in v.t && nodes[k] == NodeOf(v, k)
  {
    forall k | k in nodes ensures k in v.t && nodes[k] == NodeOf(v, k) {
      if k in roots {
        RootNodeMatches(v, cards, k);
      } else {
        NativeNodeMatches(v, p.results, k);
      }
    }
  }

  lemma NativeNodeMatches(v: View, results: map<Id, NodeResult>, k: Id)
    requires ViewOk(v) && k in v.t && v.t[k].parent.Some? && k in results && ResultsRight(v.t, results)
    ensures NativeNode(k, v.t[k], results[k].effectiveStatus) == NodeOf(v, k)
  {
  }

  lemma RootNodeMatches(v: View, cards: map<Id, Tally>, k: Id)
    requires ViewOk(v) && CardsRight(v, cards) && k in v.final
    ensures RootNodeRecord(v, cards, k) == NodeOf(v, k)
  {
    assert cards[k] == CardOf(v, k);
  }

  lemma PublishedByTop(v: View, k: Id)
    requires ViewOk(v) && k in v.t
    ensures k in Published(v) <==> Top(NativeLinks(v.t), k) in VisibleRoots(v)
    ensures IsRoot(v.t, k) ==> Top(NativeLinks(v.t), k) == k
  {
    TopIsRoot(v.t, k);
  }

  lemma NodeParent(v: View, k: Id)
    requires ViewOk(v) && k in Published(v)
    ensures NodeOf(v, k).parent == if k in GraphLinks(v) then Some(GraphLinks(v)[k]) else None
  {
  }

  lemma NodeLinksMatch(v: View, nodes: map<Id, AgentNode>)
    requires ViewOk(v) && NodesRight(v, nodes)
    ensures LinksOfNodes(nodes) == GraphLinks(v)
  {
    forall k | k in nodes
      ensures nodes[k].parent == if k in GraphLinks(v) then Some(GraphLinks(v)[k]) else None
    {
      NodeParent(v, k);
    }
  }

  lemma NodeParentsPresent(v: View, nodes: map<Id, AgentNode>)
    requires ViewOk(v) && nodes.Keys == Published(v) && LinksOfNodes(nodes) == GraphLinks(v)
    ensures forall k :: k in nodes && nodes[k].parent.Some? ==> nodes[k].parent.value in nodes
    ensures IsForest(GraphLinks(v))
  {
    PublishedGraph(v);
    forall k | k in nodes && nodes[k].parent.Some? ensures nodes[k].parent.value in nodes {
      assert k in LinksOfNodes(nodes);
    }
  }

  method RootsInOrder(v: View, order: seq<Id>, visible: seq<Id>) returns (roots: seq<Id>)
    requires ViewOk(v) && IsRootOrder(v.t, order) && visible == VisibleIds(v, order)
    requires Lists(visible, VisibleRoots(v))
    ensures roots == GraphRoots(v, order)
  {
    var primaries, orphans := PickRoots(v, visible);
    AgentOrderTotal(v.t, OrphanRoots(v));
    assert Elements(orphans) == OrphanRoots(v);
    var sorted := SortBy(orphans, AgentOrder(v.t));
    SortedUnique(AgentOrder(v.t), sorted, SortedIds(v.t, OrphanRoots(v)), OrphanRoots(v));
    PrimariesTwice(v, order);
    roots := primaries + sorted;
  }

  ghost function IsOwn(t: Table): Id -> bool {
    r => r in t && !IsPaseoSubagent(t[r])
  }

  /** The visible primaries, in order, and the visible subagents nobody claims. */
  method PickRoots(v: View, visible: seq<Id>) returns (primaries: seq<Id>, orphans: seq<Id>)
    requires ViewOk(v) && Lists(visible, VisibleRoots(v))
    ensures primaries == Filter(visible, IsOwn(v.t))
    ensures Lists(orphans, OrphanRoots(v))
  {
    primaries, orphans := [], [];
    for n := 0 to |visible|
      invariant primaries == Filter(visible[..n], IsOwn(v.t))
      invariant Distinct(orphans)
      invariant forall k :: k in orphans <==> k in visible[..n] && k in OrphanRoots(v)
    {
      var r := visible[n];
      assert r in visible;
      TakeStep(visible, n);
      FilterSnoc(visible[..n], r, IsOwn(v.t));
      assert r !in visible[..n];
      if !IsPaseoSubagent(v.t[r]) {
        primaries := primaries + [r];
      } else if r !in v.links {
        orphans := orphans + [r];
      }
    }
    TakeAll(visible);
  }

  lemma PrimariesTwice(v: View, order: seq<Id>)
    requires ViewOk(v)
    ensures Filter(VisibleIds(v, order), IsOwn(v.t)) == Filter(order, IsPrimaryCard(v))
  {
    FilterNarrowed(order, IsCard(v), IsPrimaryCard(v), IsOwn(v.t));
  }

  method PublishCards(v: View, cards: map<Id, Tally>, results: map<Id, NodeResult>, visible: seq<Id>)
    returns (sessions: seq<Session>)
    requires ViewOk(v) && CardsRight(v, cards) && results.Keys == v.t.Keys && ResultsRight(v.t, results)
    requires Lists(visible, VisibleRoots(v))
    ensures forall i :: 0 <= i < |visible| ==> visible[i] in v.final
    ensures sessions == SessionsFor(v, visible)
  {
    assert forall i :: 0 <= i < |visible| ==> visible[i] in VisibleRoots(v);
    sessions := PublishSessions(v.t, v.final, cards, results, visible);
    SessionsMatch(v, cards, results, visible, sessions);
  }

  method PublishAgents(v: View, p: NativePart, cards: map<Id, Tally>, visible: seq<Id>) returns (agents: seq<AgentNode>)
    requires ViewOk(v) && v.t == p.t && NativeRight(p) && CardsRight(v, cards)
    requires visible == VisibleIds(v, p.order) && Lists(visible, VisibleRoots(v))
    ensures IsForest(GraphLinks(v))
    ensures forall i :: 0 <= i < |AgentIds(v, p.order)| ==> AgentIds(v, p.order)[i] in v.t
    ensures agents == NodesFor(v, AgentIds(v, p.order))
  {
    var nodes := PublishNodes(v, p, cards, visible);
    NodeLinksMatch(v, nodes);
    NodeParentsPresent(v, nodes);
    var graphChildren := GraphChildren(nodes);
    var roots := RootsInOrder(v, p.order, visible);
    agents := OrderAgents(v, p.order, nodes, graphChildren, roots);
  }

  method PublishNodes(v: View, p: NativePart, cards: map<Id, Tally>, visible: seq<Id>)
    returns (nodes: map<Id, AgentNode>)
    requires ViewOk(v) && v.t == p.t && NativeRight(p) && CardsRight(v, cards) && Lists(visible, VisibleRoots(v))
    ensures NodesRight(v, nodes)
  {
    assert forall i :: 0 <= i < |visible| ==> visible[i] in VisibleRoots(v);
    var rootNodes := PublishRootNodes(v, cards, visible);
    nodes := PublishNativeNodes(p.t, rootNodes, p.nativeOrder, p.rootOf, p.results);
    NodeSetMatches(v, p.rootOf, rootNodes.Keys, nodes.Keys);
    NodeValuesMatch(v, p, cards, rootNodes, nodes);
  }

  method OrderAgents(v: View, ghost order: seq<Id>, nodes: map<Id, AgentNode>, graphChildren: map<Id, seq<Id>>,
                     roots: seq<Id>)
    returns (agents: seq<AgentNode>)
    requires ViewOk(v) && IsRootOrder(v.t, order) && NodesRight(v, nodes)
    requires IsForest(GraphLinks(v)) && ChildLists(GraphLinks(v), graphChildren)
    requires roots == GraphRoots(v, order)
    ensures forall i :: 0 <= i < |AgentIds(v, order)| ==> AgentIds(v, order)[i] in v.t
    ensures agents == NodesFor(v, AgentIds(v, order))
  {
    GraphReady(v, order, nodes, graphChildren);
    agents := AppendRoots(GraphLinks(v), SortedKids(v), nodes, graphChildren, AgentOrder(v.t), roots);
    NodesPicked(v, order, nodes, agents);
    AllOrdered(v, order, nodes, agents);
    if |agents| != |nodes| {
      assert false; // corrupt-row
    }
  }

  /** The preorder leaves no node out. */
  lemma AllOrdered(v: View, order: seq<Id>, nodes: map<Id, AgentNode>, agents: seq<AgentNode>)
    requires ViewOk(v) && IsRootOrder(v.t, order) && NodesRight(v, nodes) && IsForest(GraphLinks(v))
    requires |agents| == |AgentIds(v, order)|
    ensures |agents| == |nodes|
  {
    AgentsListPublished(v, order);
    ListingSize(AgentIds(v, order), Published(v));
    assert |nodes| == |nodes.Keys|;
  }

  lemma GraphReady(v: View, order: seq<Id>, nodes: map<Id, AgentNode>, graphChildren: map<Id, seq<Id>>)
    requires ViewOk(v) && IsRootOrder(v.t, order) && NodesRight(v, nodes)
    requires IsForest(GraphLinks(v)) && ChildLists(GraphLinks(v), graphChildren)
    ensures GraphRight(GraphLinks(v), SortedKids(v), nodes, graphChildren, AgentOrder(v.t))
    ensures Distinct(GraphRoots(v, order))
    ensures forall r :: r in GraphRoots(v, order) ==> r in nodes && r !in GraphLinks(v)
  {
    GraphRootsExactly(v, order);
    AgentOrderTotal(v.t, nodes.Keys);
    SortedKidsInOrder(v);
  }

  lemma NodesPicked(v: View, order: seq<Id>, nodes: map<Id, AgentNode>, agents: seq<AgentNode>)
    requires ViewOk(v) && IsRootOrder(v.t, order) && NodesRight(v, nodes) && IsForest(GraphLinks(v))
    requires forall i :: 0 <= i < |AgentIds(v, order)| ==> AgentIds(v, order)[i] in nodes
    requires agents == Pick(nodes, AgentIds(v, order))
    ensures forall i :: 0 <= i < |AgentIds(v, order)| ==> AgentIds(v, order)[i] in v.t
    ensures agents == NodesFor(v, AgentIds(v, order))
  {
    var ids := AgentIds(v, order);
    forall i | 0 <= i < |ids| ensures ids[i] in v.t && agents[i] == NodeOf(v, ids[i]) {
      assert ids[i] in Published(v);
    }
  }

  lemma SortedKidsInOrder(v: View)
    requires ViewOk(v)
    ensures forall p {:trigger Kids(SortedKids(v), p)} :: Sorted(AgentOrder(v.t), Kids(SortedKids(v), p))
  {
  }

  /**
   * Rows in, snapshot out. The only failures are the documented verdicts on
   * the rows; the traversal bound and every internal consistency check are
   * proved dead where they stand.
   */
  method ProjectSnapshotRows(rows: seq<Entry>) returns (r: Result<Projected, ProjectionError>)
    ensures r.Success? <==> Accepted(rows)
    ensures r.Failure? ==> Rejected(rows, r.error)
    ensures r.Success? ==> TopologyOk(TableOf(rows))
    ensures r.Success? ==>
              exists order :: IsRootOrder(TableOf(rows), order) && r.value == ProjectionOf(TableOf(rows), order)
  {
    var half := NativeHalf(rows);
    if half.Failure? {
      return Failure(half.error);
    }
    var p := half.value;
    var projected := PaseoHalf(p);
    return Success(projected);
  }

  method PaseoHalf(p: NativePart) returns (projected: Projected)
    requires NativeRight(p)
    ensures projected == ProjectionOf(p.t, p.order)
  {
    var v := ViewFrom(p);
    assert Lists(p.order, v.final.Keys);
    var holders := DescendantLedgers(v, p.order);
    var cards := RollUpAll(v, p.order);
    var visible := VisibleInOrder(v, p.order, holders);
    VisibleIdsExactly(v, p.order);
    var sessions := PublishCards(v, cards, p.results, visible);
    var agents := PublishAgents(v, p, cards, visible);
    projected := Projected(sessions, agents);
  }

  /** The same rows in another order make the same table. */
  lemma SameTable(rows: seq<Entry>, others: seq<Entry>)
    requires DistinctEntries(rows) && DistinctEntries(others) && forall e :: e in rows <==> e in others
    ensures TableOf(rows) == TableOf(others)
  {
    TableMembers(rows);
    TableMembers(others);
    forall i | 0 <= i < |rows| ensures rows[i].id in TableOf(others) && TableOf(others)[rows[i].id] == rows[i].row {
      assert rows[i] in others;
    }
    forall i | 0 <= i < |others| ensures others[i].id in TableOf(rows) && TableOf(rows)[others[i].id] == others[i].row {
      assert others[i] in rows;
    }
  }

  /** Two orders of the same rows are accepted together, and with unique slots they give the same snapshot. */
  lemma RowOrderIrrelevant(rows: seq<Entry>, others: seq<Entry>, order: seq<Id>, other: seq<Id>)
    requires DistinctEntries(rows) && DistinctEntries(others) && forall e :: e in rows <==> e in others
    ensures TableOf(rows) == TableOf(others) && (Accepted(rows) <==> Accepted(others))
    ensures TopologyOk(TableOf(rows)) && UniqueSlots(TableOf(rows)) && IsRootOrder(TableOf(rows), order)
            && IsRootOrder(TableOf(others), other) ==>
              ProjectionOf(TableOf(rows), order) == ProjectionOf(TableOf(others), other)
  {
    SameTable(rows, others);
    SameVerdicts(rows, others);
    var t := TableOf(rows);
    if TopologyOk(t) && UniqueSlots(t) && IsRootOrder(t, order) && IsRootOrder(t, other) {
      RootOrderUnique(t, order, other);
    }
  }

  lemma SameEntries(rows: seq<Entry>, others: seq<Entry>, k: Id)
    requires forall e :: e in rows ==> e in others
    ensures HasEntry(rows, k) ==> HasEntry(others, k)
    ensures NamedByAnotherProvider(rows, k) ==> NamedByAnotherProvider(others, k)
  {
    if HasEntry(rows, k) {
      var i :| 0 <= i < |rows| && rows[i].id == k;
      assert rows[i] in others;
    }
    if NamedByAnotherProvider(rows, k) {
      var i :| 0 <= i < |rows| && rows[i].id.provider != k.provider && rows[i].id.session == k.session;
      assert rows[i] in others;
    }
  }

  lemma SameVerdict(rows: seq<Entry>, others: seq<Entry>, k: Id, row: Row)
    requires forall e :: e in rows <==> e in others
    ensures RowError(rows, k, row) == RowError(others, k, row)
  {
    if row.parent.Some? {
      SameEntries(rows, others, ParentId(k, row));
      SameEntries(others, rows, ParentId(k, row));
    }
  }

  lemma SameVerdicts(rows: seq<Entry>, others: seq<Entry>)
    requires forall e :: e in rows <==> e in others
    ensures RowsOk(rows) <==> RowsOk(others)
  {
    forall i | 0 <= i < |rows| && RowsOk(others) ensures RowError(rows, rows[i].id, rows[i].row).None? {
      SameVerdict(rows, others, rows[i].id, rows[i].row);
      assert rows[i] in others;
    }
    forall i | 0 <= i < |others| && RowsOk(rows) ensures RowError(others, others[i].id, others[i].row).None? {
      SameVerdict(rows, others, others[i].id, others[i].row);
      assert others[i] in rows;
    }
  }

  /** With unique slots the order of the roots is determined. */
  lemma RootOrderUnique(t: Table, order: seq<Id>, other: seq<Id>)
    requires TopologyOk(t) && UniqueSlots(t) && IsRootOrder(t, order) && IsRootOrder(t, other)
    ensures order == other
  {
    var roots := set k | k in t && IsRoot(t, k);
    assert TotalOrder(SlotOrder(t), roots) && Antisymmetric(SlotOrder(t), roots);
    SortedUnique(SlotOrder(t), order, other, roots);
  }
}
