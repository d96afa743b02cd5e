/** The strip board: grouping the agents, spines, and the page the settings point at. */
module Board {
  import opened Common
  import opened Forest
  import opened Walks
  import opened Sorting
  import opened Preorder
  import opened ProjectionSpec
  import opened Protocol
  import opened Packing

  datatype Seed = Seed(node: AgentNode, subagent: bool, parentProject: Option<string>, displayOnly: bool,
                       pendingResults: nat)

  datatype Group = Group(cards: seq<Seed>, orphanTail: bool)

  function SeedOf(node: AgentNode, parentProject: Option<string>): Seed {
    Seed(node, node.role == Subagent, parentProject, node.lineage == Some(Native), node.facts.pendingResults)
  }

  /** The cards of a listing, anchored to one project. */
  ghost function SeedsOf(nodes: map<Id, AgentNode>, ids: seq<Id>, project: Option<string>): (s: seq<Seed>)
    requires forall i :: 0 <= i < |ids| ==> ids[i] in nodes
    ensures |s| == |ids| && forall i :: 0 <= i < |ids| ==> s[i] == SeedOf(nodes[ids[i]], project)
  {
    seq(|ids|, i requires 0 <= i < |ids| => SeedOf(nodes[ids[i]], project))
  }

  // ----- children lists -----

  /** A graph the reader accepted, with its agents by identity and its parent links. */
  ghost predicate Graph(agents: seq<AgentNode>, nodes: map<Id, AgentNode>, links: map<Id, Id>) {
    && nodes == Index(agents) && links == ParentLinks(nodes) && IsForest(links)
    && (forall i :: 0 <= i < |agents| ==> agents[i].id in nodes && nodes[agents[i].id] == agents[i])
    && (forall k :: k in nodes ==> nodes[k].id == k && AgentOk(nodes[k]))
    && (forall k :: k in links ==> k in nodes && links[k] in nodes)
  }

  lemma AcceptedGraph(agents: seq<AgentNode>)
    requires GraphOk(agents)
    ensures Graph(agents, Index(agents), ParentLinks(Index(agents)))
  {
    var nodes := Index(agents);
    IndexMembers(agents);
    forall i | 0 <= i < |agents| ensures agents[i].id in nodes && nodes[agents[i].id] == agents[i] {
      var k := agents[i].id;
      var j :| 0 <= j < |agents| && agents[j] == nodes[k];
    }
    forall k | k in ParentLinks(nodes) ensures ParentLinks(nodes)[k] in nodes {
      var j :| 0 <= j < |agents| && agents[j] == nodes[k];
      assert ParentError(Index(agents), agents[j]).None?;
    }
  }

  /** Children by parent, in the order the agents come. */
  method ChildrenByParent(agents: seq<AgentNode>) returns (childrenOf: map<Id, seq<Id>>)
    requires IdentitiesUnique(agents)
    ensures ChildLists(ParentLinks(Index(agents)), childrenOf)
  {
    childrenOf := map[];
    for n := 0 to |agents|
      invariant ChildLists(ParentLinks(Index(agents[..n])), childrenOf)
    {
      IndexStep(agents, n);
      var nodes := Index(agents[..n]);
      if agents[n].parent.Some? {
        AddKidLists(ParentLinks(nodes), childrenOf, agents[n].parent.value, agents[n].id);
        childrenOf := AddKid(childrenOf, agents[n].parent.value, agents[n].id);
      }
      LinkOneMore(nodes, agents[n]);
    }
    TakeAll(agents);
  }

  lemma LinkOneMore(nodes: map<Id, AgentNode>, n: AgentNode)
    requires n.id !in nodes
    ensures ParentLinks(nodes[n.id := n])
            == if n.parent.Some? then ParentLinks(nodes)[n.id := n.parent.value] else ParentLinks(nodes)
  {
  }

  method SortChildren(links: map<Id, Id>, before: map<Id, seq<Id>>, le: (Id, Id) -> bool)
    returns (childrenOf: map<Id, seq<Id>>)
    requires ChildLists(links, before) && TotalOrder(le, links.Keys)
    ensures ChildLists(links, childrenOf) && AllSorted(childrenOf, le)
  {
    childrenOf := before;
    var todo := before.Keys;
    while todo != {}
      invariant childrenOf.Keys == before.Keys && todo <= before.Keys
      invariant ChildLists(links, childrenOf)
      invariant forall p :: p in childrenOf && p !in todo ==> Sorted(le, childrenOf[p])
      decreases |todo|
    {
      var p :| p in todo;
      KidsOf(links, childrenOf, p);
      var sorted := SortBy(childrenOf[p], le);
      SortedOnce(links, childrenOf, p, sorted);
      childrenOf := childrenOf[p := sorted];
      todo := todo - {p};
    }
  }

  lemma SortedOnce(links: map<Id, Id>, childrenOf: map<Id, seq<Id>>, p: Id, sorted: seq<Id>)
    requires ChildLists(links, childrenOf) && p in childrenOf && Lists(sorted, Elements(childrenOf[p]))
    ensures ChildLists(links, childrenOf[p := sorted])
  {
    var next := childrenOf[p := sorted];
    forall q ensures Distinct(Kids(next, q)) {
      assert Distinct(Kids(childrenOf, q));
    }
    forall q, c ensures c in Kids(next, q) <==> c in links && links[c] == q {
      assert c in Kids(childrenOf, q) <==> c in links && links[c] == q;
      assert c in sorted <==> c in Elements(childrenOf[p]);
    }
  }

  ghost predicate AllSorted(childrenOf: map<Id, seq<Id>>, le: (Id, Id) -> bool) {
    forall p :: p in childrenOf ==> Sorted(le, childrenOf[p])
  }

  // ----- groups -----

  /** `cards` is `base` and then the listing's cards, all anchored to one project. */
  ghost predicate Shows(nodes: map<Id, AgentNode>, base: seq<Seed>, ids: seq<Id>, project: Option<string>,
                        cards: seq<Seed>) {
    (forall i :: 0 <= i < |ids| ==> ids[i] in nodes) && cards == base + SeedsOf(nodes, ids, project)
  }

  lemma ShowsOne(nodes: map<Id, AgentNode>, base: seq<Seed>, ids: seq<Id>, project: Option<string>, cards: seq<Seed>,
                 k: Id)
    requires Shows(nodes, base, ids, project, cards) && k in nodes
    ensures Shows(nodes, base, ids + [k], project, cards + [SeedOf(nodes[k], project)])
  {
    assert SeedsOf(nodes, ids + [k], project) == SeedsOf(nodes, ids, project) + [SeedOf(nodes[k], project)];
  }

  /** Append a node's descendants, depth first. */
  method AppendChildren(ghost links: map<Id, Id>, nodes: map<Id, AgentNode>, childrenOf: map<Id, seq<Id>>, parent: Id,
                        project: Option<string>, ghost base: seq<Seed>, cards0: seq<Seed>, ghost ids0: seq<Id>)
    returns (cards: seq<Seed>, ghost ids: seq<Id>)
    requires IsForest(links) && ChildLists(links, childrenOf) && links.Keys <= nodes.Keys
    requires Shows(nodes, base, ids0, project, cards0)
    ensures Listed(links, childrenOf, parent, |Kids(childrenOf, parent)|, ids0, ids)
    ensures Shows(nodes, base, ids, project, cards)
    decreases |Subtree(links, parent)|, 0
  {
    cards, ids := cards0, ids0;
    var children := Kids(childrenOf, parent);
    for n := 0 to |children|
      invariant Listed(links, childrenOf, parent, n, ids0, ids)
      invariant Shows(nodes, base, ids, project, cards)
    {
      PushChild(links, childrenOf, parent, n, ids0, ids);
      cards, ids := AppendCard(links, nodes, childrenOf, children[n], project, base, cards, ids);
    }
  }

  /** Push one card and everything below it. */
  method AppendCard(ghost links: map<Id, Id>, nodes: map<Id, AgentNode>, childrenOf: map<Id, seq<Id>>, k: Id,
                    project: Option<string>, ghost base: seq<Seed>, cards0: seq<Seed>, ghost ids0: seq<Id>)
    returns (cards: seq<Seed>, ghost ids: seq<Id>)
    requires IsForest(links) && ChildLists(links, childrenOf) && links.Keys <= nodes.Keys
    requires Shows(nodes, base, ids0, project, cards0) && k in nodes
    ensures ids == ids0 + Tree(links, childrenOf, k) && Shows(nodes, base, ids, project, cards)
    decreases |Subtree(links, k)|, 1
  {
    ShowsOne(nodes, base, ids0, project, cards0, k);
    cards, ids := AppendChildren(links, nodes, childrenOf, k, project, base,
                                 cards0 + [SeedOf(nodes[k], project)], ids0 + [k]);
    AllPushed(links, childrenOf, k, ids0, ids);
  }

  // ----- the grouped order -----

  /** How the board lays the agents out: children lists, primaries, and orphans. */
  datatype Layout = Layout(childrenOf: map<Id, seq<Id>>, primaries: seq<Id>, orphans: seq<Id>)

  predicate IsPrimary(n: AgentNode) {
    n.role == Primary && n.facts.logicalSlot.Some?
  }

  predicate IsOrphan(n: AgentNode) {
    n.role == Subagent && n.parent.None?
  }

  predicate AgentSlotLeq(nodes: map<Id, AgentNode>, a: Id, b: Id) {
    a in nodes && b in nodes && nodes[a].facts.logicalSlot.Some? && nodes[b].facts.logicalSlot.Some?
    && nodes[a].facts.logicalSlot.value <= nodes[b].facts.logicalSlot.value
  }

  ghost predicate LayoutOk(nodes: map<Id, AgentNode>, le: (Id, Id) -> bool, d: Layout) {
    && ChildLists(ParentLinks(nodes), d.childrenOf) && AllSorted(d.childrenOf, le)
    && Lists(d.primaries, set k | k in nodes && IsPrimary(nodes[k]))
    && Sorted((a, b) => AgentSlotLeq(nodes, a, b), d.primaries)
    && Lists(d.orphans, set k | k in nodes && IsOrphan(nodes[k])) && Sorted(le, d.orphans)
  }

  /** A primary's card, then its descendants anchored to its project. */
  ghost predicate GroupRight(nodes: map<Id, AgentNode>, links: map<Id, Id>, childrenOf: map<Id, seq<Id>>, r: Id,
                             g: Group)
    requires IsForest(links) && ChildLists(links, childrenOf)
  {
    && !g.orphanTail && r in nodes && KidsInside(links, childrenOf, r)
    && Shows(nodes, [SeedOf(nodes[r], None)], Branches(links, childrenOf, r, Kids(childrenOf, r)),
             nodes[r].facts.project, g.cards)
  }

  ghost predicate KidsInside(links: map<Id, Id>, childrenOf: map<Id, seq<Id>>, parent: Id) {
    forall c :: c in Kids(childrenOf, parent) ==> c in links && links[c] == parent
  }

  /** The tail block: every orphan and its descendants, anchored to no project. */
  ghost predicate TailRight(nodes: map<Id, AgentNode>, links: map<Id, Id>, childrenOf: map<Id, seq<Id>>,
                            orphans: seq<Id>, g: Group)
    requires IsForest(links) && ChildLists(links, childrenOf)
  {
    g.orphanTail && Shows(nodes, [], Grove(links, childrenOf, orphans), None, g.cards)
  }

  ghost predicate GroupsRight(nodes: map<Id, AgentNode>, links: map<Id, Id>, d: Layout, groups: seq<Group>)
    requires IsForest(links) && ChildLists(links, d.childrenOf)
  {
    && |groups| == |d.primaries| + (if d.orphans == [] then 0 else 1)
    && (forall i :: 0 <= i < |d.primaries| ==> GroupRight(nodes, links, d.childrenOf, d.primaries[i], groups[i]))
    && (d.orphans != [] ==> TailRight(nodes, links, d.childrenOf, d.orphans, groups[|d.primaries|]))
  }

  method PickAgents(agents: seq<AgentNode>, p: AgentNode -> bool) returns (ids: seq<Id>)
    requires IdentitiesUnique(agents)
    ensures Distinct(ids)
    ensures forall k :: k in ids <==> exists i :: 0 <= i < |agents| && agents[i].id == k && p(agents[i])
  {
    ids := [];
    for n := 0 to |agents|
      invariant Distinct(ids)
      invariant forall k :: k in ids <==> exists i :: 0 <= i < n && agents[i].id == k && p(agents[i])
    {
      if p(agents[n]) {
        assert agents[n].id !in ids;
        ids := ids + [agents[n].id];
      }
    }
  }

  lemma PickedNodes(agents: seq<AgentNode>, nodes: map<Id, AgentNode>, links: map<Id, Id>, p: AgentNode -> bool,
                    ids: seq<Id>)
    requires Graph(agents, nodes, links) && Distinct(ids)
    requires forall k :: k in ids <==> exists i :: 0 <= i < |agents| && agents[i].id == k && p(agents[i])
    ensures Lists(ids, set k | k in nodes && p(nodes[k]))
  {
    IndexMembers(agents);
    forall k | k in nodes && p(nodes[k]) ensures k in ids {
      var i :| 0 <= i < |agents| && agents[i] == nodes[k];
    }
  }

  method LayOut(agents: seq<AgentNode>, le: (Id, Id) -> bool) returns (d: Layout)
    requires GraphOk(agents) && TotalOrder(le, Index(agents).Keys)
    ensures LayoutOk(Index(agents), le, d)
  {
    AcceptedGraph(agents);
    var nodes := Index(agents);
    var children := ChildrenByParent(agents);
    children := SortChildren(ParentLinks(nodes), children, le);
    var primaries := PickAgents(agents, IsPrimary);
    PickedNodes(agents, nodes, ParentLinks(nodes), IsPrimary, primaries);
    var orphans := PickAgents(agents, IsOrphan);
    PickedNodes(agents, nodes, ParentLinks(nodes), IsOrphan, orphans);
    primaries := SortBy(primaries, (a, b) => AgentSlotLeq(nodes, a, b));
    orphans := SortBy(orphans, le);
    d := Layout(children, primaries, orphans);
  }

  method PrimaryGroup(ghost links: map<Id, Id>, nodes: map<Id, AgentNode>, childrenOf: map<Id, seq<Id>>, r: Id)
    returns (g: Group)
    requires IsForest(links) && ChildLists(links, childrenOf) && links.Keys <= nodes.Keys && r in nodes
    ensures GroupRight(nodes, links, childrenOf, r, g)
  {
    var head := [SeedOf(nodes[r], None)];
    assert Shows(nodes, head, [], nodes[r].facts.project, head);
    var cards; ghost var ids;
    cards, ids := AppendChildren(links, nodes, childrenOf, r, nodes[r].facts.project, head, head, []);
    KidsOf(links, childrenOf, r);
    TakeAll(Kids(childrenOf, r));
    assert ids == Branches(links, childrenOf, r, Kids(childrenOf, r));
    g := Group(cards, false);
  }

  method TailGroup(ghost links: map<Id, Id>, nodes: map<Id, AgentNode>, childrenOf: map<Id, seq<Id>>, orphans: seq<Id>)
    returns (g: Group)
    requires IsForest(links) && ChildLists(links, childrenOf) && links.Keys <= nodes.Keys
    requires forall i :: 0 <= i < |orphans| ==> orphans[i] in nodes
    ensures TailRight(nodes, links, childrenOf, orphans, g)
  {
    var cards: seq<Seed> := [];
    ghost var ids: seq<Id> := [];
    for n := 0 to |orphans|
      invariant ids == Grove(links, childrenOf, orphans[..n]) && Shows(nodes, [], ids, None, cards)
    {
      TakeStep(orphans, n);
      GroveSnoc(links, childrenOf, orphans[..n], orphans[n]);
      cards, ids := AppendCard(links, nodes, childrenOf, orphans[n], None, [], cards, ids);
    }
    TakeAll(orphans);
    g := Group(cards, true);
  }

  /** The groups lay the agents out by slot, by the given order, and by parentage. */
  ghost predicate Grouped(agents: seq<AgentNode>, le: (Id, Id) -> bool, groups: seq<Group>)
    requires GraphOk(agents)
  {
    exists d :: LayoutOk(Index(agents), le, d) && GroupsRight(Index(agents), ParentLinks(Index(agents)), d, groups)
  }

  /** The board's order of an accepted graph. */
  method GroupedAgentOrder(agents: seq<AgentNode>, le: (Id, Id) -> bool) returns (groups: seq<Group>)
    requires GraphOk(agents) && TotalOrder(le, Index(agents).Keys)
    ensures Grouped(agents, le, groups)
  {
    AcceptedGraph(agents);
    var nodes := Index(agents);
    var layout := LayOut(agents, le);
    ghost var d := layout;
    assert forall i :: 0 <= i < |d.primaries| ==> d.primaries[i] in d.primaries;
    assert forall i :: 0 <= i < |d.orphans| ==> d.orphans[i] in d.orphans;
    groups := [];
    for n := 0 to |layout.primaries|
      invariant |groups| == n
      invariant forall i :: 0 <= i < n ==>
                  GroupRight(nodes, ParentLinks(nodes), d.childrenOf, d.primaries[i], groups[i])
    {
      var g := PrimaryGroup(ParentLinks(nodes), nodes, layout.childrenOf, layout.primaries[n]);
      groups := groups + [g];
    }
    if layout.orphans != [] {
      var tail := TailGroup(ParentLinks(nodes), nodes, layout.childrenOf, layout.orphans);
      groups := groups + [tail];
    }
    assert GroupsRight(nodes, ParentLinks(nodes), d, groups);
  }

  // ----- what the order amounts to -----

  function IdsOf(g: Group): (ids: seq<Id>)
    ensures |ids| == |g.cards| && forall i :: 0 <= i < |ids| ==> ids[i] == g.cards[i].node.id
  {
    seq(|g.cards|, i requires 0 <= i < |g.cards| => g.cards[i].node.id)
  }

  function AllIds(groups: seq<Group>): seq<Id> {
    if groups == [] then [] else AllIds(groups[..|groups| - 1]) + IdsOf(groups[|groups| - 1])
  }

  lemma ShownIds(nodes: map<Id, AgentNode>, base: seq<Seed>, ids: seq<Id>, project: Option<string>, g: Group,
                 baseIds: seq<Id>)
    requires Shows(nodes, base, ids, project, g.cards) && forall k :: k in nodes ==> nodes[k].id == k
    requires |base| == |baseIds| && forall i :: 0 <= i < |base| ==> base[i].node.id == baseIds[i]
    ensures IdsOf(g) == baseIds + ids
  {
  }

  lemma GroupIds(nodes: map<Id, AgentNode>, links: map<Id, Id>, childrenOf: map<Id, seq<Id>>, r: Id, g: Group)
    requires IsForest(links) && ChildLists(links, childrenOf) && forall k :: k in nodes ==> nodes[k].id == k
    requires GroupRight(nodes, links, childrenOf, r, g)
    ensures IdsOf(g) == Tree(links, childrenOf, r)
  {
    ShownIds(nodes, [SeedOf(nodes[r], None)], Branches(links, childrenOf, r, Kids(childrenOf, r)),
             nodes[r].facts.project, g, [r]);
  }

  lemma TailIds(nodes: map<Id, AgentNode>, links: map<Id, Id>, childrenOf: map<Id, seq<Id>>, orphans: seq<Id>, g: Group)
    requires IsForest(links) && ChildLists(links, childrenOf) && forall k :: k in nodes ==> nodes[k].id == k
    requires TailRight(nodes, links, childrenOf, orphans, g)
    ensures IdsOf(g) == Grove(links, childrenOf, orphans)
  {
    ShownIds(nodes, [], Grove(links, childrenOf, orphans), None, g, []);
  }

  lemma AllIdsStep(groups: seq<Group>, n: nat)
    requires n < |groups|
    ensures AllIds(groups[..n + 1]) == AllIds(groups[..n]) + IdsOf(groups[n])
  {
    assert groups[..n + 1][..n] == groups[..n];
  }

  lemma {:induction false} PrimaryIds(nodes: map<Id, AgentNode>, links: map<Id, Id>, d: Layout, groups: seq<Group>,
                                      n: nat)
    requires IsForest(links) && ChildLists(links, d.childrenOf) && forall k :: k in nodes ==> nodes[k].id == k
    requires GroupsRight(nodes, links, d, groups) && n <= |d.primaries|
    ensures AllIds(groups[..n]) == Grove(links, d.childrenOf, d.primaries[..n])
  {
    if n > 0 {
      PrimaryIds(nodes, links, d, groups, n - 1);
      GroupIds(nodes, links, d.childrenOf, d.primaries[n - 1], groups[n - 1]);
      TakeStep(d.primaries, n - 1);
      AllIdsStep(groups, n - 1);
      GroveSnoc(links, d.childrenOf, d.primaries[..n - 1], d.primaries[n - 1]);
    }
  }

  lemma LaidOutIds(nodes: map<Id, AgentNode>, links: map<Id, Id>, d: Layout, groups: seq<Group>)
    requires IsForest(links) && ChildLists(links, d.childrenOf) && forall k :: k in nodes ==> nodes[k].id == k
    requires GroupsRight(nodes, links, d, groups)
    ensures AllIds(groups) == Grove(links, d.childrenOf, d.primaries + d.orphans)
  {
    var n := |d.primaries|;
    PrimaryIds(nodes, links, d, groups, n);
    TakeAll(d.primaries);
    TakeAll(groups);
    GroveJoin(links, d.childrenOf, d.primaries, d.orphans);
    if d.orphans != [] {
      TailIds(nodes, links, d.childrenOf, d.orphans, groups[n]);
      assert groups[..|groups| - 1] == groups[..n];
    }
  }

  /** The heads of the groups are exactly the agents without a parent. */
  lemma HeadsExactly(agents: seq<AgentNode>, le: (Id, Id) -> bool, d: Layout)
    requires GraphOk(agents) && LayoutOk(Index(agents), le, d)
    ensures Distinct(d.primaries + d.orphans)
    ensures forall r :: r in d.primaries + d.orphans <==> r in Index(agents) && r !in ParentLinks(Index(agents))
  {
    AcceptedGraph(agents);
    var nodes := Index(agents);
    ConcatLists(d.primaries, d.orphans,
                (set k | k in nodes && IsPrimary(nodes[k])), (set k | k in nodes && IsOrphan(nodes[k])));
  }

  /** Every agent is on the board exactly once. */
  lemma EveryAgentOnce(agents: seq<AgentNode>, le: (Id, Id) -> bool, d: Layout, groups: seq<Group>)
    requires GraphOk(agents) && LayoutOk(Index(agents), le, d)
    requires GroupsRight(Index(agents), ParentLinks(Index(agents)), d, groups)
    ensures Lists(AllIds(groups), Index(agents).Keys)
  {
    AcceptedGraph(agents);
    var nodes, links := Index(agents), ParentLinks(Index(agents));
    HeadsExactly(agents, le, d);
    LaidOutIds(nodes, links, d, groups);
    GroveLists(links, d.childrenOf, d.primaries + d.orphans);
    GroveCovers(links, d.primaries + d.orphans, nodes.Keys);
  }

  /** A primary's group: the primary first, and every other card after its own parent's card. */
  lemma PrimaryGroupOrder(agents: seq<AgentNode>, le: (Id, Id) -> bool, d: Layout, groups: seq<Group>, g: nat)
    requires GraphOk(agents) && LayoutOk(Index(agents), le, d)
    requires GroupsRight(Index(agents), ParentLinks(Index(agents)), d, groups) && g < |d.primaries|
    ensures ParentEarlier(ParentLinks(Index(agents)), IdsOf(groups[g]), [d.primaries[g]])
    ensures IdsOf(groups[g]) != [] && IdsOf(groups[g])[0] == d.primaries[g]
  {
    AcceptedGraph(agents);
    var nodes, links := Index(agents), ParentLinks(Index(agents));
    GroupIds(nodes, links, d.childrenOf, d.primaries[g], groups[g]);
    TreeLists(links, d.childrenOf, d.primaries[g]);
  }

  /** The tail block: every card but an orphan comes after its own parent's card. */
  lemma TailGroupOrder(agents: seq<AgentNode>, le: (Id, Id) -> bool, d: Layout, groups: seq<Group>)
    requires GraphOk(agents) && LayoutOk(Index(agents), le, d)
    requires GroupsRight(Index(agents), ParentLinks(Index(agents)), d, groups) && d.orphans != []
    ensures ParentEarlier(ParentLinks(Index(agents)), IdsOf(groups[|d.primaries|]), d.orphans)
  {
    AcceptedGraph(agents);
    var nodes, links := Index(agents), ParentLinks(Index(agents));
    TailIds(nodes, links, d.childrenOf, d.orphans, groups[|d.primaries|]);
    HeadsExactly(agents, le, d);
    assert forall r :: r in d.orphans ==> r in d.primaries + d.orphans;
    GroveLists(links, d.childrenOf, d.orphans);
  }

  /** A card shows its agent; only native children are for display only, and only a primary's family has a project. */
  ghost predicate ShowsAgent(nodes: map<Id, AgentNode>, g: Group, i: nat)
    requires i < |g.cards|
  {
    var c := g.cards[i];
    && c.node.id in nodes && c.node == nodes[c.node.id]
    && (c.subagent <==> c.node.role == Subagent) && (c.displayOnly <==> c.node.lineage == Some(Native))
    && c.pendingResults == c.node.facts.pendingResults
    && c.parentProject == if g.orphanTail || i == 0 then None else g.cards[0].node.facts.project
  }

  /** Every card of every group shows its agent. */
  lemma CardsShowAgents(agents: seq<AgentNode>, le: (Id, Id) -> bool, groups: seq<Group>, g: nat, i: nat)
    requires GraphOk(agents) && Grouped(agents, le, groups) && g < |groups| && i < |groups[g].cards|
    ensures ShowsAgent(Index(agents), groups[g], i)
    ensures groups[g].orphanTail <==> groups[g].cards[0].node.role == Subagent
  {
    AcceptedGraph(agents);
    var nodes, links := Index(agents), ParentLinks(Index(agents));
    var d :| LayoutOk(nodes, le, d) && GroupsRight(nodes, links, d, groups);
    if g < |d.primaries| {
      PrimaryShows(nodes, links, d.childrenOf, d.primaries[g], groups[g], i);
      assert d.primaries[g] in d.primaries;
    } else {
      assert TailRight(nodes, links, d.childrenOf, d.orphans, groups[g]);
      TailShows(nodes, links, d, groups[g], i);
    }
  }

  lemma PrimaryShows(nodes: map<Id, AgentNode>, links: map<Id, Id>, childrenOf: map<Id, seq<Id>>, r: Id, g: Group,
                     i: nat)
    requires IsForest(links) && ChildLists(links, childrenOf) && GroupRight(nodes, links, childrenOf, r, g)
    requires i < |g.cards| && forall k :: k in nodes ==> nodes[k].id == k
    ensures ShowsAgent(nodes, g, i) && !g.orphanTail && g.cards[0].node == nodes[r]
  {
  }

  lemma TailShows(nodes: map<Id, AgentNode>, links: map<Id, Id>, d: Layout, g: Group, i: nat)
    requires IsForest(links) && ChildLists(links, d.childrenOf) && d.orphans != []
    requires TailRight(nodes, links, d.childrenOf, d.orphans, g)
    requires forall k :: k in d.orphans ==> k in nodes && IsOrphan(nodes[k])
    requires i < |g.cards| && forall k :: k in nodes ==> nodes[k].id == k
    ensures ShowsAgent(nodes, g, i) && g.orphanTail && g.cards[0].node.role == Subagent
  {
    assert d.orphans[0] in d.orphans;
    assert Grove(links, d.childrenOf, d.orphans)[0] == d.orphans[0];
  }

  // ----- pages -----

  datatype Spine = Bare | Mid | End

  datatype SpinedSeed = SpinedSeed(seed: Seed, indent: bool, spine: Spine)

  function WithSpines(group: Group): (s: seq<SpinedSeed>)
    ensures |s| == |group.cards| && forall i :: 0 <= i < |s| ==> s[i].seed == group.cards[i]
    ensures forall i :: 0 <= i < |s| ==> (s[i].indent <==> group.cards[i].subagent && !group.orphanTail)
    ensures forall i :: 0 <= i < |s| ==> (s[i].spine == Bare <==> !s[i].indent) && (s[i].spine == End ==> i == |s| - 1)
    ensures s != [] && s[|s| - 1].indent ==> s[|s| - 1].spine == End
  {
    seq(|group.cards|, i requires 0 <= i < |group.cards| =>
      var grouped := group.cards[i].subagent && !group.orphanTail;
      SpinedSeed(group.cards[i], grouped, if !grouped then Bare else if i == |group.cards| - 1 then End else Mid))
  }

  function Spined(groups: seq<Group>): seq<seq<SpinedSeed>> {
    seq(|groups|, i requires 0 <= i < |groups| => WithSpines(groups[i]))
  }

  datatype BoardResult = BoardResult(currentPage: nat, dirty: bool, pages: seq<Page<SpinedSeed>>)

  /**
   * A board right for its agents: the pages of their groups, and the stored page among them; `None` is an
   * unreadable setting.
   */
  ghost predicate Reduced(agents: seq<AgentNode>, le: (Id, Id) -> bool, stored: Option<nat>,
                          board: BoardResult, groups: seq<Group>)
    requires GraphOk(agents)
  {
    && Grouped(agents, le, groups)
    && |board.pages| == (if agents == [] then 1 else (|agents| + 11) / 12)
    && (agents != [] ==> BoardRight(board.pages, Spined(groups)))
    && Restored(stored, board)
  }

  /** The stored page, clamped; a page that cannot be read or shown is to be persisted anew. */
  ghost predicate Restored(stored: Option<nat>, board: BoardResult) {
    && board.currentPage < |board.pages|
    && (stored.Some? && stored.value < |board.pages| ==> board.currentPage == stored.value && !board.dirty)
    && (stored.Some? && stored.value >= |board.pages| ==> board.currentPage == |board.pages| - 1 && board.dirty)
    && (stored.None? ==> board.currentPage == 0 && board.dirty)
  }

  method Restore(pages: seq<Page<SpinedSeed>>, stored: Option<nat>) returns (board: BoardResult)
    requires pages != []
    ensures board.pages == pages && Restored(stored, board)
  {
    var restored := if stored.Some? then stored.value else 0;
    var currentPage := if restored < |pages| then restored else |pages| - 1;
    board := BoardResult(currentPage, stored.None? || restored != currentPage, pages);
  }

  /** Group, mark, pack, and restore the page the user was on. */
  method ReduceBoard(agents: seq<AgentNode>, le: (Id, Id) -> bool, stored: Option<nat>)
    returns (board: BoardResult)
    requires GraphOk(agents) && TotalOrder(le, Index(agents).Keys)
    ensures exists groups :: Reduced(agents, le, stored, board, groups)
  {
    var grouped := GroupedAgentOrder(agents, le);
    var packed := PackBoard(Spined(grouped));
    CardCount(agents, le, grouped);
    var pages := if |packed| > 0 then packed else [Blank()];
    board := Restore(pages, stored);
    assert Reduced(agents, le, stored, board, grouped);
  }

  lemma {:induction false} SpinedCount(groups: seq<Group>, spined: seq<seq<SpinedSeed>>)
    requires |spined| == |groups| && forall i :: 0 <= i < |groups| ==> |spined[i]| == |groups[i].cards|
    ensures |Flat(spined)| == |AllIds(groups)|
  {
    if groups != [] {
      SpinedCount(groups[..|groups| - 1], spined[..|groups| - 1]);
    }
  }

  /** As many cards as agents. */
  lemma CardCount(agents: seq<AgentNode>, le: (Id, Id) -> bool, groups: seq<Group>)
    requires GraphOk(agents) && Grouped(agents, le, groups)
    ensures |Flat(Spined(groups))| == |agents|
  {
    var d :| LayoutOk(Index(agents), le, d) && GroupsRight(Index(agents), ParentLinks(Index(agents)), d, groups);
    SpinedCount(groups, Spined(groups));
    EveryAgentOnce(agents, le, d, groups);
    ListingSize(AllIds(groups), Index(agents).Keys);
    IndexSize(agents);
  }

  lemma IndexSize(agents: seq<AgentNode>)
    requires IdentitiesUnique(agents)
    ensures |Index(agents)| == |agents|
  {
    IndexMembers(agents);
    var ids := seq(|agents|, i requires 0 <= i < |agents| => agents[i].id);
    forall k | k in Index(agents).Keys ensures k in ids {
      var i :| 0 <= i < |agents| && agents[i] == Index(agents)[k];
      assert ids[i] == k;
    }
    forall k | k in ids ensures k in Index(agents).Keys {
      var i :| 0 <= i < |ids| && ids[i] == k;
      assert agents[i].id in Index(agents);
    }
    ListingSize(ids, Index(agents).Keys);
    assert |Index(agents)| == |Index(agents).Keys|;
  }

  /** What a jump makes of the reduced board: the target clamped, marked for persisting when it moves. */
  ghost predicate Jumped(base: BoardResult, page: int, board: BoardResult) {
    && board.pages == base.pages && board.currentPage < |board.pages|
    && (0 <= page < |base.pages| ==> board.currentPage == page)
    && (page < 0 ==> board.currentPage == 0)
    && (page >= |base.pages| ==> board.currentPage == |base.pages| - 1)
    && (board.dirty <==> base.dirty || board.currentPage != base.currentPage)
  }

  /** A page jump reduces the view as it stands and then moves. */
  method JumpBoard(agents: seq<AgentNode>, le: (Id, Id) -> bool, stored: Option<nat>, page: int)
    returns (board: BoardResult)
    requires GraphOk(agents) && TotalOrder(le, Index(agents).Keys)
    ensures exists base, groups :: Reduced(agents, le, stored, base, groups) && Jumped(base, page, board)
  {
    var base := ReduceBoard(agents, le, stored);
    var clamped := if page < 0 then 0 else if page < |base.pages| then page else |base.pages| - 1;
    if clamped == base.currentPage {
      board := base;
    } else {
      board := BoardResult(clamped, true, base.pages);
    }
    assert Jumped(base, page, board);
  }
}
