/** What the projection puts out: the visible cards, the nodes of the agent graph, and their preorder. */
module ProjectionOutput {
  import opened Common
  import opened Forest
  import opened Walks
  import opened Sorting
  import opened Preorder
  import opened Schema
  import opened ProjectionSpec
  import opened NativePass
  import opened Projection

  /** Every root's rolled-up facts. */
  ghost predicate CardsRight(v: View, cards: map<Id, Tally>)
    requires LineageOk(v)
  {
    && cards.Keys == v.final.Keys
    && forall r :: r in v.final ==> cards[r] == CardOf(v, r)
  }

  ghost function CardOf(v: View, r: Id): Tally
    requires LineageOk(v) && r in v.final
  {
    Tally(PendingResults(v, r), AggregatedUnread(v, r), AggregatedDone(v, r))
  }

  method RollUpAll(v: View, order: seq<Id>) returns (cards: map<Id, Tally>)
    requires LineageOk(v) && Lists(order, v.final.Keys)
    ensures CardsRight(v, cards)
  {
    var paseoChildren := ListChildren(v.links);
    cards := map[];
    for n := 0 to |order|
      invariant CardsSoFar(v, order, n, cards)
    {
      assert order[n] in order;
      var tally := RollUp(v, paseoChildren, order[n]);
      CardsStep(v, order, n, cards, tally);
      cards := cards[order[n] := tally];
    }
    CardsComplete(v, order, cards);
  }

  ghost predicate CardsSoFar(v: View, order: seq<Id>, n: nat, cards: map<Id, Tally>)
    requires LineageOk(v)
  {
    && n <= |order| && (forall i :: 0 <= i < n ==> order[i] in cards)
    && (forall r :: r in cards ==> r in v.final && cards[r] == CardOf(v, r))
  }

  lemma CardsComplete(v: View, order: seq<Id>, cards: map<Id, Tally>)
    requires LineageOk(v) && Lists(order, v.final.Keys) && CardsSoFar(v, order, |order|, cards)
    ensures CardsRight(v, cards)
  {
    KeysCovered(order, v.final.Keys, cards.Keys);
  }

  lemma KeysCovered<K(!new)>(order: seq<K>, keys: set<K>, have: set<K>)
    requires Lists(order, keys) && have <= keys && forall i :: 0 <= i < |order| ==> order[i] in have
    ensures have == keys
  {
    assert forall k :: k in keys ==> k in order;
  }

  lemma CardsStep(v: View, order: seq<Id>, n: nat, cards: map<Id, Tally>, tally: Tally)
    requires LineageOk(v) && n < |order| && CardsSoFar(v, order, n, cards)
    requires order[n] in v.final && tally == CardOf(v, order[n])
    ensures CardsSoFar(v, order, n + 1, cards[order[n] := tally])
  {
  }

  predicate ShowsCard(v: View, holders: set<Id>, r: Id)
    requires r in v.final && r in v.t
  {
    if v.final[r] != Idle then true
    else if IsPaseoSubagent(v.t[r]) && r in v.links then false
    else HoldsLedger(v.t[r]) || r in holders
  }

  /** The roots that get a card, in slot order. */
  method VisibleInOrder(v: View, order: seq<Id>, holders: set<Id>) returns (visible: seq<Id>)
    requires LineageOk(v) && Lists(order, v.final.Keys)
    requires forall a :: a in holders <==> HasDescendantLedger(v, a)
    ensures visible == Filter(order, IsCard(v))
  {
    ghost var p := IsCard(v);
    visible := [];
    for n := 0 to |order|
      invariant visible == Filter(order[..n], p)
    {
      assert order[n] in order;
      FilterSnoc(order[..n], order[n], p);
      assert order[..n + 1] == order[..n] + [order[n]];
      if ShowsCard(v, holders, order[n]) {
        visible := visible + [order[n]];
      }
    }
    assert order[..|order|] == order;
  }

  function SessionRecord(t: Table, final: map<Id, Status>, cards: map<Id, Tally>, results: map<Id, NodeResult>,
                         r: Id): Session
    requires r in t && r in final && r in cards && r in results
  {
    Session(r, RootRecord(t[r], final[r], cards[r].unread, cards[r].done, cards[r].pending), results[r].descendantCount)
  }

  method PublishSessions(t: Table, final: map<Id, Status>, cards: map<Id, Tally>, results: map<Id, NodeResult>,
                         visible: seq<Id>)
    returns (sessions: seq<Session>)
    requires forall i :: 0 <= i < |visible| ==>
               visible[i] in t && visible[i] in final && visible[i] in cards && visible[i] in results
    ensures |sessions| == |visible|
    ensures forall i :: 0 <= i < |visible| ==> sessions[i] == SessionRecord(t, final, cards, results, visible[i])
  {
    sessions := [];
    for n := 0 to |visible|
      invariant |sessions| == n
      invariant forall i :: 0 <= i < n ==> sessions[i] == SessionRecord(t, final, cards, results, visible[i])
    {
      sessions := sessions + [SessionRecord(t, final, cards, results, visible[n])];
    }
  }

  // ----- nodes -----

  function RootNodeRecord(v: View, cards: map<Id, Tally>, r: Id): AgentNode
    requires r in v.t && r in v.final && r in cards
  {
    RootNode(r, v.t[r], RootRecord(v.t[r], v.final[r], cards[r].unread, cards[r].done, cards[r].pending),
             if r in v.links then Some(v.links[r]) else None)
  }

  method PublishRootNodes(v: View, cards: map<Id, Tally>, visible: seq<Id>) returns (nodes: map<Id, AgentNode>)
    requires forall i :: 0 <= i < |visible| ==> visible[i] in v.t && visible[i] in v.final && visible[i] in cards
    ensures forall k :: k in nodes <==> k in visible
    ensures forall k :: k in nodes ==> k in v.t && k in v.final && k in cards && nodes[k] == RootNodeRecord(v, cards, k)
  {
    nodes := map[];
    for n := 0 to |visible|
      invariant forall k :: k in nodes <==> k in visible[..n]
      invariant forall k :: k in nodes ==>
                  k in v.t && k in v.final && k in cards && nodes[k] == RootNodeRecord(v, cards, k)
    {
      assert visible[..n + 1] == visible[..n] + [visible[n]];
      nodes := nodes[visible[n] := RootNodeRecord(v, cards, visible[n])];
    }
    assert visible[..|visible|] == visible;
  }

  predicate ShowsNative(t: Table, cards: set<Id>, rootOf: map<Id, Id>, k: Id) {
    k in t && t[k].parent.Some? && k in rootOf && rootOf[k] in cards
  }

  method PublishNativeNodes(t: Table, before: map<Id, AgentNode>, nativeOrder: seq<Id>, rootOf: map<Id, Id>,
                            results: map<Id, NodeResult>)
    returns (nodes: map<Id, AgentNode>)
    requires Lists(nativeOrder, t.Keys) && results.Keys == t.Keys
    requires forall k :: k in t ==> k in rootOf
    requires forall k :: k in before ==> k in t && t[k].parent.None?
    ensures forall k :: k in nodes <==> k in before || ShowsNative(t, before.Keys, rootOf, k)
    ensures forall k :: k in before ==> nodes[k] == before[k]
    ensures forall k :: k in nodes && k !in before ==>
              ShowsNative(t, before.Keys, rootOf, k) && nodes[k] == NativeNode(k, t[k], results[k].effectiveStatus)
  {
    nodes := before;
    for n := 0 to |nativeOrder|
      invariant forall i :: 0 <= i < n && ShowsNative(t, before.Keys, rootOf, nativeOrder[i]) ==>
                  nativeOrder[i] in nodes
      invariant forall k :: k in nodes && k !in before ==>
                  ShowsNative(t, before.Keys, rootOf, k) && nodes[k] == NativeNode(k, t[k], results[k].effectiveStatus)
      invariant forall k :: k in before ==> k in nodes && nodes[k] == before[k]
    {
      var k := nativeOrder[n];
      assert k in nativeOrder;
      if t[k].parent.Some? {
        if k !in rootOf || k !in results {
          assert false; // corrupt-row
        }
        if rootOf[k] in before {
          nodes := nodes[k := NativeNode(k, t[k], results[k].effectiveStatus)];
        }
      }
    }
    assert forall k :: ShowsNative(t, before.Keys, rootOf, k) ==> k in nativeOrder;
  }

  /** The graph the nodes' own parent fields describe. */
  function LinksOfNodes(nodes: map<Id, AgentNode>): map<Id, Id> {
    map k | k in nodes && nodes[k].parent.Some? :: nodes[k].parent.value
  }

  /** Children lists of the published graph; every parent is there. */
  method GraphChildren(nodes: map<Id, AgentNode>) returns (graphChildren: map<Id, seq<Id>>)
    requires forall k :: k in nodes && nodes[k].parent.Some? ==> nodes[k].parent.value in nodes
    ensures ChildLists(LinksOfNodes(nodes), graphChildren)
  {
    graphChildren := map[];
    var todo := nodes.Keys;
    ghost var links := LinksOfNodes(nodes);
    while todo != {}
      invariant todo <= nodes.Keys
      invariant ChildLists(links - todo, graphChildren)
      decreases |todo|
    {
      var k :| k in todo;
      if nodes[k].parent.Some? {
        var p := nodes[k].parent.value;
        if p !in nodes {
          assert false; // corrupt-row
        }
        AddKidLists(links - todo, graphChildren, p, k);
        assert (links - todo)[k := p] == links - (todo - {k});
        graphChildren := AddKid(graphChildren, p, k);
      } else {
        assert links - todo == links - (todo - {k});
      }
      todo := todo - {k};
    }
    assert links - {} == links;
  }

  // ----- preorder -----

  /** The nodes of a listing. */
  ghost function Pick(nodes: map<Id, AgentNode>, ids: seq<Id>): (s: seq<AgentNode>)
    requires forall i :: 0 <= i < |ids| ==> ids[i] in nodes
    ensures |s| == |ids| && forall i :: 0 <= i < |ids| ==> s[i] == nodes[ids[i]]
  {
    seq(|ids|, i requires 0 <= i < |ids| => nodes[ids[i]])
  }

  /** A graph over `nodes` with its children lists, and the same lists sorted. */
  ghost predicate GraphRight(links: map<Id, Id>, kids: map<Id, seq<Id>>, nodes: map<Id, AgentNode>,
                             graphChildren: map<Id, seq<Id>>, le: (Id, Id) -> bool) {
    && IsForest(links) && ChildLists(links, graphChildren) && ChildLists(links, kids)
    && (forall p {:trigger Kids(kids, p)} :: Sorted(le, Kids(kids, p)))
    && (forall c :: c in links ==> c in nodes)
    && TotalOrder(le, nodes.Keys) && Antisymmetric(le, nodes.Keys)
  }

  lemma KidsSorted(links: map<Id, Id>, kids: map<Id, seq<Id>>, nodes: map<Id, AgentNode>,
                   graphChildren: map<Id, seq<Id>>, le: (Id, Id) -> bool, p: Id)
    requires GraphRight(links, kids, nodes, graphChildren, le)
    ensures Distinct(Kids(graphChildren, p)) && TotalOrder(le, Elements(Kids(graphChildren, p)))
    ensures forall sorted :: Sorted(le, sorted) && Lists(sorted, Elements(Kids(graphChildren, p))) ==>
              sorted == Kids(kids, p)
  {
    KidsOf(links, kids, p);
    KidsOf(links, graphChildren, p);
    var s := Elements(Kids(graphChildren, p));
    assert forall x :: x in s ==> x in nodes.Keys;
    forall sorted | Sorted(le, sorted) && Lists(sorted, s) ensures sorted == Kids(kids, p) {
      SortedUnique(le, sorted, Kids(kids, p), s);
    }
  }

  /** The ids appended so far, as the pass tracks them. */
  ghost predicate Appended(nodes: map<Id, AgentNode>, ids: seq<Id>, keys: set<Id>, agents: seq<AgentNode>) {
    && (forall i :: 0 <= i < |ids| ==> ids[i] in nodes)
    && agents == Pick(nodes, ids) && keys == Elements(ids)
  }

  lemma AppendOne(nodes: map<Id, AgentNode>, ids: seq<Id>, keys: set<Id>, agents: seq<AgentNode>, k: Id)
    requires Appended(nodes, ids, keys, agents) && k in nodes
    ensures Appended(nodes, ids + [k], keys + {k}, agents + [nodes[k]])
  {
  }

  /** Append a node and, oldest first, its children's subtrees. */
  method AppendSubtree(ghost links: map<Id, Id>, ghost kids: map<Id, seq<Id>>, nodes: map<Id, AgentNode>,
                       graphChildren: map<Id, seq<Id>>, le: (Id, Id) -> bool, key: Id,
                       keys0: set<Id>, agents0: seq<AgentNode>, ghost ids0: seq<Id>)
    returns (keys: set<Id>, agents: seq<AgentNode>, ghost ids: seq<Id>)
    requires GraphRight(links, kids, nodes, graphChildren, le) && key in nodes
    requires Appended(nodes, ids0, keys0, agents0)
    requires forall x :: x in ids0 ==> !Below(links, x, key)
    ensures ids == ids0 + Tree(links, kids, key)
    ensures Appended(nodes, ids, keys, agents)
    decreases |Subtree(links, key)|, 1
  {
    if key in keys0 || key !in nodes {
      assert false; // corrupt-row
    }
    AppendOne(nodes, ids0, keys0, agents0, key);
    keys, agents, ids := keys0 + {key}, agents0 + [nodes[key]], ids0 + [key];
    KidsSorted(links, kids, nodes, graphChildren, le, key);
    var children := SortBy(Kids(graphChildren, key), le);
    keys, agents, ids := AppendChildren(links, kids, nodes, graphChildren, le, key, children, ids0, keys, agents);
    AllPushed(links, kids, key, ids0, ids);
  }

  method AppendChildren(ghost links: map<Id, Id>, ghost kids: map<Id, seq<Id>>, nodes: map<Id, AgentNode>,
                        graphChildren: map<Id, seq<Id>>, le: (Id, Id) -> bool, ghost key: Id, children: seq<Id>,
                        ghost before: seq<Id>, keys0: set<Id>, agents0: seq<AgentNode>)
    returns (keys: set<Id>, agents: seq<AgentNode>, ghost ids: seq<Id>)
    requires GraphRight(links, kids, nodes, graphChildren, le) && children == Kids(kids, key)
    requires Appended(nodes, before + [key], keys0, agents0)
    requires forall x :: x in before ==> !Below(links, x, key)
    ensures Listed(links, kids, key, |children|, before + [key], ids)
    ensures Appended(nodes, ids, keys, agents)
    decreases |Subtree(links, key)|, 0
  {
    keys, agents, ids := keys0, agents0, before + [key];
    for n := 0 to |children|
      invariant Listed(links, kids, key, n, before + [key], ids)
      invariant Appended(nodes, ids, keys, agents)
    {
      PushChild(links, kids, key, n, before + [key], ids);
      ChildFresh(links, kids, before, key, n, ids);
      keys, agents, ids := AppendSubtree(links, kids, nodes, graphChildren, le, children[n], keys, agents, ids);
    }
  }

  /** The next child is new to the output. */
  lemma ChildFresh(links: map<Id, Id>, kids: map<Id, seq<Id>>, ids0: seq<Id>, key: Id, n: nat, ids: seq<Id>)
    requires IsForest(links) && ChildLists(links, kids) && n < |Kids(kids, key)|
    requires forall x :: x in ids0 ==> !Below(links, x, key)
    requires Listed(links, kids, key, n, ids0 + [key], ids)
    ensures forall x :: x in ids ==> !Below(links, x, Kids(kids, key)[n])
  {
    var children := Kids(kids, key);
    var c, done := children[n], children[..n];
    KidsOf(links, kids, key);
    assert c in children;
    BranchesLists(links, kids, key, done);
    SiblingsApart(links, key, children);
    forall x | x in ids ensures !Below(links, x, c) {
      if x in ids0 {
        OldStaysOut(links, x, c);
      } else if x == key {
        OldStaysOut(links, key, c);
      } else {
        assert x in Branches(links, kids, key, done);
        var i :| 0 <= i < n && Below(links, x, done[i]);
        assert done[i] == children[i];
      }
    }
  }

  /** What is not below a node, or is the node itself, is not below its child. */
  lemma OldStaysOut(links: map<Id, Id>, x: Id, c: Id)
    requires IsForest(links) && c in links
    requires x == links[c] || !Below(links, x, links[c])
    ensures !Below(links, x, c)
  {
    if Below(links, x, c) {
      BelowTransitive(links, x, c, links[c]);
      BelowDepth(links, x, c);
    }
  }

  /** Append every root's subtree in turn. */
  method AppendRoots(ghost links: map<Id, Id>, ghost kids: map<Id, seq<Id>>, nodes: map<Id, AgentNode>,
                     graphChildren: map<Id, seq<Id>>, le: (Id, Id) -> bool, roots: seq<Id>)
    returns (agents: seq<AgentNode>)
    requires GraphRight(links, kids, nodes, graphChildren, le)
    requires Distinct(roots) && forall r :: r in roots ==> r in nodes && r !in links
    ensures forall i :: 0 <= i < |Grove(links, kids, roots)| ==> Grove(links, kids, roots)[i] in nodes
    ensures agents == Pick(nodes, Grove(links, kids, roots))
  {
    var keys: set<Id> := {};
    agents := [];
    ghost var ids: seq<Id> := [];
    for n := 0 to |roots|
      invariant ids == Grove(links, kids, roots[..n])
      invariant Appended(nodes, ids, keys, agents)
    {
      RootFresh(links, kids, roots, n);
      keys, agents, ids := AppendSubtree(links, kids, nodes, graphChildren, le, roots[n], keys, agents, ids);
      assert roots[..n + 1] == roots[..n] + [roots[n]];
      GroveSnoc(links, kids, roots[..n], roots[n]);
    }
    assert roots[..|roots|] == roots;
  }

  lemma RootFresh(links: map<Id, Id>, kids: map<Id, seq<Id>>, roots: seq<Id>, n: nat)
    requires IsForest(links) && ChildLists(links, kids) && n < |roots|
    requires Distinct(roots) && forall r :: r in roots ==> r !in links
    ensures roots[n] in roots
    ensures forall x :: x in Grove(links, kids, roots[..n]) ==> !Below(links, x, roots[n])
  {
    var done := roots[..n];
    forall r | r in done ensures r !in links {
      assert r in roots;
    }
    GroveLists(links, kids, done);
    RootsApart(links, roots);
    forall x | x in Grove(links, kids, done) ensures !Below(links, x, roots[n]) {
      var i :| 0 <= i < n && Below(links, x, done[i]);
      assert done[i] == roots[i];
    }
  }
}
