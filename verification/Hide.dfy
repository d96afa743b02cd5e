/** Dismissing an idle card and projecting again removes exactly that card from the snapshot. */
module Hide {
  import opened Common
  import opened Forest
  import opened Walks
  import opened Sorting
  import opened Preorder
  import opened Schema
  import opened RegistrySpec
  import opened ProjectionSpec
  import opened ProjectionLaws
  import opened Snapshot
  import opened CardGestures

  ghost function NotId(c: Id): Id -> bool {
    k => k != c
  }

  // ----- sessions -----

  lemma VisibleIdsAfter(v: View, w: View, c: Id, order: seq<Id>)
    requires Dismissed(v, w, c)
    ensures VisibleIds(w, order) == Filter(VisibleIds(v, order), NotId(c))
  {
    VisibleAfter(v, w, c);
    FilterNarrowed(order, IsCard(v), IsCard(w), NotId(c));
  }

  lemma SessionsFiltered(v: View, w: View, c: Id, ids: seq<Id>, left: seq<Id>)
    requires Dismissed(v, w, c) && left == Filter(ids, NotId(c))
    requires forall i :: 0 <= i < |ids| ==> ids[i] in v.final && Visible(v, ids[i])
    requires forall i :: 0 <= i < |left| ==> left[i] in w.final
    ensures SessionsFor(w, left) == Filter(SessionsFor(v, ids), (s: Session) => s.id != c)
  {
    var before, after := SessionsFor(v, ids), SessionsFor(w, left);
    forall i, j | 0 <= i < |ids| && 0 <= j < |left| && ids[i] == left[j] ensures after[j] == before[i] {
      FilterKept(ids, NotId(c), j);
      SessionSame(v, w, c, ids[i]);
    }
    RecordsFiltered(ids, before, left, after, NotId(c), (s: Session) => s.id != c);
  }

  /** Records kept per id are the filtered records. */
  lemma RecordsFiltered<R(!new)>(ids: seq<Id>, before: seq<R>, left: seq<Id>, after: seq<R>, p: Id -> bool,
                          q: R -> bool)
    requires |before| == |ids| && |after| == |left| && left == Filter(ids, p)
    requires forall i :: 0 <= i < |ids| ==> q(before[i]) == p(ids[i])
    requires forall i, j :: 0 <= i < |ids| && 0 <= j < |left| && ids[i] == left[j] ==> after[j] == before[i]
    ensures after == Filter(before, q)
  {
    FilterAligned(ids, before, p, q);
    forall j | 0 <= j < |left| ensures after[j] == Filter(before, q)[j] {
      assert SamePlace(ids, before, left[j], Filter(before, q)[j]);
    }
  }

  lemma FilterKept(ids: seq<Id>, p: Id -> bool, j: nat)
    requires j < |Filter(ids, p)|
    ensures p(Filter(ids, p)[j])
  {
    FilterSorted((a, b) => true, ids, p);
    assert Filter(ids, p)[j] in Filter(ids, p);
  }

  lemma SessionSame(v: View, w: View, c: Id, r: Id)
    requires Dismissed(v, w, c) && r in v.final && Visible(v, r) && r != c
    ensures SessionOf(w, r) == SessionOf(v, r)
  {
    VisibleAfter(v, w, c);
    SameLinks(v.t, w.t);
    SameNative(v.t, w.t, r);
  }

  // ----- the graph -----

  lemma PublishedAfter(v: View, w: View, c: Id)
    requires Dismissed(v, w, c)
    ensures forall k :: k in Published(w) <==> k in Published(v) && k != c
  {
    VisibleAfter(v, w, c);
    SameLinks(v.t, w.t);
    forall k | k in v.t && k != c ensures Top(NativeLinks(v.t), k) != c {
      BareTop(v.t, k, c);
    }
  }

  /** A root without native children is nobody else's top. */
  lemma {:induction false} BareTop(t: Table, k: Id, c: Id)
    requires TopologyOk(t) && k in t && k != c && NoNativeChild(t, c)
    ensures Top(NativeLinks(t), k) != c
    decreases Depth(NativeLinks(t), k)
  {
    if t[k].parent.Some? {
      BareTop(t, ParentId(k, t[k]), c);
    }
  }

  /** The dismissed card is no published edge's end. */
  lemma BareCard(v: View, w: View, c: Id, k: Id)
    requires Dismissed(v, w, c) && k in GraphLinks(v)
    ensures k != c && GraphLinks(v)[k] != c
  {
    if k in v.links && v.links[k] == c {
      assert Below(v.links, k, c);
      CascadeHidden(v, w, c, k);
      LinkedTop(v, k);
    }
  }

  /** The graph keeps all its edges. */
  lemma GraphLinksAfter(v: View, w: View, c: Id)
    requires Dismissed(v, w, c)
    ensures GraphLinks(w) == GraphLinks(v)
    ensures c !in GraphLinks(v) && forall k :: k in GraphLinks(v) ==> GraphLinks(v)[k] != c
  {
    forall k | k in GraphLinks(v) ensures k != c && GraphLinks(v)[k] != c {
      BareCard(v, w, c, k);
    }
    SameAllLinks(v, w, c);
    SameGraphLinks(v, w, c);
  }

  lemma SameGraphLinks(v: View, w: View, c: Id)
    requires Dismissed(v, w, c) && AllLinks(w) == AllLinks(v) && c !in GraphLinks(v)
    ensures GraphLinks(w) == GraphLinks(v)
  {
    PublishedAfter(v, w, c);
    SameRestriction(AllLinks(v), Published(v), Published(w), c);
  }

  lemma SameRestriction(links: map<Id, Id>, s: set<Id>, r: set<Id>, c: Id)
    requires c !in links || c !in s
    requires forall k :: k in r <==> k in s && k != c
    ensures (map k | k in links && k in r :: links[k]) == (map k | k in links && k in s :: links[k])
  {
  }

  lemma SameAllLinks(v: View, w: View, c: Id)
    requires Dismissed(v, w, c)
    ensures AllLinks(w) == AllLinks(v)
  {
    SameLinks(v.t, w.t);
  }

  lemma LinkedTop(v: View, k: Id)
    requires ViewOk(v) && k in v.final
    ensures k in Published(v) <==> Visible(v, k)
  {
    assert Top(NativeLinks(v.t), k) == k;
  }

  lemma NodeSame(v: View, w: View, c: Id, k: Id)
    requires Dismissed(v, w, c) && k in Published(v) && k != c
    ensures k in w.t && NodeOf(w, k) == NodeOf(v, k)
  {
    SameLinks(v.t, w.t);
    SameNative(v.t, w.t, k);
    if v.t[k].parent.None? {
      VisibleAfter(v, w, c);
      LinkedTop(v, k);
    }
  }

  // ----- order -----

  lemma SameAgentOrder(t: Table, u: Table, s: set<Id>)
    requires LedgersOnly(t, u)
    ensures SortedIds(u, s) == SortedIds(t, s)
  {
    AgentOrderTotal(t, s);
    var xs := SortedIds(u, s);
    forall i, j | 0 <= i < j < |xs| ensures AgentOrder(t)(xs[i], xs[j]) {
      assert AgentOrder(u)(xs[i], xs[j]);
      assert OpenedAt(u, xs[i]) == OpenedAt(t, xs[i]) && OpenedAt(u, xs[j]) == OpenedAt(t, xs[j]);
    }
    SortedUnique(AgentOrder(t), xs, SortedIds(t, s), s);
  }

  lemma SameKids(v: View, w: View, c: Id)
    requires Dismissed(v, w, c)
    ensures SortedKids(w) == SortedKids(v)
  {
    GraphLinksAfter(v, w, c);
    KidsByAgeSame(v.t, w.t, GraphLinks(v));
  }

  lemma KidsByAgeSame(t: Table, u: Table, links: map<Id, Id>)
    requires LedgersOnly(t, u)
    ensures KidsByAge(u, links) == KidsByAge(t, links)
  {
    var a, b := KidsByAge(u, links), KidsByAge(t, links);
    assert a.Keys == links.Values && b.Keys == links.Values;
    forall p | p in links.Values ensures a[p] == b[p] {
      SameAgentOrder(t, u, ChildSet(links, p));
    }
  }

  lemma OrphansAfter(v: View, w: View, c: Id)
    requires Dismissed(v, w, c)
    ensures SortedIds(w.t, OrphanRoots(w)) == Filter(SortedIds(v.t, OrphanRoots(v)), NotId(c))
  {
    OrphanSetAfter(v, w, c);
    SameAgentOrder(v.t, w.t, OrphanRoots(w));
    AgentOrderTotal(v.t, OrphanRoots(v));
    SortedFilter(AgentOrder(v.t), SortedIds(v.t, OrphanRoots(v)), SortedIds(v.t, OrphanRoots(w)), OrphanRoots(v),
                 NotId(c));
  }

  lemma OrphanSetAfter(v: View, w: View, c: Id)
    requires Dismissed(v, w, c)
    ensures OrphanRoots(w) == set x | x in OrphanRoots(v) && NotId(c)(x)
  {
    VisibleAfter(v, w, c);
  }

  lemma GraphRootsAfter(v: View, w: View, c: Id, order: seq<Id>)
    requires Dismissed(v, w, c)
    ensures GraphRoots(w, order) == Filter(GraphRoots(v, order), NotId(c))
  {
    VisibleAfter(v, w, c);
    OrphansAfter(v, w, c);
    FilterNarrowed(order, IsPrimaryCard(v), IsPrimaryCard(w), NotId(c));
    FilterConcat(Filter(order, IsPrimaryCard(v)), SortedIds(v.t, OrphanRoots(v)), NotId(c));
  }

  lemma LeafTree(links: map<Id, Id>, kids: map<Id, seq<Id>>, c: Id)
    requires IsForest(links) && ChildLists(links, kids)
    requires forall k :: k in links ==> links[k] != c
    ensures Tree(links, kids, c) == [c]
  {
    KidsOf(links, kids, c);
    HeadIn(Kids(kids, c));
  }

  /** Dropping a bare root drops exactly its own node from the grove. */
  lemma {:induction false} GroveDrops(links: map<Id, Id>, kids: map<Id, seq<Id>>, roots: seq<Id>, c: Id)
    requires IsForest(links) && ChildLists(links, kids)
    requires Distinct(roots) && forall r :: r in roots ==> r !in links
    requires c !in links && forall k :: k in links ==> links[k] != c
    ensures Grove(links, kids, Filter(roots, NotId(c))) == Filter(Grove(links, kids, roots), NotId(c))
  {
    if roots != [] {
      var r, rest := roots[0], roots[1..];
      GroveDrops(links, kids, rest, c);
      FilterConcat(Tree(links, kids, r), Grove(links, kids, rest), NotId(c));
      if r == c {
        LeafTree(links, kids, c);
        assert Filter([c], NotId(c)) == [];
      } else {
        TreeLists(links, kids, r);
        forall x | x in Tree(links, kids, r) ensures x != c {
          assert Below(links, x, r);
        }
        FilterAll(Tree(links, kids, r), NotId(c));
      }
    }
  }

  lemma NodesFiltered(v: View, w: View, c: Id, ids: seq<Id>, left: seq<Id>)
    requires Dismissed(v, w, c) && left == Filter(ids, NotId(c))
    requires forall i :: 0 <= i < |ids| ==> ids[i] in v.t
    requires forall i :: 0 <= i < |ids| ==> ids[i] in Published(v)
    requires forall i :: 0 <= i < |left| ==> left[i] in w.t
    ensures NodesFor(w, left) == Filter(NodesFor(v, ids), (n: AgentNode) => n.id != c)
  {
    NodesKept(v, w, c, ids, left);
    NodeIds(v, ids);
    RecordsFiltered(ids, NodesFor(v, ids), left, NodesFor(w, left), NotId(c), (n: AgentNode) => n.id != c);
  }

  lemma NodesKept(v: View, w: View, c: Id, ids: seq<Id>, left: seq<Id>)
    requires Dismissed(v, w, c) && left == Filter(ids, NotId(c))
    requires forall i :: 0 <= i < |ids| ==> ids[i] in v.t
    requires forall i :: 0 <= i < |ids| ==> ids[i] in Published(v)
    requires forall i :: 0 <= i < |left| ==> left[i] in w.t
    ensures forall i, j :: 0 <= i < |ids| && 0 <= j < |left| && ids[i] == left[j] ==>
              NodesFor(w, left)[j] == NodesFor(v, ids)[i]
  {
    forall i, j | 0 <= i < |ids| && 0 <= j < |left| && ids[i] == left[j]
      ensures NodesFor(w, left)[j] == NodesFor(v, ids)[i]
    {
      FilterKept(ids, NotId(c), j);
      NodeSame(v, w, c, ids[i]);
    }
  }

  lemma NodeIds(v: View, ids: seq<Id>)
    requires ViewOk(v) && forall i :: 0 <= i < |ids| ==> ids[i] in v.t
    ensures forall i :: 0 <= i < |ids| ==> NodesFor(v, ids)[i].id == ids[i]
  {
  }

  lemma AgentIdsAfter(v: View, w: View, c: Id, order: seq<Id>)
    requires Dismissed(v, w, c) && IsRootOrder(v.t, order)
    ensures IsForest(GraphLinks(v)) && IsForest(GraphLinks(w))
    ensures AgentIds(w, order) == Filter(AgentIds(v, order), NotId(c))
  {
    PublishedGraph(v);
    GraphLinksAfter(v, w, c);
    SameKids(v, w, c);
    GraphRootsAfter(v, w, c, order);
    GraphRootsExactly(v, order);
    GroveDrops(GraphLinks(v), SortedKids(v), GraphRoots(v, order), c);
  }

  /** The snapshot without one card. */
  ghost function Without(p: Projected, c: Id): Projected {
    Projected(Filter(p.sessions, (s: Session) => s.id != c), Filter(p.agents, (n: AgentNode) => n.id != c))
  }

  lemma SameRootOrder(t: Table, u: Table, order: seq<Id>)
    requires LedgersOnly(t, u) && IsRootOrder(t, order)
    ensures IsRootOrder(u, order)
  {
    forall i, j | 0 <= i < j < |order| ensures SlotOrder(u)(order[i], order[j]) {
      assert SlotOrder(t)(order[i], order[j]);
    }
  }

  /** The table after dismissing a card with the stamp it publishes. */
  ghost function AfterDismissal(t: Table, c: Id, at: Instant): Table
    requires TopologyOk(t) && c in TableView(t).final
  {
    AfterAck(t, c, at, Some(AggregatedUnread(TableView(t), c)))
  }

  lemma IdleCardDismissed(t: Table, c: Id, at: Instant)
    requires TopologyOk(t)
    requires c in TableView(t).final && Visible(TableView(t), c) && TableView(t).final[c] == Idle
    ensures var u := AfterDismissal(t, c, at);
            TopologyOk(u) && LedgersOnly(t, u) && Dismissed(TableView(t), TableView(u), c)
  {
    var u := AfterDismissal(t, c, at);
    IdleDismissal(t, c, at);
    SameView(t, u);
  }

  /** No published node hangs below an idle card. */
  lemma IdleCardBare(t: Table, c: Id)
    requires TopologyOk(t)
    requires c in TableView(t).final && Visible(TableView(t), c) && TableView(t).final[c] == Idle
    ensures c !in GraphLinks(TableView(t))
    ensures forall k :: k in GraphLinks(TableView(t)) ==> GraphLinks(TableView(t))[k] != c
  {
    IdleCardDismissed(t, c, 0);
    GraphLinksAfter(TableView(t), TableView(AfterDismissal(t, c, 0)), c);
  }

  /**
   * On an unchanged registry, dismissing an idle card with the stamp it
   * publishes and projecting again gives the earlier snapshot with exactly
   * that card removed.
   */
  lemma DismissalRemovesCard(t: Table, order: seq<Id>, c: Id, at: Instant)
    requires TopologyOk(t) && IsRootOrder(t, order)
    requires c in TableView(t).final && Visible(TableView(t), c) && TableView(t).final[c] == Idle
    ensures var u := AfterDismissal(t, c, at);
            TopologyOk(u) && IsRootOrder(u, order)
            && ProjectionOf(u, order) == Without(ProjectionOf(t, order), c)
  {
    var u := AfterDismissal(t, c, at);
    IdleCardDismissed(t, c, at);
    SameRootOrder(t, u, order);
    SessionsAfter(TableView(t), TableView(u), c, order);
    AgentsAfter(TableView(t), TableView(u), c, order);
  }

  lemma SessionsAfter(v: View, w: View, c: Id, order: seq<Id>)
    requires Dismissed(v, w, c) && IsRootOrder(v.t, order) && IsRootOrder(w.t, order)
    ensures forall i :: 0 <= i < |VisibleIds(v, order)| ==> VisibleIds(v, order)[i] in v.final
    ensures forall i :: 0 <= i < |VisibleIds(w, order)| ==> VisibleIds(w, order)[i] in w.final
    ensures SessionsFor(w, VisibleIds(w, order))
            == Filter(SessionsFor(v, VisibleIds(v, order)), (s: Session) => s.id != c)
  {
    VisibleInside(v, order);
    VisibleInside(w, order);
    VisibleIdsAfter(v, w, c, order);
    SessionsFiltered(v, w, c, VisibleIds(v, order), VisibleIds(w, order));
  }

  lemma VisibleInside(v: View, order: seq<Id>)
    requires ViewOk(v) && IsRootOrder(v.t, order)
    ensures forall i :: 0 <= i < |VisibleIds(v, order)| ==>
              VisibleIds(v, order)[i] in v.final && Visible(v, VisibleIds(v, order)[i])
  {
    VisibleIdsExactly(v, order);
    assert forall i :: 0 <= i < |VisibleIds(v, order)| ==> VisibleIds(v, order)[i] in VisibleRoots(v);
  }

  lemma AgentsInside(v: View, order: seq<Id>)
    requires ViewOk(v) && IsRootOrder(v.t, order)
    ensures IsForest(GraphLinks(v))
    ensures forall i :: 0 <= i < |AgentIds(v, order)| ==> AgentIds(v, order)[i] in Published(v)
    ensures forall i :: 0 <= i < |AgentIds(v, order)| ==> AgentIds(v, order)[i] in v.t
  {
    AgentsListPublished(v, order);
    forall i | 0 <= i < |AgentIds(v, order)| ensures AgentIds(v, order)[i] in Published(v) {
      assert AgentIds(v, order)[i] in AgentIds(v, order);
    }
  }

  lemma AgentsAfter(v: View, w: View, c: Id, order: seq<Id>)
    requires Dismissed(v, w, c) && IsRootOrder(v.t, order) && IsRootOrder(w.t, order)
    ensures IsForest(GraphLinks(v)) && IsForest(GraphLinks(w))
    ensures forall i :: 0 <= i < |AgentIds(v, order)| ==> AgentIds(v, order)[i] in v.t
    ensures forall i :: 0 <= i < |AgentIds(w, order)| ==> AgentIds(w, order)[i] in w.t
    ensures NodesFor(w, AgentIds(w, order)) == Filter(NodesFor(v, AgentIds(v, order)), (n: AgentNode) => n.id != c)
  {
    AgentsInside(v, order);
    AgentsInside(w, order);
    AgentIdsAfter(v, w, c, order);
    NodesFiltered(v, w, c, AgentIds(v, order), AgentIds(w, order));
  }
}
