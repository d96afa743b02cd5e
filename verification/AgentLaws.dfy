/** What the agent list of a snapshot shows, and in which order, read off the published nodes and the rows. */
module AgentLaws {
  import opened Common
  import opened Forest
  import opened Sorting
  import opened Walks
  import opened Preorder
  import opened Schema
  import opened ProjectionSpec
  import opened ProjectionLaws
  import opened Snapshot
  import opened PublishedLaws
  import opened Protocol
  import opened Pipeline

  // ----- which rows are shown, and as what -----

  lemma AgentsListed(t: Table, order: seq<Id>)
    requires TopologyOk(t) && IsRootOrder(t, order)
    ensures ViewOk(ViewOf(t)) && AgentsAre(t, order)
    ensures Lists(AgentIds(ViewOf(t), order), Published(ViewOf(t)))
  {
    ViewOfOk(t);
    ListedInTable(ViewOf(t), order);
    AgentsListPublished(ViewOf(t), order);
  }

  /** The agents are the published nodes, in the listed order. */
  ghost predicate AgentsAre(t: Table, order: seq<Id>)
    requires TopologyOk(t) && IsRootOrder(t, order) && ViewOk(ViewOf(t))
  {
    var v, agents := ViewOf(t), ProjectionOf(t, order).agents;
    && IsForest(GraphLinks(v)) && |agents| == |AgentIds(v, order)|
    && forall i :: 0 <= i < |agents| ==>
         var k := AgentIds(v, order)[i]; k in t && agents[i] == NodeOf(v, k) && agents[i].id == k
  }

  ghost predicate Appears(agents: seq<AgentNode>, k: Id) {
    exists i :: 0 <= i < |agents| && agents[i].id == k
  }

  lemma ListedAppear(agents: seq<AgentNode>, ids: seq<Id>, nodes: set<Id>)
    requires |agents| == |ids| && (forall i :: 0 <= i < |ids| ==> agents[i].id == ids[i]) && Lists(ids, nodes)
    ensures IdentitiesUnique(agents) && forall k :: Appears(agents, k) <==> k in nodes
  {
    forall k ensures Appears(agents, k) <==> k in nodes {
      if k in nodes {
        var i :| 0 <= i < |ids| && ids[i] == k;
        assert agents[i].id == k;
      }
      if Appears(agents, k) {
        var i :| 0 <= i < |agents| && agents[i].id == k;
        assert ids[i] in ids;
      }
    }
  }

  /** The agents are the cards and the native rows below them, each once. */
  lemma AgentsExactly(t: Table, order: seq<Id>)
    requires TopologyOk(t) && IsRootOrder(t, order)
    ensures var p := ProjectionOf(t, order);
            IdentitiesUnique(p.agents)
            && forall k :: Appears(p.agents, k) <==> k in t && exists r :: r in Cards(p) && Below(NativeLinks(t), k, r)
  {
    var v, p := ViewOf(t), ProjectionOf(t, order);
    AgentsListed(t, order);
    CardIds(t, order);
    ListedAppear(p.agents, AgentIds(v, order), Published(v));
    forall k ensures Appears(p.agents, k) <==> k in t && exists r :: r in Cards(p) && Below(NativeLinks(t), k, r) {
      PublishedBelow(v, k);
    }
  }

  lemma PublishedBelow(v: View, k: Id)
    requires ViewOk(v)
    ensures k in Published(v) <==> k in v.t && exists r :: r in VisibleRoots(v) && Below(NativeLinks(v.t), k, r)
  {
    if k in v.t {
      BelowTop(NativeLinks(v.t), k);
      TopIsRoot(v.t, k);
      if r :| r in VisibleRoots(v) && Below(NativeLinks(v.t), k, r) {
        TopUnique(NativeLinks(v.t), k, r);
      }
    }
  }

  /** A root's node repeats its card; a native node shows its row and nothing of a card's. */
  ghost predicate NodeShowsRow(t: Table, sessions: seq<Session>, n: AgentNode) {
    && n.id in t && n.openedAt == t[n.id].openedAt
    && if t[n.id].parent.Some? then NativeShows(t[n.id], n) else RootShows(t, sessions, n)
  }

  ghost predicate NativeShows(row: Row, n: AgentNode)
    requires row.parent.Some?
  {
    && n.role == Subagent && n.lineage == Some(Native) && n.parent == Some(Id(n.id.provider, row.parent.value))
    && CopiesRow(n.facts, row) && BareNativeFacts(n.facts)
  }

  ghost predicate RootShows(t: Table, sessions: seq<Session>, n: AgentNode)
    requires n.id in t
  {
    && (exists i :: 0 <= i < |sessions| && sessions[i].id == n.id && n.facts == sessions[i].facts)
    && (if t[n.id].originKind == Some(Paseo) && t[n.id].originSubagent
        then n.role == Subagent && n.lineage == Some(PaseoLineage)
        else n.role == Primary && n.lineage == None)
    && n.parent == if n.id in PaseoLinks(t) then Some(PaseoLinks(t)[n.id]) else None
  }

  lemma NodesPublished(t: Table, order: seq<Id>)
    requires TopologyOk(t) && IsRootOrder(t, order)
    ensures var p := ProjectionOf(t, order);
            forall i :: 0 <= i < |p.agents| ==> NodeShowsRow(t, p.sessions, p.agents[i])
  {
    var v, p := ViewOf(t), ProjectionOf(t, order);
    AgentsListed(t, order);
    forall i | 0 <= i < |p.agents| ensures NodeShowsRow(t, p.sessions, p.agents[i]) {
      assert AgentIds(v, order)[i] in AgentIds(v, order);
      NodePublished(t, order, AgentIds(v, order)[i]);
    }
  }

  lemma NodePublished(t: Table, order: seq<Id>, k: Id)
    requires TopologyOk(t) && IsRootOrder(t, order) && ViewOk(ViewOf(t)) && k in Published(ViewOf(t))
    ensures NodeShowsRow(t, ProjectionOf(t, order).sessions, NodeOf(ViewOf(t), k))
  {
    var v, sessions := ViewOf(t), ProjectionOf(t, order).sessions;
    if t[k].parent.Some? {
      NativeNodeShows(k, t[k], NativeStatus(t, k));
    } else {
      var i := CardOfRoot(t, order, k);
      RootNodeShows(v, k, sessions, i);
    }
  }

  lemma NativeNodeShows(k: Id, row: Row, status: Status)
    requires row.parent.Some?
    ensures var n := NativeNode(k, row, status); n.id == k && n.openedAt == row.openedAt && NativeShows(row, n)
  {
  }

  lemma RootNodeShows(v: View, r: Id, sessions: seq<Session>, i: nat)
    requires ViewOk(v) && v.links == PaseoLinks(v.t) && IsRoot(v.t, r)
    requires i < |sessions| && sessions[i].id == r && sessions[i].facts == FactsOfRoot(v, r)
    ensures NodeOf(v, r).id == r && NodeOf(v, r).openedAt == v.t[r].openedAt && RootShows(v.t, sessions, NodeOf(v, r))
  {
  }

  lemma CardOfRoot(t: Table, order: seq<Id>, r: Id) returns (i: nat)
    requires TopologyOk(t) && IsRootOrder(t, order) && ViewOk(ViewOf(t)) && r in Published(ViewOf(t)) && IsRoot(t, r)
    ensures i < |ProjectionOf(t, order).sessions|
    ensures ProjectionOf(t, order).sessions[i].id == r
    ensures ProjectionOf(t, order).sessions[i].facts == FactsOfRoot(ViewOf(t), r)
  {
    var v, p := ViewOf(t), ProjectionOf(t, order);
    CardIds(t, order);
    ListedInTable(v, order);
    assert Top(NativeLinks(t), r) == r;
    assert r in Cards(p);
    i :| 0 <= i < |p.sessions| && p.sessions[i].id == r;
    assert p.sessions[i] == SessionOf(v, VisibleIds(v, order)[i]);
  }

  // ----- the order -----

  /** The name a provider goes by. */
  function Name(p: Provider): string {
    match p
    case Claude => "claude"
    case Codex => "codex"
    case Kimi => "kimi"
    case Pi => "pi"
    case Omp => "omp"
    case Zcode => "zcode"
    case Deepseek => "deepseek"
    case Grok => "grok"
    case Qwen => "qwen"
    case Evener => "evener"
  }

  /** `a` comes before `b` in the dictionary, or is the same word. */
  ghost predicate Alphabetical(a: string, b: string) {
    a <= b || exists i :: 0 <= i < |a| && i < |b| && a[..i] == b[..i] && a[i] < b[i]
  }

  /** Opened earlier, or at the same time under an earlier provider, or under the same one with an earlier id. */
  ghost predicate Elder(a: AgentNode, b: AgentNode) {
    || a.openedAt < b.openedAt
    || (a.openedAt == b.openedAt && a.id.provider != b.id.provider
        && Alphabetical(Name(a.id.provider), Name(b.id.provider)))
    || (a.openedAt == b.openedAt && a.id.provider == b.id.provider && Alphabetical(a.id.session, b.id.session))
  }

  lemma {:induction false} StringOrderAlphabetical(a: string, b: string)
    ensures StringLeq(a, b) <==> Alphabetical(a, b)
  {
    if a != "" && b != "" {
      StringOrderAlphabetical(a[1..], b[1..]);
      assert a == [a[0]] + a[1..] && b == [b[0]] + b[1..];
      forall i | 0 < i < |a| && i < |b| && a[..i] == b[..i] ensures a[0] == b[0] {
        assert a[..i][0] == a[0] && b[..i][0] == b[0];
      }
      if a[0] == b[0] {
        if i :| 0 <= i < |a| && i < |b| && a[..i] == b[..i] && a[i] < b[i] {
          assert a[1..][..i - 1] == a[..i][1..] && b[1..][..i - 1] == b[..i][1..];
        }
        if i :| 0 <= i < |a[1..]| && i < |b[1..]| && a[1..][..i] == b[1..][..i] && a[1..][i] < b[1..][i] {
          assert a[..i + 1] == [a[0]] + a[1..][..i] && b[..i + 1] == [b[0]] + b[1..][..i];
        }
      } else if a[0] < b[0] {
        assert a[..0] == b[..0];
      }
    } else if a == "" {
      assert a <= b;
    }
  }

  lemma ProvidersAlphabetical(p: Provider, q: Provider)
    requires ProviderRank(p) < ProviderRank(q)
    ensures Alphabetical(Name(p), Name(q))
  {
    var a, b := Name(p), Name(q);
    if a[0] < b[0] {
      assert a[..0] == b[..0];
    } else {
      assert a[..1] == b[..1] && a[1] < b[1];
    }
  }

  ghost function Identities(agents: seq<AgentNode>): (ids: seq<Id>)
    ensures |ids| == |agents| && forall i :: 0 <= i < |ids| ==> ids[i] == agents[i].id
  {
    seq(|agents|, i requires 0 <= i < |agents| => agents[i].id)
  }

  /** Depth first; siblings, and roots without a slot, by age; primaries first and by slot. */
  ghost predicate ReadingOrder(agents: seq<AgentNode>)
    requires IsForest(ParentLinks(Index(agents)))
  {
    && DepthFirst(ParentLinks(Index(agents)), Identities(agents))
    && forall i, j :: 0 <= i < j < |agents| && agents[i].parent == agents[j].parent ==> InTurn(agents[i], agents[j])
  }

  /** One of two agents with the same parent, or with none, before the other. */
  ghost predicate InTurn(a: AgentNode, b: AgentNode) {
    if a.parent.Some? || b.role == Subagent then a.role == Primary || Elder(a, b)
    else a.role == Primary && a.facts.logicalSlot.Some? && b.facts.logicalSlot.Some?
         && a.facts.logicalSlot.value <= b.facts.logicalSlot.value
  }

  lemma AgeIsElder(a: AgentNode, b: AgentNode)
    requires AgentLeq(a.openedAt, a.id, b.openedAt, b.id)
    ensures Elder(a, b)
  {
    StringOrderAlphabetical(a.id.session, b.id.session);
    if a.id.provider != b.id.provider && a.openedAt == b.openedAt {
      ProvidersAlphabetical(a.id.provider, b.id.provider);
    }
  }

  lemma SortedPrecedes(le: (Id, Id) -> bool, xs: seq<Id>, x: Id, y: Id)
    requires Sorted(le, xs) && Precedes(xs, x, y)
    ensures le(x, y)
  {
  }

  /** Published siblings are in age order. */
  lemma SiblingsInTurn(v: View, a: Id, b: Id)
    requires ViewOk(v) && a in Published(v) && b in Published(v)
    requires Siblings(GraphLinks(v), a, b) && Precedes(Kids(SortedKids(v), GraphLinks(v)[a]), a, b)
    ensures Elder(NodeOf(v, a), NodeOf(v, b))
  {
    SortedKidsInOrder(v);
    SortedPrecedes(AgentOrder(v.t), Kids(SortedKids(v), GraphLinks(v)[a]), a, b);
    NodeParses(v, a);
    NodeParses(v, b);
    NodeAge(v, a);
    NodeAge(v, b);
    AgeIsElder(NodeOf(v, a), NodeOf(v, b));
  }

  lemma NodeAge(v: View, k: Id)
    requires ViewOk(v) && k in v.t
    ensures NodeOf(v, k).openedAt == v.t[k].openedAt
  {
  }

  lemma RootNodeKind(v: View, r: Id)
    requires ViewOk(v) && r in v.final
    ensures NodeOf(v, r).role == if IsPaseoSubagent(v.t[r]) then Subagent else Primary
    ensures r !in v.links ==> NodeOf(v, r).parent == None
    ensures NodeOf(v, r).facts.logicalSlot == v.t[r].slot
  {
  }

  lemma PrimaryInTurn(v: View, a: Id, b: Id)
    requires ViewOk(v) && a in v.final && b in v.final && !IsPaseoSubagent(v.t[a])
    requires b !in v.links && (IsPaseoSubagent(v.t[b]) || SlotLeq(v.t, a, b))
    ensures InTurn(NodeOf(v, a), NodeOf(v, b)) && NodeOf(v, a).parent == None
  {
    RootNodeKind(v, a);
    RootNodeKind(v, b);
  }

  lemma OrphanInTurn(v: View, a: Id, b: Id)
    requires ViewOk(v) && a in v.final && b in v.final && a !in v.links && b !in v.links
    requires IsPaseoSubagent(v.t[b]) && AgentOrder(v.t)(a, b)
    ensures InTurn(NodeOf(v, a), NodeOf(v, b)) && NodeOf(v, a).parent == None
  {
    RootNodeKind(v, a);
    RootNodeKind(v, b);
    NodeParses(v, a);
    NodeParses(v, b);
    NodeAge(v, a);
    NodeAge(v, b);
    AgeIsElder(NodeOf(v, a), NodeOf(v, b));
  }

  /** Published heads are in turn: primaries by slot, then the others by age. */
  lemma HeadsInTurn(v: View, order: seq<Id>, a: Id, b: Id)
    requires ViewOk(v) && IsRootOrder(v.t, order) && Precedes(GraphRoots(v, order), a, b)
    ensures a in v.final && b in v.final && InTurn(NodeOf(v, a), NodeOf(v, b)) && NodeOf(v, a).parent == None
  {
    var primaries, orphans := Filter(order, IsPrimaryCard(v)), SortedIds(v.t, OrphanRoots(v));
    FilterSorted(SlotOrder(v.t), order, IsPrimaryCard(v));
    var i, j :| 0 <= i < j < |primaries + orphans| && (primaries + orphans)[i] == a && (primaries + orphans)[j] == b;
    HeadMembers(v, primaries, orphans, i);
    HeadMembers(v, primaries, orphans, j);
    if i < |primaries| {
      assert j < |primaries| ==> SlotOrder(v.t)(primaries[i], primaries[j]);
      PrimaryInTurn(v, a, b);
    } else {
      assert AgentOrder(v.t)(orphans[i - |primaries|], orphans[j - |primaries|]);
      OrphanInTurn(v, a, b);
    }
  }

  lemma HeadMembers(v: View, primaries: seq<Id>, orphans: seq<Id>, i: nat)
    requires ViewOk(v) && (forall r :: r in primaries ==> IsPrimaryCard(v)(r)) && Lists(orphans, OrphanRoots(v))
    requires i < |primaries + orphans|
    ensures var r := (primaries + orphans)[i];
            r in v.final && r !in v.links && (IsPaseoSubagent(v.t[r]) <==> i >= |primaries|)
  {
    if i < |primaries| {
      assert primaries[i] in primaries;
    } else {
      assert orphans[i - |primaries|] in orphans;
    }
  }

  /** The agents are listed in reading order. */
  lemma OrderPublished(t: Table, order: seq<Id>)
    requires TopologyOk(t) && IsRootOrder(t, order)
    ensures var agents := ProjectionOf(t, order).agents;
            IsForest(ParentLinks(Index(agents))) && ReadingOrder(agents)
  {
    var v, agents := ViewOf(t), ProjectionOf(t, order).agents;
    AgentsListed(t, order);
    var ids := AgentIds(v, order);
    ListingShape(v, order);
    PublishedLinksAre(v, ids, agents);
    assert Identities(agents) == ids;
    forall i, j | 0 <= i < j < |agents| && agents[i].parent == agents[j].parent ensures InTurn(agents[i], agents[j]) {
      AgentsInTurn(v, order, ids, i, j);
    }
  }

  lemma ListingShape(v: View, order: seq<Id>)
    requires ViewOk(v) && IsRootOrder(v.t, order) && IsForest(GraphLinks(v))
    ensures DepthFirst(GraphLinks(v), AgentIds(v, order))
    ensures SiblingsInOrder(GraphLinks(v), SortedKids(v), AgentIds(v, order))
    ensures HeadsInOrder(GraphLinks(v), GraphRoots(v, order), AgentIds(v, order))
  {
    GraphRootsExactly(v, order);
    GroveShape(GraphLinks(v), SortedKids(v), GraphRoots(v, order));
    GroveHeads(GraphLinks(v), SortedKids(v), GraphRoots(v, order));
  }

  lemma PublishedLinksAre(v: View, ids: seq<Id>, agents: seq<AgentNode>)
    requires ViewOk(v) && Lists(ids, Published(v)) && (forall i :: 0 <= i < |ids| ==> ids[i] in v.t)
    requires |agents| == |ids| && forall i :: 0 <= i < |ids| ==> agents[i] == NodeOf(v, ids[i])
    ensures ParentLinks(Index(agents)) == GraphLinks(v)
  {
    IndexedNodes(v, ids);
    PublishedLinks(v);
    assert agents == NodesFor(v, ids);
  }

  lemma AgentsInTurn(v: View, order: seq<Id>, ids: seq<Id>, i: nat, j: nat)
    requires ViewOk(v) && IsRootOrder(v.t, order) && Lists(ids, Published(v))
    requires SiblingsInOrder(GraphLinks(v), SortedKids(v), ids)
    requires HeadsInOrder(GraphLinks(v), GraphRoots(v, order), ids)
    requires i < j < |ids| && ids[i] in v.t && ids[j] in v.t && NodeOf(v, ids[i]).parent == NodeOf(v, ids[j]).parent
    ensures InTurn(NodeOf(v, ids[i]), NodeOf(v, ids[j]))
  {
    assert ids[i] in ids && ids[j] in ids;
    NodeParent(v, ids[i]);
    NodeParent(v, ids[j]);
    if ids[i] in GraphLinks(v) {
      assert Siblings(GraphLinks(v), ids[i], ids[j]);
      SiblingsInTurn(v, ids[i], ids[j]);
    } else {
      HeadsInTurn(v, order, ids[i], ids[j]);
    }
  }
}
