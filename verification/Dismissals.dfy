/** Locally hidden cards: what is hidden, for how long, and what the filtered snapshot still promises. */
module Dismissals {
  import opened Common
  import opened Forest
  import opened Sorting
  import opened Schema
  import opened ProjectionSpec
  import opened ProjectionLaws
  import opened Snapshot
  import opened Protocol
  import opened Board
  import opened Hide
  import opened Pipeline

  const DISMISS_TTL_MS: int := 5000

  /** A hidden card: when the hide lapses, and the unread stamp its gesture consumed. */
  datatype Dismissal = Dismissal(expiresAt: int, watermark: Option<Instant>)

  /** Older daemons publish no agent graph. */
  datatype Shown = Shown(sessions: seq<Session>, agents: Option<seq<AgentNode>>)

  function AgentsOf(s: Shown): seq<AgentNode> {
    if s.agents.Some? then s.agents.value else []
  }

  /** The snapshot publishes the card with a result newer than its gesture consumed. */
  predicate SurfacedNewerResult(s: Shown, k: Id, watermark: Option<Instant>) {
    || (exists i :: 0 <= i < |s.sessions| && s.sessions[i].id == k && Newer(s.sessions[i].facts.unreadSince, watermark))
    || (exists i :: 0 <= i < |AgentsOf(s)| && AgentsOf(s)[i].id == k
                    && Newer(AgentsOf(s)[i].facts.unreadSince, watermark))
  }

  predicate StillHidden(d: Dismissal, s: Shown, k: Id, nowMs: int) {
    nowMs < d.expiresAt && !SurfacedNewerResult(s, k, d.watermark)
  }

  /** The cards a snapshot arriving now leaves hidden. */
  function LiveKeys(dismissals: map<Id, Dismissal>, s: Shown, nowMs: int): set<Id> {
    set k | k in dismissals && StillHidden(dismissals[k], s, k, nowMs)
  }

  function Restrict(dismissals: map<Id, Dismissal>, keys: set<Id>): map<Id, Dismissal> {
    map k | k in dismissals && k in keys :: dismissals[k]
  }

  /** A card of the snapshot shows an unread stamp later than the one the gesture had seen. */
  ghost predicate ShowsLater(s: Shown, k: Id, seen: Option<Instant>) {
    || (exists i :: 0 <= i < |s.sessions| && s.sessions[i].id == k && LaterThan(s.sessions[i].facts.unreadSince, seen))
    || (s.agents.Some? && exists i :: 0 <= i < |s.agents.value| && s.agents.value[i].id == k
                                      && LaterThan(s.agents.value[i].facts.unreadSince, seen))
  }

  predicate LaterThan(stamp: Option<Instant>, seen: Option<Instant>) {
    stamp.Some? && (seen.Some? ==> stamp.value > seen.value)
  }

  /** A dismissed card stays hidden until its time is up or the snapshot shows a result it had not. */
  lemma HiddenExactly(dismissals: map<Id, Dismissal>, s: Shown, nowMs: int, k: Id)
    ensures k in LiveKeys(dismissals, s, nowMs)
            <==> k in dismissals && nowMs < dismissals[k].expiresAt && !ShowsLater(s, k, dismissals[k].watermark)
  {
    var seen := if k in dismissals then dismissals[k].watermark else None;
    assert forall stamp :: LaterThan(stamp, seen) <==> Newer(stamp, seen);
    if s.agents.Some? {
      assert AgentsOf(s) == s.agents.value;
      if i :| 0 <= i < |AgentsOf(s)| && AgentsOf(s)[i].id == k && Newer(AgentsOf(s)[i].facts.unreadSince, seen) {
        assert LaterThan(s.agents.value[i].facts.unreadSince, seen);
      }
      if i :| 0 <= i < |s.agents.value| && s.agents.value[i].id == k
               && LaterThan(s.agents.value[i].facts.unreadSince, seen) {
        assert Newer(AgentsOf(s)[i].facts.unreadSince, seen);
      }
    }
  }

  // ----- the one-pass filter -----

  predicate Drops(active: set<Id>, dropped: set<Id>, n: AgentNode) {
    n.id in active || (n.parent.Some? && n.parent.value in dropped)
  }

  /** The agents kept and the identities dropped by one pass in list order. */
  ghost function Pass(agents: seq<AgentNode>, active: set<Id>): (seq<AgentNode>, set<Id>) {
    if agents == [] then ([], {})
    else
      var (kept, dropped) := Pass(agents[..|agents| - 1], active);
      var n := agents[|agents| - 1];
      if Drops(active, dropped, n) then (kept, dropped + {n.id}) else (kept + [n], dropped)
  }

  /** The snapshot with the active cards hidden. */
  ghost function Hiding(s: Shown, active: set<Id>): Shown {
    if active == {} then s
    else
      var (kept, dropped) := Pass(AgentsOf(s), active);
      Shown(Filter(s.sessions, IsHeld(active + dropped)), if s.agents.Some? then Some(kept) else None)
  }

  ghost function IsHeld(gone: set<Id>): Session -> bool {
    (s: Session) => s.id !in gone
  }

  method SelectLive(entries: map<Id, Dismissal>, s: Shown, nowMs: int)
    returns (active: set<Id>, left: map<Id, Dismissal>)
    ensures active == LiveKeys(entries, s, nowMs)
    ensures left == Restrict(entries, active)
  {
    active, left := {}, entries;
    var todo := entries.Keys;
    ghost var live := LiveKeys(entries, s, nowMs);
    while todo != {}
      invariant todo <= entries.Keys
      invariant Sifted(entries, live, todo, active, left)
      decreases |todo|
    {
      var k :| k in todo;
      SiftOne(entries, live, todo, active, left, k);
      if StillHidden(entries[k], s, k, nowMs) {
        active := active + {k};
      } else {
        left := Restrict(left, active + (todo - {k}));
      }
      todo := todo - {k};
    }
  }

  /** Of the entries looked at, the live ones are active and left; the others are gone. */
  ghost predicate Sifted(entries: map<Id, Dismissal>, live: set<Id>, todo: set<Id>, active: set<Id>,
                         left: map<Id, Dismissal>) {
    active == live - todo && left == Restrict(entries, active + todo)
  }

  lemma SiftOne(entries: map<Id, Dismissal>, live: set<Id>, todo: set<Id>, active: set<Id>, left: map<Id, Dismissal>,
                k: Id)
    requires live <= entries.Keys && Sifted(entries, live, todo, active, left) && k in todo
    ensures k in live ==> Sifted(entries, live, todo - {k}, active + {k}, left)
    ensures k !in live ==> Sifted(entries, live, todo - {k}, active, Restrict(left, active + (todo - {k})))
  {
    assert k in live ==> (active + {k}) + (todo - {k}) == active + todo;
  }

  class HiddenCards {
    var dismissals: map<Id, Dismissal>

    constructor ()
      ensures dismissals == map[]
    {
      dismissals := map[];
    }

    /** Hide a card until its time lapses or a newer result surfaces. */
    method Dismiss(k: Id, nowMs: int, watermark: Option<Instant>)
      modifies this
      ensures dismissals == old(dismissals)[k := Dismissal(nowMs + DISMISS_TTL_MS, watermark)]
    {
      dismissals := dismissals[k := Dismissal(nowMs + DISMISS_TTL_MS, watermark)];
    }

    /** The cards still hidden; lapsed and rejected ones are forgotten on the way. */
    method ActiveKeys(s: Shown, nowMs: int) returns (active: set<Id>)
      modifies this
      ensures active == LiveKeys(old(dismissals), s, nowMs)
      ensures dismissals == Restrict(old(dismissals), active)
    {
      var left;
      active, left := SelectLive(dismissals, s, nowMs);
      dismissals := left;
    }

    method FilterSnapshot(s: Shown, nowMs: int) returns (shown: Shown)
      modifies this
      ensures shown == Hiding(s, LiveKeys(old(dismissals), s, nowMs))
      ensures dismissals == Restrict(old(dismissals), LiveKeys(old(dismissals), s, nowMs))
    {
      var active := ActiveKeys(s, nowMs);
      if active == {} {
        return s;
      }
      var kept, dropped := DropAgents(AgentsOf(s), active);
      var sessions := KeepSessions(s.sessions, active + dropped);
      shown := Shown(sessions, if s.agents.Some? then Some(kept) else None);
    }
  }

  method DropAgents(agents: seq<AgentNode>, active: set<Id>) returns (kept: seq<AgentNode>, dropped: set<Id>)
    ensures (kept, dropped) == Pass(agents, active)
  {
    kept, dropped := [], {};
    for n := 0 to |agents|
      invariant (kept, dropped) == Pass(agents[..n], active)
    {
      assert agents[..n + 1][..n] == agents[..n];
      if Drops(active, dropped, agents[n]) {
        dropped := dropped + {agents[n].id};
      } else {
        kept := kept + [agents[n]];
      }
    }
    TakeAll(agents);
  }

  method KeepSessions(sessions: seq<Session>, gone: set<Id>) returns (kept: seq<Session>)
    ensures kept == Filter(sessions, IsHeld(gone))
  {
    kept := [];
    for n := 0 to |sessions|
      invariant kept == Filter(sessions[..n], IsHeld(gone))
    {
      TakeStep(sessions, n);
      FilterSnoc(sessions[..n], sessions[n], IsHeld(gone));
      if sessions[n].id !in gone {
        kept := kept + [sessions[n]];
      }
    }
    TakeAll(sessions);
  }

  // ----- what the pass drops -----

  ghost predicate Names(agents: seq<AgentNode>, k: Id) {
    exists i :: 0 <= i < |agents| && agents[i].id == k
  }

  /** Agents listed after their parents. */
  ghost predicate ParentsBefore(agents: seq<AgentNode>) {
    forall i :: 0 <= i < |agents| && agents[i].parent.Some? ==> Names(agents[..i], agents[i].parent.value)
  }

  /** An active card, or a descendant of one. */
  ghost predicate HiddenBy(links: map<Id, Id>, active: set<Id>, k: Id)
    requires IsForest(links)
  {
    exists a :: a in active && Below(links, k, a)
  }

  ghost function IsKept(links: map<Id, Id>, active: set<Id>): AgentNode -> bool
    requires IsForest(links)
  {
    (n: AgentNode) => !HiddenBy(links, active, n.id)
  }

  lemma HiddenStep(links: map<Id, Id>, active: set<Id>, k: Id)
    requires IsForest(links)
    ensures HiddenBy(links, active, k) <==> k in active || (k in links && HiddenBy(links, active, links[k]))
  {
    if k in links && HiddenBy(links, active, links[k]) {
      var a :| a in active && Below(links, links[k], a);
      assert Below(links, k, a);
    }
    assert Below(links, k, k);
  }

  /** The graph the agents' own parent fields describe. */
  ghost predicate Describes(links: map<Id, Id>, agents: seq<AgentNode>) {
    && IsForest(links)
    && forall i :: 0 <= i < |agents| ==>
         agents[i].parent == if agents[i].id in links then Some(links[agents[i].id]) else None
  }

  lemma NamesSnoc(init: seq<AgentNode>, n: AgentNode, k: Id)
    ensures Names(init + [n], k) <==> Names(init, k) || k == n.id
  {
    var agents := init + [n];
    if Names(init, k) {
      var i :| 0 <= i < |init| && init[i].id == k;
      assert agents[i].id == k;
    }
    assert agents[|init|].id == n.id;
  }

  /** On a parents-first list the single pass drops exactly the active cards and their descendants. */
  lemma {:induction false} PassExactly(agents: seq<AgentNode>, links: map<Id, Id>, active: set<Id>)
    requires Describes(links, agents) && ParentsBefore(agents)
    ensures Pass(agents, active).0 == Filter(agents, IsKept(links, active))
    ensures forall k :: k in Pass(agents, active).1 <==> HiddenBy(links, active, k) && Names(agents, k)
  {
    if agents != [] {
      var init, n := agents[..|agents| - 1], agents[|agents| - 1];
      assert forall i :: 0 <= i < |init| ==> init[..i] == agents[..i];
      PassExactly(init, links, active);
      HiddenStep(links, active, n.id);
      assert agents == init + [n];
      FilterSnoc(init, n, IsKept(links, active));
      forall k ensures Names(agents, k) <==> Names(init, k) || k == n.id {
        NamesSnoc(init, n, k);
      }
    }
  }

  /** The agents of the filtered graph, and its sessions, are those with no hidden card at or above them. */
  lemma HidingExactly(s: Shown, active: set<Id>)
    requires s.agents.Some? && GraphOk(s.agents.value) && ParentsBefore(s.agents.value)
    ensures var links, h := ParentLinks(Index(s.agents.value)), Hiding(s, active);
            h.agents.Some?
            && (forall n :: n in h.agents.value <==> n in s.agents.value && !HiddenBy(links, active, n.id))
            && (forall c :: c in h.sessions <==>
                  c in s.sessions && c.id !in active
                  && !(Names(s.agents.value, c.id) && HiddenBy(links, active, c.id)))
  {
    var agents := s.agents.value;
    var links := ParentLinks(Index(agents));
    AcceptedGraph(agents);
    if active == {} {
      assert forall k :: !HiddenBy(links, active, k);
    } else {
      PassExactly(agents, links, active);
      FilterMembers(agents, IsKept(links, active));
      FilterMembers(s.sessions, IsHeld(active + Pass(agents, active).1));
    }
  }

  // ----- the filtered snapshot is still a snapshot -----

  lemma KeptFrom(agents: seq<AgentNode>, p: AgentNode -> bool)
    requires IdentitiesUnique(agents)
    ensures var kept := Filter(agents, p);
            IdentitiesUnique(kept)
            && (forall i :: 0 <= i < |kept| ==> kept[i] in agents && p(kept[i]))
            && (forall n :: n in agents && p(n) ==> n in kept)
  {
    assert Lists(agents, Elements(agents));
    FilterLists(agents, p, Elements(agents));
    var kept := Filter(agents, p);
    forall i, j | 0 <= i < j < |kept| ensures kept[i].id != kept[j].id {
      assert kept[i] in kept && kept[j] in kept && kept[i] != kept[j];
    }
  }

  lemma OneNode(agents: seq<AgentNode>, n: AgentNode)
    requires IdentitiesUnique(agents) && n in agents
    ensures n.id in Index(agents) && Index(agents)[n.id] == n
  {
    IndexMembers(agents);
    var i :| 0 <= i < |agents| && agents[i] == n;
    assert agents[i].id in Index(agents);
    var j :| 0 <= j < |agents| && agents[j] == Index(agents)[n.id];
  }

  lemma KeptIndex(agents: seq<AgentNode>, p: AgentNode -> bool)
    requires IdentitiesUnique(agents)
    ensures var kept := Filter(agents, p);
            forall k :: k in Index(kept) <==> k in Index(agents) && p(Index(agents)[k])
    ensures forall k :: k in Index(Filter(agents, p)) ==>
              k in Index(agents) && Index(Filter(agents, p))[k] == Index(agents)[k]
  {
    var kept := Filter(agents, p);
    KeptFrom(agents, p);
    IndexMembers(agents);
    IndexMembers(kept);
    forall k | k in Index(kept)
      ensures k in Index(agents) && Index(kept)[k] == Index(agents)[k] && p(Index(agents)[k])
    {
      var n := Index(kept)[k];
      assert n in kept;
      OneNode(agents, n);
    }
    forall k | k in Index(agents) && p(Index(agents)[k]) ensures k in Index(kept) {
      OneNode(kept, Index(agents)[k]);
    }
  }

  lemma KeptSlots(agents: seq<AgentNode>, p: AgentNode -> bool)
    requires IdentitiesUnique(agents) && SlotsUnique(agents)
    ensures SlotsUnique(Filter(agents, p))
  {
    KeptFrom(agents, p);
    var kept := Filter(agents, p);
    forall i, j | 0 <= i < j < |kept| && kept[i].facts.logicalSlot.Some?
      ensures kept[i].facts.logicalSlot != kept[j].facts.logicalSlot
    {
      var a :| 0 <= a < |agents| && agents[a] == kept[i];
      var b :| 0 <= b < |agents| && agents[b] == kept[j];
    }
  }

  lemma KeptParents(agents: seq<AgentNode>, active: set<Id>, n: AgentNode)
    requires GraphOk(agents) && n in Filter(agents, IsKept(ParentLinks(Index(agents)), active))
    ensures ParentError(Index(Filter(agents, IsKept(ParentLinks(Index(agents)), active))), n).None?
  {
    AcceptedGraph(agents);
    var links := ParentLinks(Index(agents));
    var p := IsKept(links, active);
    KeptIndex(agents, p);
    KeptFrom(agents, p);
    var i :| 0 <= i < |agents| && agents[i] == n;
    assert ParentError(Index(agents), agents[i]).None?;
    if n.parent.Some? {
      IndexMembers(agents);
      HiddenStep(links, active, n.id);
    }
  }

  /** Hiding cards from an accepted graph leaves an accepted graph. */
  lemma HiddenStillAccepted(agents: seq<AgentNode>, active: set<Id>)
    requires GraphOk(agents) && ParentsBefore(agents)
    ensures GraphOk(Pass(agents, active).0)
  {
    AcceptedGraph(agents);
    var links := ParentLinks(Index(agents));
    var p := IsKept(links, active);
    PassExactly(agents, links, active);
    KeptFrom(agents, p);
    KeptIndex(agents, p);
    KeptSlots(agents, p);
    var kept := Filter(agents, p);
    forall i | 0 <= i < |kept| ensures AgentOk(kept[i]) && ParentError(Index(kept), kept[i]).None? {
      var j :| 0 <= j < |agents| && agents[j] == kept[i];
      KeptParents(agents, active, kept[i]);
    }
    SubForest(links, ParentLinks(Index(kept)));
  }

  // ----- agreement with the authority -----

  ghost function Display(p: Projected): Shown {
    Shown(p.sessions, Some(p.agents))
  }

  /** The projection lists every agent after its parent, and its links are the agents' own. */
  lemma ProjectedGraph(t: Table, order: seq<Id>)
    requires TopologyOk(t) && IsRootOrder(t, order)
    ensures Describes(GraphLinks(TableView(t)), ProjectionOf(t, order).agents)
    ensures ParentsBefore(ProjectionOf(t, order).agents)
  {
    var v := TableView(t);
    AgentsInside(v, order);
    AgentsListPublished(v, order);
    var ids, agents := AgentIds(v, order), ProjectionOf(t, order).agents;
    assert agents == NodesFor(v, ids);
    forall i | 0 <= i < |agents|
      ensures agents[i].id == ids[i]
      ensures agents[i].parent == if ids[i] in GraphLinks(v) then Some(GraphLinks(v)[ids[i]]) else None
    {
      NodeParses(v, ids[i]);
      NodeParent(v, ids[i]);
    }
    forall i | 0 <= i < |agents| && agents[i].parent.Some? ensures Names(agents[..i], agents[i].parent.value) {
      var j :| 0 <= j < i && ids[..i][j] == GraphLinks(v)[ids[i]];
      assert agents[..i][j].id == ids[j];
    }
  }

  lemma BareHidden(links: map<Id, Id>, c: Id, k: Id)
    requires IsForest(links) && forall x :: x in links ==> links[x] != c
    ensures HiddenBy(links, {c}, k) <==> k == c
    decreases Depth(links, k)
  {
    HiddenStep(links, {c}, k);
    if k in links {
      BareHidden(links, c, links[k]);
    }
  }

  /** Hiding a card nothing hangs below removes that card alone. */
  lemma HidingOne(p: Projected, links: map<Id, Id>, c: Id)
    requires Describes(links, p.agents) && ParentsBefore(p.agents) && forall x :: x in links ==> links[x] != c
    ensures Hiding(Display(p), {c}) == Display(Without(p, c))
  {
    PassExactly(p.agents, links, {c});
    forall k ensures HiddenBy(links, {c}, k) <==> k == c {
      BareHidden(links, c, k);
    }
    FilterAgrees(p.agents, IsKept(links, {c}), (n: AgentNode) => n.id != c);
    FilterAgrees(p.sessions, IsHeld({c} + Pass(p.agents, {c}).1), (s: Session) => s.id != c);
  }

  lemma {:induction false} FilterAgrees<K>(xs: seq<K>, p: K -> bool, q: K -> bool)
    requires forall x :: x in xs ==> p(x) == q(x)
    ensures Filter(xs, p) == Filter(xs, q)
  {
    if xs != [] {
      FilterAgrees(xs[1..], p, q);
    }
  }

  lemma SessionStamp(v: View, order: seq<Id>, i: nat)
    requires ViewOk(v) && IsRootOrder(v.t, order) && i < |VisibleIds(v, order)| && VisibleIds(v, order)[i] in v.final
    ensures SessionOf(v, VisibleIds(v, order)[i]).id == VisibleIds(v, order)[i]
    ensures SessionOf(v, VisibleIds(v, order)[i]).facts.unreadSince == AggregatedUnread(v, VisibleIds(v, order)[i])
  {
  }

  lemma NodeStamp(v: View, k: Id)
    requires ViewOk(v) && k in v.t
    ensures NodeOf(v, k).id == k
    ensures k in v.final ==> NodeOf(v, k).facts.unreadSince == AggregatedUnread(v, k)
  {
  }

  /** The stamps a snapshot shows for a card are the card's own. */
  lemma SessionsShowStamp(v: View, order: seq<Id>, c: Id)
    requires ViewOk(v) && IsRootOrder(v.t, order) && c in v.final
    requires forall i :: 0 <= i < |VisibleIds(v, order)| ==> VisibleIds(v, order)[i] in v.final
    ensures var sessions := SessionsFor(v, VisibleIds(v, order));
            forall i :: 0 <= i < |sessions| && sessions[i].id == c ==>
              sessions[i].facts.unreadSince == AggregatedUnread(v, c)
  {
    var ids := VisibleIds(v, order);
    forall i | 0 <= i < |ids| && SessionsFor(v, ids)[i].id == c
      ensures SessionsFor(v, ids)[i].facts.unreadSince == AggregatedUnread(v, c)
    {
      SessionStamp(v, order, i);
    }
  }

  lemma AgentsShowStamp(v: View, ids: seq<Id>, c: Id)
    requires ViewOk(v) && c in v.final && forall i :: 0 <= i < |ids| ==> ids[i] in v.t
    ensures var agents := NodesFor(v, ids);
            forall i :: 0 <= i < |agents| && agents[i].id == c ==> agents[i].facts.unreadSince == AggregatedUnread(v, c)
  {
    forall i | 0 <= i < |ids| && NodesFor(v, ids)[i].id == c
      ensures NodesFor(v, ids)[i].facts.unreadSince == AggregatedUnread(v, c)
    {
      NodeStamp(v, ids[i]);
    }
  }

  /** The snapshot that showed a card never contradicts the stamp it showed. */
  lemma OwnStampNotNewer(t: Table, order: seq<Id>, c: Id)
    requires TopologyOk(t) && IsRootOrder(t, order) && c in TableView(t).final
    ensures !SurfacedNewerResult(Display(ProjectionOf(t, order)), c, AggregatedUnread(TableView(t), c))
  {
    var v := TableView(t);
    VisibleInside(v, order);
    AgentsInside(v, order);
    SessionsShowStamp(v, order, c);
    AgentsShowStamp(v, AgentIds(v, order), c);
    StampsNotNewer(Display(ProjectionOf(t, order)), c, AggregatedUnread(v, c));
  }

  lemma StampsNotNewer(s: Shown, c: Id, stamp: Option<Instant>)
    requires forall i :: 0 <= i < |s.sessions| && s.sessions[i].id == c ==> s.sessions[i].facts.unreadSince == stamp
    requires forall i :: 0 <= i < |AgentsOf(s)| && AgentsOf(s)[i].id == c ==> AgentsOf(s)[i].facts.unreadSince == stamp
    ensures !SurfacedNewerResult(s, c, stamp)
  {
  }

  ghost function HiddenCard(c: Id, nowMs: int, watermark: Option<Instant>): map<Id, Dismissal> {
    map[c := Dismissal(nowMs + DISMISS_TTL_MS, watermark)]
  }

  lemma HiddenUntilLapsed(s: Shown, c: Id, nowMs: int, watermark: Option<Instant>, laterMs: int)
    requires !SurfacedNewerResult(s, c, watermark) && laterMs < nowMs + DISMISS_TTL_MS
    ensures LiveKeys(HiddenCard(c, nowMs, watermark), s, laterMs) == {c}
  {
  }

  /**
   * The optimistic hide agrees with the authority: for an idle published card,
   * what the board shows while its dismissal is hidden is exactly what the
   * registry publishes once the dismissal has settled.
   */
  lemma HideMatchesAuthority(t: Table, order: seq<Id>, c: Id, at: Instant, nowMs: int, laterMs: int)
    requires TopologyOk(t) && IsRootOrder(t, order)
    requires c in TableView(t).final && Visible(TableView(t), c) && TableView(t).final[c] == Idle
    requires laterMs < nowMs + DISMISS_TTL_MS
    ensures TopologyOk(AfterDismissal(t, c, at)) && IsRootOrder(AfterDismissal(t, c, at), order)
    ensures var shown := Display(ProjectionOf(t, order));
            var active := LiveKeys(HiddenCard(c, nowMs, AggregatedUnread(TableView(t), c)), shown, laterMs);
            Hiding(shown, active) == Display(ProjectionOf(AfterDismissal(t, c, at), order))
  {
    DismissalRemovesCard(t, order, c, at);
    OwnStampNotNewer(t, order, c);
    HiddenUntilLapsed(Display(ProjectionOf(t, order)), c, nowMs, AggregatedUnread(TableView(t), c), laterMs);
    HidingCard(t, order, c);
  }

  lemma HidingCard(t: Table, order: seq<Id>, c: Id)
    requires TopologyOk(t) && IsRootOrder(t, order)
    requires c in TableView(t).final && Visible(TableView(t), c) && TableView(t).final[c] == Idle
    ensures Hiding(Display(ProjectionOf(t, order)), {c}) == Display(Without(ProjectionOf(t, order), c))
  {
    ProjectedGraph(t, order);
    IdleCardBare(t, c);
    HidingOne(ProjectionOf(t, order), GraphLinks(TableView(t)), c);
  }
}
