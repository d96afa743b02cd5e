/** Laws of the published view: topology, coverage, and conservation of unread results. */
module ProjectionLaws {
  import opened Common
  import opened Forest
  import opened Sorting
  import opened Preorder
  import opened Schema
  import opened ProjectionSpec

  /** MaxOf is the maximum: an upper bound, attained by every non-empty set. */
  lemma MaxOfBounds(s: set<Status>)
    ensures forall x :: x in s ==> Priority(x) <= Priority(MaxOf(s))
    ensures s != {} ==> MaxOf(s) in s
  {
    if s != {} && MaxOf(s) == Idle {
      var x :| x in s;
      assert x == Idle;
    }
  }

  /** The published status dominates every native status below the root, and one of them attains it. */
  lemma CarriedIsMaximum(links: map<Id, Id>, native: map<Id, Status>, r: Id)
    requires IsForest(links) && r in native
    ensures forall d :: d in native && Below(links, d, r) ==>
              Priority(native[d]) <= Priority(CarriedStatus(links, native, r))
    ensures exists d :: d in native && Below(links, d, r) && native[d] == CarriedStatus(links, native, r)
  {
    var s := set d | d in native && Below(links, d, r) :: native[d];
    assert native[r] in s;
    MaxOfBounds(s);
  }

  lemma NativeIsMaximum(t: Table, k: Id)
    requires IsForest(NativeLinks(t)) && k in t
    ensures forall j :: j in t && Below(NativeLinks(t), j, k) ==>
              Priority(OwnStatus(t[j])) <= Priority(NativeStatus(t, k))
    ensures exists j :: j in t && Below(NativeLinks(t), j, k) && OwnStatus(t[j]) == NativeStatus(t, k)
  {
    var s := set j | j in t && Below(NativeLinks(t), j, k) :: OwnStatus(t[j]);
    assert OwnStatus(t[k]) in s;
    MaxOfBounds(s);
  }

  /** The view of any well-formed topology satisfies everything the projection relies on. */
  lemma ViewOfOk(t: Table)
    requires TopologyOk(t)
    ensures ViewOk(ViewOf(t))
  {
    var v := ViewOf(t);
    forall c | c in v.links ensures Priority(v.final[c]) <= Priority(v.final[v.links[c]]) {
      CarriedClimbs(v.links, RootStatuses(t), c);
    }
    forall r | r in v.final && v.final[r] == Idle ensures t[r].status == Idle && NoNativeChild(t, r) {
      CarriedIsMaximum(v.links, RootStatuses(t), r);
      IdleAlone(t, r);
    }
  }

  /** A lineage parent's carried status is at least its child's. */
  lemma CarriedClimbs(links: map<Id, Id>, native: map<Id, Status>, c: Id)
    requires IsForest(links) && c in links && c in native && links[c] in native
    ensures Priority(CarriedStatus(links, native, c)) <= Priority(CarriedStatus(links, native, links[c]))
  {
    CarriedIsMaximum(links, native, c);
    CarriedIsMaximum(links, native, links[c]);
    var d :| d in native && Below(links, d, c) && native[d] == CarriedStatus(links, native, c);
    BelowTransitive(links, d, c, links[c]);
  }

  /** A root whose native subtree is idle is idle itself and has no native child. */
  lemma IdleAlone(t: Table, r: Id)
    requires IsForest(NativeLinks(t)) && IsRoot(t, r) && NativeStatus(t, r) == Idle
    ensures t[r].status == Idle && NoNativeChild(t, r)
  {
    NativeIsMaximum(t, r);
    forall j | j in t && t[j].parent.Some? ensures ParentId(j, t[j]) != r {
      if ParentId(j, t[j]) == r {
        assert Below(NativeLinks(t), j, r);
      }
    }
  }

  /** The view every well-formed table has. */
  ghost function TableView(t: Table): (v: View)
    requires TopologyOk(t)
    ensures v == ViewOf(t) && ViewOk(v)
  {
    ViewOfOk(t);
    ViewOf(t)
  }

  // ----- the published graph -----

  lemma TopIsRoot(t: Table, k: Id)
    requires TopologyOk(t) && k in t
    ensures IsRoot(t, Top(NativeLinks(t), k))
    decreases Depth(NativeLinks(t), k)
  {
    if k in NativeLinks(t) {
      TopIsRoot(t, NativeLinks(t)[k]);
    }
  }

  /** A published node's parent is published, and the published links form a forest. */
  lemma PublishedGraph(v: View)
    requires ViewOk(v)
    ensures IsForest(GraphLinks(v))
    ensures forall k :: k in GraphLinks(v) ==> k in Published(v) && GraphLinks(v)[k] in Published(v)
  {
    JoinForest(NativeLinks(v.t), v.links);
    SubForest(AllLinks(v), GraphLinks(v));
    forall k | k in GraphLinks(v) ensures GraphLinks(v)[k] in Published(v) {
      if k in v.links {
        LineageParentPublished(v, k);
      } else {
        NativeParentPublished(v, k);
      }
    }
  }

  lemma LineageParentPublished(v: View, k: Id)
    requires ViewOk(v) && k in v.links && k in Published(v)
    ensures v.links[k] in Published(v)
  {
    var n := NativeLinks(v.t);
    assert Top(n, k) == k && Top(n, v.links[k]) == v.links[k];
    assert v.final[k] != Idle;
  }

  lemma NativeParentPublished(v: View, k: Id)
    requires ViewOk(v) && k in NativeLinks(v.t) && k in Published(v)
    ensures NativeLinks(v.t)[k] in Published(v)
  {
    assert Top(NativeLinks(v.t), NativeLinks(v.t)[k]) == Top(NativeLinks(v.t), k);
  }

  lemma GraphRootsExactly(v: View, order: seq<Id>)
    requires ViewOk(v) && IsRootOrder(v.t, order)
    ensures Distinct(GraphRoots(v, order))
    ensures forall r :: r in GraphRoots(v, order) <==> r in Published(v) && r !in GraphLinks(v)
  {
    var primaries := Filter(order, IsPrimaryCard(v));
    var orphans := SortedIds(v.t, OrphanRoots(v));
    assert Lists(order, Elements(order));
    FilterLists(order, IsPrimaryCard(v), Elements(order));
    ConcatLists(primaries, orphans, (set x | x in Elements(order) && IsPrimaryCard(v)(x)), OrphanRoots(v));
    forall r ensures r in GraphRoots(v, order) <==> r in Published(v) && r !in GraphLinks(v) {
      if IsRoot(v.t, r) {
        assert Top(NativeLinks(v.t), r) == r;
        assert r in order;
      }
    }
  }

  /** The agent list is a parents-first preorder that shows every published node exactly once. */
  lemma AgentsListPublished(v: View, order: seq<Id>)
    requires ViewOk(v) && IsRootOrder(v.t, order)
    ensures IsForest(GraphLinks(v))
    ensures Lists(AgentIds(v, order), Published(v))
    ensures forall i :: 0 <= i < |AgentIds(v, order)| && AgentIds(v, order)[i] in GraphLinks(v) ==>
              GraphLinks(v)[AgentIds(v, order)[i]] in AgentIds(v, order)[..i]
  {
    PublishedGraph(v);
    GraphRootsExactly(v, order);
    var roots := GraphRoots(v, order);
    GroveLists(GraphLinks(v), SortedKids(v), roots);
    GroveCovers(GraphLinks(v), roots, Published(v));
  }

  lemma {:induction false} RollsBelow(v: View, d: Id, r: Id)
    requires LineageOk(v) && d in v.final && RollsTo(v, d, r)
    ensures d != r && Below(v.links, d, r)
    decreases Depth(v.links, d)
  {
    if v.links[d] != r {
      RollsBelow(v, v.links[d], r);
    }
    BelowDepth(v.links, v.links[d], r);
  }

  // ----- conservation of unread results -----

  ghost predicate IsUnreadRoot(v: View, d: Id) {
    d in v.final && d in v.t && v.t[d].unread.Some?
  }

  /** The one card that carries a root's result: itself, or its nearest published lineage ancestor. */
  ghost function Carrier(v: View, d: Id): Id
    requires LineageOk(v) && d in v.final
    decreases Depth(v.links, d)
  {
    if Visible(v, d) || d !in v.links then d else Carrier(v, v.links[d])
  }

  /** A published root never rolls up; a hidden linked one never speaks. */
  lemma HiddenRolls(v: View, d: Id)
    requires LineageOk(v) && d in v.final && HoldsLedger(v.t[d])
    ensures Visible(v, d) ==> forall r :: !RollsTo(v, d, r)
    ensures !Visible(v, d) ==> d in v.links && !Speaks(v, d)
  {
  }

  /** Someone above an idle ledger-holding root is published, and rolling stops there. */
  lemma {:induction false} RollsToCarrier(v: View, d: Id, r: Id)
    requires LineageOk(v) && d in v.final
    requires HoldsLedger(v.t[d]) || HasDescendantLedger(v, d)
    requires r in v.final && Visible(v, r)
    ensures Carrier(v, d) in v.final && Visible(v, Carrier(v, d))
    ensures !Visible(v, d) ==> (RollsTo(v, d, r) <==> r == Carrier(v, d))
    decreases Depth(v.links, d)
  {
    if !Visible(v, d) {
      assert v.final[d] == Idle && d in v.links;
      var p := v.links[d];
      assert HasDescendantLedger(v, p) by {
        LedgerClimbs(v, d);
      }
      RollsToCarrier(v, p, r);
      if Visible(v, p) {
        VisibleStopsRolling(v, p);
      }
    }
  }

  lemma LedgerClimbs(v: View, d: Id)
    requires LineageOk(v) && d in v.final && d in v.links
    requires HoldsLedger(v.t[d]) || HasDescendantLedger(v, d)
    ensures HasDescendantLedger(v, v.links[d])
  {
    var p := v.links[d];
    var e: Id;
    if HoldsLedger(v.t[d]) {
      e := d;
    } else {
      e :| e in v.final && e != d && Below(v.links, e, d) && HoldsLedger(v.t[e]);
    }
    BelowTransitive(v.links, e, d, p);
    BelowDepth(v.links, e, d);
    assert e != p;
  }

  /** Nothing rolls past a published root. */
  lemma VisibleStopsRolling(v: View, p: Id)
    requires LineageOk(v) && p in v.final && Visible(v, p)
    ensures forall r :: !RollsTo(v, p, r)
  {
  }

  /** The results one card carries: its own and those rolled up to it. */
  ghost function Carried(v: View, r: Id): set<Id>
    requires LineageOk(v)
  {
    set d | d in v.final && IsUnreadRoot(v, d) && Carrier(v, d) == r
  }

  lemma CarriedSplit(v: View, r: Id)
    requires LineageOk(v) && r in v.final && Visible(v, r)
    ensures |Carried(v, r)| == PendingResults(v, r) + (if v.t[r].unread.Some? then 1 else 0)
  {
    var rolled := set d | d in Rolled(v, r) && v.t[d].unread.Some?;
    var own := if v.t[r].unread.Some? then {r} else {};
    forall d ensures d in Carried(v, r) <==> d in rolled + own {
      if d in v.final && v.t[d].unread.Some? {
        RollsToCarrier(v, d, r);
        HiddenRolls(v, d);
      }
    }
    assert r !in rolled by { VisibleStopsRolling(v, r); }
    assert Carried(v, r) == rolled + own;
  }

  ghost function SumPending(sessions: seq<Session>): nat {
    if sessions == [] then 0 else sessions[0].facts.pendingResults + SumPending(sessions[1..])
  }

  /** The sessions list for a listing of visible roots. */
  ghost function SessionsFor(v: View, ids: seq<Id>): (s: seq<Session>)
    requires ViewOk(v) && forall i :: 0 <= i < |ids| ==> ids[i] in v.final
    ensures |s| == |ids| && forall i :: 0 <= i < |ids| ==> s[i] == SessionOf(v, ids[i])
  {
    seq(|ids|, i requires 0 <= i < |ids| => SessionOf(v, ids[i]))
  }

  ghost function OwnUnread(v: View, ids: seq<Id>): set<Id> {
    set r | r in ids && r in v.t && v.t[r].unread.Some?
  }

  ghost function CarriedBy(v: View, ids: seq<Id>): set<Id>
    requires ViewOk(v)
  {
    set d | d in v.final && IsUnreadRoot(v, d) && Carrier(v, d) in ids
  }

  lemma CountStep(v: View, ids: seq<Id>)
    requires ViewOk(v) && Distinct(ids) && ids != [] && ids[0] in v.final
    ensures |OwnUnread(v, ids)| == |OwnUnread(v, ids[1..])| + (if v.t[ids[0]].unread.Some? then 1 else 0)
    ensures |CarriedBy(v, ids)| == |CarriedBy(v, ids[1..])| + |Carried(v, ids[0])|
  {
    var r, rest := ids[0], ids[1..];
    assert ids == [r] + rest;
    assert r !in rest;
    OwnStep(v, r, rest);
    CarriedStep(v, r, rest);
  }

  lemma OwnStep(v: View, r: Id, rest: seq<Id>)
    requires r !in rest && r in v.t
    ensures |OwnUnread(v, [r] + rest)| == |OwnUnread(v, rest)| + (if v.t[r].unread.Some? then 1 else 0)
  {
    assert OwnUnread(v, [r] + rest) == OwnUnread(v, rest) + (if v.t[r].unread.Some? then {r} else {});
  }

  lemma CarriedStep(v: View, r: Id, rest: seq<Id>)
    requires ViewOk(v) && r !in rest
    ensures |CarriedBy(v, [r] + rest)| == |CarriedBy(v, rest)| + |Carried(v, r)|
  {
    assert CarriedBy(v, [r] + rest) == Carried(v, r) + CarriedBy(v, rest);
    assert Carried(v, r) !! CarriedBy(v, rest);
  }

  lemma {:induction false} ConservationOver(v: View, ids: seq<Id>)
    requires ViewOk(v) && Distinct(ids)
    requires forall i :: 0 <= i < |ids| ==> ids[i] in v.final && Visible(v, ids[i])
    ensures SumPending(SessionsFor(v, ids)) + |OwnUnread(v, ids)| == |CarriedBy(v, ids)|
  {
    if ids == [] {
      assert OwnUnread(v, ids) == {} && CarriedBy(v, ids) == {};
    } else {
      ConservationOver(v, ids[1..]);
      assert SessionsFor(v, ids)[1..] == SessionsFor(v, ids[1..]);
      CarriedSplit(v, ids[0]);
      CountStep(v, ids);
    }
  }

  /**
   * Every unviewed result is carried by exactly one card: the pending counts
   * of the published roots and the published roots unread in their own right
   * add up to the top-level rows holding an unread result.
   */
  lemma UnreadConserved(v: View, order: seq<Id>)
    requires ViewOk(v) && IsRootOrder(v.t, order)
    ensures var ids := VisibleIds(v, order);
            (forall i :: 0 <= i < |ids| ==> ids[i] in v.final)
            && SumPending(SessionsFor(v, ids)) + |OwnUnread(v, ids)|
               == |set d | d in v.t && IsRoot(v.t, d) && v.t[d].unread.Some?|
  {
    var ids := VisibleIds(v, order);
    VisibleIdsExactly(v, order);
    assert forall i :: 0 <= i < |ids| ==> ids[i] in VisibleRoots(v);
    ConservationOver(v, ids);
    AllCarried(v, ids);
  }

  /** Every unread root is carried by some visible card. */
  lemma AllCarried(v: View, ids: seq<Id>)
    requires ViewOk(v) && Lists(ids, VisibleRoots(v))
    ensures CarriedBy(v, ids) == set d | d in v.t && IsRoot(v.t, d) && v.t[d].unread.Some?
  {
    forall d | d in v.final && IsUnreadRoot(v, d) ensures Carrier(v, d) in ids {
      RollsToCarrierExists(v, d);
    }
  }

  lemma VisibleIdsExactly(v: View, order: seq<Id>)
    requires ViewOk(v) && IsRootOrder(v.t, order)
    ensures Lists(VisibleIds(v, order), VisibleRoots(v))
    ensures Sorted(SlotOrder(v.t), VisibleIds(v, order))
  {
    FilterSorted(SlotOrder(v.t), order, IsCard(v));
    VisibleAmong(v, order);
  }

  lemma VisibleAmong(v: View, order: seq<Id>)
    requires ViewOk(v) && Distinct(order) && forall k :: k in order <==> k in v.final
    ensures Lists(VisibleIds(v, order), VisibleRoots(v))
  {
    FilterMembers(order, IsCard(v));
  }

  lemma {:induction false} RollsToCarrierExists(v: View, d: Id)
    requires ViewOk(v) && d in v.final
    requires HoldsLedger(v.t[d]) || HasDescendantLedger(v, d)
    ensures Carrier(v, d) in VisibleRoots(v)
    decreases Depth(v.links, d)
  {
    if !Visible(v, d) {
      LedgerClimbs(v, d);
      RollsToCarrierExists(v, v.links[d]);
    }
  }
}
