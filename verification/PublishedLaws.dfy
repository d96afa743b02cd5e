/** What a snapshot shows, read off the rows alone: statuses, stamps, columns, and the order of the agents. */
module PublishedLaws {
  import opened Common
  import opened Forest
  import opened Schema
  import opened ProjectionSpec
  import opened ProjectionLaws
  import opened Snapshot

  // ----- statuses -----

  /** The rows that speak for `k`: its native subtree and, for a root, those of its lineage descendants. */
  ghost function Voices(t: Table, k: Id): set<Id>
    requires IsForest(NativeLinks(t))
  {
    set j | j in t && Speaker(t, j, k)
  }

  ghost predicate Speaker(t: Table, j: Id, k: Id)
    requires IsForest(NativeLinks(t))
  {
    if IsRoot(t, k) then exists d :: IsRoot(t, d) && Below(PaseoLinks(t), d, k) && Below(NativeLinks(t), j, d)
    else Below(NativeLinks(t), j, k)
  }

  ghost predicate AnyIs(t: Table, rows: set<Id>, status: Status) {
    exists j :: j in rows && j in t && t[j].status == status
  }

  /** Any error shows; else any wait; else any work, or the mere existence of a child; else nothing is going on. */
  ghost predicate StatusOfRows(t: Table, rows: set<Id>, status: Status) {
    if AnyIs(t, rows, Error) then status == Error
    else if AnyIs(t, rows, Waiting) then status == Waiting
    else if AnyIs(t, rows, Working) || exists j :: j in rows && j in t && t[j].parent.Some? then status == Working
    else status == Idle
  }

  lemma NativeStatusOfRows(t: Table, k: Id)
    requires IsForest(NativeLinks(t)) && k in t
    ensures StatusOfRows(t, (set j | j in t && Below(NativeLinks(t), j, k)), NativeStatus(t, k))
  {
    NativeIsMaximum(t, k);
  }

  /** A bound that one of the rows attains is the status the rows call for. */
  lemma AttainedBound(t: Table, rows: set<Id>, j: Id, status: Status)
    requires j in rows && j in t && OwnStatus(t[j]) == status
    requires forall i :: i in rows && i in t ==> Priority(OwnStatus(t[i])) <= Priority(status)
    ensures StatusOfRows(t, rows, status)
  {
  }

  lemma VoiceBound(t: Table, r: Id, j: Id)
    requires TopologyOk(t) && IsRoot(t, r) && j in Voices(t, r)
    ensures Priority(OwnStatus(t[j])) <= Priority(CarriedStatus(PaseoLinks(t), RootStatuses(t), r))
  {
    CarriedIsMaximum(PaseoLinks(t), RootStatuses(t), r);
    var e :| IsRoot(t, e) && Below(PaseoLinks(t), e, r) && Below(NativeLinks(t), j, e);
    NativeIsMaximum(t, e);
  }

  lemma VoiceAttains(t: Table, r: Id) returns (j: Id)
    requires TopologyOk(t) && IsRoot(t, r)
    ensures j in Voices(t, r) && OwnStatus(t[j]) == CarriedStatus(PaseoLinks(t), RootStatuses(t), r)
  {
    CarriedIsMaximum(PaseoLinks(t), RootStatuses(t), r);
    var links, native := PaseoLinks(t), RootStatuses(t);
    var d :| d in native && Below(links, d, r) && native[d] == CarriedStatus(links, native, r);
    NativeIsMaximum(t, d);
    j :| j in t && Below(NativeLinks(t), j, d) && OwnStatus(t[j]) == NativeStatus(t, d);
  }

  lemma RootStatusOfRows(t: Table, r: Id)
    requires TopologyOk(t) && IsRoot(t, r)
    ensures StatusOfRows(t, Voices(t, r), CarriedStatus(PaseoLinks(t), RootStatuses(t), r))
  {
    var status := CarriedStatus(PaseoLinks(t), RootStatuses(t), r);
    var j := VoiceAttains(t, r);
    forall i | i in Voices(t, r) ensures Priority(OwnStatus(t[i])) <= Priority(status) {
      VoiceBound(t, r, i);
    }
    AttainedBound(t, Voices(t, r), j, status);
  }

  /** Every published status is the one its rows call for. */
  lemma StatusesPublished(t: Table, order: seq<Id>)
    requires TopologyOk(t) && IsRootOrder(t, order)
    ensures var p := ProjectionOf(t, order);
            (forall i :: 0 <= i < |p.sessions| ==>
               StatusOfRows(t, Voices(t, p.sessions[i].id), p.sessions[i].facts.status))
            && (forall i :: 0 <= i < |p.agents| ==>
                  StatusOfRows(t, Voices(t, p.agents[i].id), p.agents[i].facts.status))
  {
    ViewOfOk(t);
    var v, p := ViewOf(t), ProjectionOf(t, order);
    ListedInTable(v, order);
    forall i | 0 <= i < |p.sessions| ensures StatusOfRows(t, Voices(t, p.sessions[i].id), p.sessions[i].facts.status) {
      assert p.sessions[i] == SessionOf(v, VisibleIds(v, order)[i]);
      RootStatusOfRows(t, VisibleIds(v, order)[i]);
    }
    forall i | 0 <= i < |p.agents| ensures StatusOfRows(t, Voices(t, p.agents[i].id), p.agents[i].facts.status) {
      NodeStatusOfRows(t, AgentIds(v, order)[i]);
    }
  }

  lemma NodeStatusOfRows(t: Table, k: Id)
    requires TopologyOk(t) && ViewOk(ViewOf(t)) && k in t
    ensures var n := NodeOf(ViewOf(t), k); n.id == k && StatusOfRows(t, Voices(t, k), n.facts.status)
  {
    if t[k].parent.Some? {
      NativeStatusOfRows(t, k);
      assert Voices(t, k) == set j | j in t && Below(NativeLinks(t), j, k);
    } else {
      RootStatusOfRows(t, k);
    }
  }

  // ----- which roots have a card -----

  /** Somebody at work: a row that is not idle, or a native child. */
  ghost predicate Astir(t: Table, r: Id)
    requires IsForest(NativeLinks(t))
  {
    exists j :: j in Voices(t, r) && (t[j].status != Idle || t[j].parent.Some?)
  }

  /** A result is kept somewhere at or below the root. */
  ghost predicate KeepsResult(t: Table, r: Id) {
    exists d :: IsRoot(t, d) && Below(PaseoLinks(t), d, r) && (t[d].unread.Some? || t[d].done.Some?)
  }

  lemma VisibleExactly(t: Table, r: Id)
    requires TopologyOk(t) && ViewOk(ViewOf(t)) && IsRoot(t, r)
    ensures Visible(ViewOf(t), r) <==> Astir(t, r) || (r !in PaseoLinks(t) && KeepsResult(t, r))
  {
    var v := ViewOf(t);
    RootStatusOfRows(t, r);
    assert v.final[r] == CarriedStatus(PaseoLinks(t), RootStatuses(t), r);
    assert v.final[r] != Idle <==> Astir(t, r);
    LedgerSomewhere(t, r);
  }

  lemma LedgerSomewhere(t: Table, r: Id)
    requires TopologyOk(t) && ViewOk(ViewOf(t)) && IsRoot(t, r)
    ensures KeepsResult(t, r) <==> HoldsLedger(t[r]) || HasDescendantLedger(ViewOf(t), r)
  {
    var v := ViewOf(t);
    assert Below(PaseoLinks(t), r, r);
    if HasDescendantLedger(v, r) {
      var d :| d in v.final && d != r && Below(v.links, d, r) && HoldsLedger(v.t[d]);
      assert IsRoot(t, d);
    }
    if KeepsResult(t, r) && !HoldsLedger(t[r]) {
      var d :| IsRoot(t, d) && Below(PaseoLinks(t), d, r) && (t[d].unread.Some? || t[d].done.Some?);
      assert d in v.final && HoldsLedger(v.t[d]);
    }
  }

  /** The identities of the cards. */
  ghost function Cards(p: Projected): set<Id> {
    set i | 0 <= i < |p.sessions| :: p.sessions[i].id
  }

  /**
   * The cards are the roots with somebody at work, and the unlinked roots that
   * keep a result; they are listed once each, by slot.
   */
  lemma CardsExactly(t: Table, order: seq<Id>)
    requires TopologyOk(t) && IsRootOrder(t, order)
    ensures var p := ProjectionOf(t, order);
            (forall r :: r in Cards(p) <==>
               IsRoot(t, r) && (Astir(t, r) || (r !in PaseoLinks(t) && KeepsResult(t, r))))
            && (forall i, j :: 0 <= i < j < |p.sessions| ==>
                  p.sessions[i].id != p.sessions[j].id && SlotLeq(t, p.sessions[i].id, p.sessions[j].id))
  {
    ViewOfOk(t);
    var v, p := ViewOf(t), ProjectionOf(t, order);
    CardIds(t, order);
    forall r ensures r in Cards(p) <==>
                       IsRoot(t, r) && (Astir(t, r) || (r !in PaseoLinks(t) && KeepsResult(t, r)))
    {
      if IsRoot(t, r) {
        VisibleExactly(t, r);
      }
    }
    VisibleIdsExactly(v, order);
    var ids := VisibleIds(v, order);
    forall i, j | 0 <= i < j < |p.sessions|
      ensures p.sessions[i].id != p.sessions[j].id && SlotLeq(t, p.sessions[i].id, p.sessions[j].id)
    {
      assert SlotOrder(v.t)(ids[i], ids[j]);
    }
  }

  lemma CardIds(t: Table, order: seq<Id>)
    requires TopologyOk(t) && IsRootOrder(t, order)
    ensures ViewOk(ViewOf(t)) && |ProjectionOf(t, order).sessions| == |VisibleIds(ViewOf(t), order)|
    ensures forall i :: 0 <= i < |ProjectionOf(t, order).sessions| ==>
              ProjectionOf(t, order).sessions[i].id == VisibleIds(ViewOf(t), order)[i]
    ensures Cards(ProjectionOf(t, order)) == VisibleRoots(ViewOf(t))
  {
    ViewOfOk(t);
    var v, p := ViewOf(t), ProjectionOf(t, order);
    ListedInTable(v, order);
    VisibleIdsExactly(v, order);
    var ids := VisibleIds(v, order);
    forall i | 0 <= i < |ids| ensures p.sessions[i].id == ids[i] {
      assert p.sessions[i] == SessionOf(v, ids[i]);
    }
    SameListing(p.sessions, ids, VisibleRoots(v));
  }

  lemma SameListing(sessions: seq<Session>, ids: seq<Id>, roots: set<Id>)
    requires |sessions| == |ids| && (forall i :: 0 <= i < |ids| ==> sessions[i].id == ids[i]) && Lists(ids, roots)
    ensures (set i | 0 <= i < |sessions| :: sessions[i].id) == roots
  {
    var cards := set i | 0 <= i < |sessions| :: sessions[i].id;
    forall r | r in roots ensures r in cards {
      var i :| 0 <= i < |ids| && ids[i] == r;
      assert sessions[i].id == r;
    }
    forall r | r in cards ensures r in roots {
      var i :| 0 <= i < |sessions| && sessions[i].id == r;
      assert ids[i] in ids;
    }
  }

  // ----- whose results a card shows -----

  /** `c` is the nearest card at or above `d`. */
  ghost predicate Nearest(links: map<Id, Id>, cards: set<Id>, d: Id, c: Id)
    requires IsForest(links)
  {
    c in cards && Below(links, d, c) && forall e :: e in cards && Below(links, d, e) ==> Below(links, c, e)
  }

  lemma NearestUnique(links: map<Id, Id>, cards: set<Id>, d: Id, a: Id, b: Id)
    requires IsForest(links) && Nearest(links, cards, d, a) && Nearest(links, cards, d, b)
    ensures a == b
  {
    BelowDepth(links, a, b);
    BelowDepth(links, b, a);
  }

  /** What rolls up to a card is what has no nearer card. */
  lemma {:induction false} RollsToNearest(v: View, d: Id, c: Id)
    requires ViewOk(v) && d in v.final && c in VisibleRoots(v)
    ensures RollsTo(v, d, c) <==> d != c && Nearest(v.links, VisibleRoots(v), d, c)
    decreases Depth(v.links, d)
  {
    var cards := VisibleRoots(v);
    if d in cards {
      VisibleStopsRolling(v, d);
      if Nearest(v.links, cards, d, c) {
        assert Below(v.links, d, d) && Below(v.links, c, d);
        BelowDepth(v.links, c, d);
        BelowDepth(v.links, d, c);
      }
    } else if d in v.links {
      var p := v.links[d];
      assert v.final[d] == Idle && !Speaks(v, d);
      RollsToNearest(v, p, c);
      HiddenStep(v.links, cards, d, c);
      if p == c {
        assert Nearest(v.links, cards, p, c) by { NearestSelf(v.links, cards, c); }
      }
    }
  }

  lemma NearestSelf(links: map<Id, Id>, cards: set<Id>, c: Id)
    requires IsForest(links) && c in cards
    ensures Nearest(links, cards, c, c)
  {
  }

  /** A root without a card has the nearest card of its parent. */
  lemma HiddenStep(links: map<Id, Id>, cards: set<Id>, d: Id, c: Id)
    requires IsForest(links) && d in links && d !in cards
    ensures Nearest(links, cards, d, c) <==> Nearest(links, cards, links[d], c)
  {
  }

  /** The roots whose nearest card is `c`: the card itself, and those that show through it. */
  ghost function ShownOn(t: Table, cards: set<Id>, c: Id): set<Id> {
    set d | d in t && IsRoot(t, d) && Nearest(PaseoLinks(t), cards, d, c)
  }

  /** The newest of some stamps, none if none is set. */
  ghost predicate IsNewest(stamps: set<Option<Instant>>, o: Option<Instant>) {
    o in stamps && forall x :: x in stamps && x.Some? ==> o.Some? && x.value <= o.value
  }

  /** A card shows the newest stamps of the roots it stands for, and counts those unread besides itself. */
  ghost predicate ShowsFor(t: Table, cards: set<Id>, c: Id, f: CardFacts)
    requires ShownOn(t, cards, c) <= t.Keys
  {
    && IsNewest(set d | d in ShownOn(t, cards, c) :: t[d].unread, f.unreadSince)
    && IsNewest(set d | d in ShownOn(t, cards, c) :: t[d].done, f.doneSince)
    && f.pendingResults == |set d | d in ShownOn(t, cards, c) && d != c && t[d].unread.Some?|
  }

  lemma ShownIsRolled(v: View, c: Id)
    requires ViewOk(v) && v.links == PaseoLinks(v.t) && c in VisibleRoots(v)
    ensures ShownOn(v.t, VisibleRoots(v), c) == Rolled(v, c) + {c} && c !in Rolled(v, c)
  {
    VisibleStopsRolling(v, c);
    forall d ensures d in ShownOn(v.t, VisibleRoots(v), c) <==> d in Rolled(v, c) + {c} {
      ShownOrRolled(v, c, d);
    }
  }

  lemma ShownOrRolled(v: View, c: Id, d: Id)
    requires ViewOk(v) && v.links == PaseoLinks(v.t) && c in VisibleRoots(v)
    ensures d in ShownOn(v.t, VisibleRoots(v), c) <==> d == c || d in Rolled(v, c)
  {
    NearestSelf(v.links, VisibleRoots(v), c);
    if d in v.final {
      RollsToNearest(v, d, c);
    }
  }

  /** Stamps and counts over a set with one element set apart. */
  lemma SetApart(t: Table, rolled: set<Id>, c: Id)
    requires c in t && c !in rolled && rolled <= t.Keys
    ensures (set d | d in rolled + {c} :: t[d].unread) == {t[c].unread} + set d | d in rolled :: t[d].unread
    ensures (set d | d in rolled + {c} :: t[d].done) == {t[c].done} + set d | d in rolled :: t[d].done
    ensures (set d | d in rolled + {c} && d != c && t[d].unread.Some?) == set d | d in rolled && t[d].unread.Some?
  {
  }

  lemma LatestIsNewest(stamps: set<Option<Instant>>)
    requires stamps != {}
    ensures IsNewest(stamps, Latest(stamps))
  {
  }

  lemma StampsShown(v: View, c: Id)
    requires ViewOk(v) && v.links == PaseoLinks(v.t) && c in VisibleRoots(v)
    ensures ShowsFor(v.t, VisibleRoots(v), c, FactsOfRoot(v, c))
  {
    ShownIsRolled(v, c);
    SetApart(v.t, Rolled(v, c), c);
    LatestIsNewest({v.t[c].unread} + set d | d in Rolled(v, c) :: v.t[d].unread);
    LatestIsNewest({v.t[c].done} + set d | d in Rolled(v, c) :: v.t[d].done);
  }

  /** Every card shows exactly the results of the roots it is the nearest card of. */
  lemma StampsPublished(t: Table, order: seq<Id>)
    requires TopologyOk(t) && IsRootOrder(t, order)
    ensures var p := ProjectionOf(t, order);
            forall i :: 0 <= i < |p.sessions| ==> ShowsFor(t, Cards(p), p.sessions[i].id, p.sessions[i].facts)
  {
    var v, p := ViewOf(t), ProjectionOf(t, order);
    CardIds(t, order);
    ListedInTable(v, order);
    forall i | 0 <= i < |p.sessions| ensures ShowsFor(t, Cards(p), p.sessions[i].id, p.sessions[i].facts) {
      assert p.sessions[i] == SessionOf(v, VisibleIds(v, order)[i]);
      assert p.sessions[i].id in Cards(p);
      StampsShown(v, p.sessions[i].id);
    }
  }

  /** A kept result shows on exactly one card, with a stamp at least as new. */
  lemma ResultOnOneCard(t: Table, order: seq<Id>, d: Id) returns (i: nat)
    requires TopologyOk(t) && IsRootOrder(t, order) && IsRoot(t, d) && (t[d].unread.Some? || t[d].done.Some?)
    ensures var p := ProjectionOf(t, order);
            i < |p.sessions| && d in ShownOn(t, Cards(p), p.sessions[i].id)
            && (forall c :: c in Cards(p) && d in ShownOn(t, Cards(p), c) ==> c == p.sessions[i].id)
  {
    var v, p := ViewOf(t), ProjectionOf(t, order);
    CardIds(t, order);
    RollsToCarrierExists(v, d);
    var c := Carrier(v, d);
    CarrierNearest(v, d);
    i :| 0 <= i < |p.sessions| && p.sessions[i].id == c;
    forall e | e in Cards(p) && d in ShownOn(t, Cards(p), e) ensures e == c {
      NearestUnique(PaseoLinks(t), Cards(p), d, c, e);
    }
  }

  lemma {:induction false} CarrierNearest(v: View, d: Id)
    requires ViewOk(v) && d in v.final && Carrier(v, d) in VisibleRoots(v)
    ensures Nearest(v.links, VisibleRoots(v), d, Carrier(v, d))
    decreases Depth(v.links, d)
  {
    if d in VisibleRoots(v) {
      NearestSelf(v.links, VisibleRoots(v), d);
    } else {
      CarrierNearest(v, v.links[d]);
      HiddenStep(v.links, VisibleRoots(v), d, Carrier(v, d));
    }
  }

  // ----- columns -----

  /** The columns a card copies from its row. */
  ghost predicate CopiesRow(f: CardFacts, row: Row) {
    && f.title == row.title && f.project == row.project && f.model == row.model
    && f.statusSince == row.statusSince && f.activityLine == row.activityLine && f.lastEventAt == row.updatedAt
  }

  ghost predicate CopiesRootRow(f: CardFacts, row: Row) {
    && CopiesRow(f, row) && f.endedAt == row.ended && f.logicalSlot == row.slot
    && f.ghosttyTerminalId == row.ghosttyTerminalId && f.transcriptPath == row.transcriptPath
    && f.originKind == row.originKind && f.originRef == row.originRef && f.originParentRef == row.originParentRef
    && (f.originSubagent <==> row.originKind == Some(Paseo) && row.originSubagent)
  }

  /** A card shows its own row, and how many native rows hang below it. */
  ghost predicate ShowsRow(t: Table, s: Session)
    requires IsForest(NativeLinks(t))
  {
    && s.id in t && CopiesRootRow(s.facts, t[s.id])
    && s.descendantCount == |set j | j in t && j != s.id && Below(NativeLinks(t), j, s.id)|
  }

  lemma CardShowsRow(v: View, r: Id)
    requires ViewOk(v) && r in v.final
    ensures SessionOf(v, r).id == r && ShowsRow(v.t, SessionOf(v, r))
  {
  }

  lemma ColumnsPublished(t: Table, order: seq<Id>)
    requires TopologyOk(t) && IsRootOrder(t, order)
    ensures var p := ProjectionOf(t, order); forall i :: 0 <= i < |p.sessions| ==> ShowsRow(t, p.sessions[i])
  {
    ViewOfOk(t);
    var v, p := ViewOf(t), ProjectionOf(t, order);
    ListedInTable(v, order);
    forall i | 0 <= i < |p.sessions| ensures ShowsRow(t, p.sessions[i]) {
      CardShowsRow(v, VisibleIds(v, order)[i]);
    }
  }
}
