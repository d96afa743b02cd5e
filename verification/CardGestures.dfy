/** What a view and a dismissal do to the board, published card by published card. */
module CardGestures {
  import opened Common
  import opened Forest
  import opened Schema
  import opened RegistrySpec
  import opened ProjectionSpec
  import opened ProjectionLaws

  /** A rewrite that touches nothing but ledger columns. */
  ghost predicate LedgerOnly(a: Row, b: Row) {
    b == a.(unread := b.unread, done := b.done, viewed := b.viewed, acked := b.acked)
  }

  ghost predicate LedgersOnly(t: Table, u: Table) {
    t.Keys == u.Keys && forall k :: k in t ==> LedgerOnly(t[k], u[k])
  }

  /** Ledger rewrites move no link. */
  lemma SameLinks(t: Table, u: Table)
    requires TopologyOk(t) && LedgersOnly(t, u)
    ensures TopologyOk(u) && NativeLinks(u) == NativeLinks(t) && PaseoLinks(u) == PaseoLinks(t)
  {
    assert NativeLinks(u) == NativeLinks(t);
    assert RootFacts(u) == RootFacts(t);
  }

  lemma SameNative(t: Table, u: Table, k: Id)
    requires IsForest(NativeLinks(t)) && NativeLinks(u) == NativeLinks(t) && LedgersOnly(t, u)
    ensures NativeStatus(u, k) == NativeStatus(t, k) && DescendantCount(u, k) == DescendantCount(t, k)
  {
    assert (set j | j in u && Below(NativeLinks(u), j, k) :: OwnStatus(u[j]))
        == (set j | j in t && Below(NativeLinks(t), j, k) :: OwnStatus(t[j]));
    assert (set j | j in u && j != k && Below(NativeLinks(u), j, k))
        == (set j | j in t && j != k && Below(NativeLinks(t), j, k));
  }

  /** Ledger rewrites move no root and no status. */
  lemma SameStatuses(t: Table, u: Table)
    requires IsForest(NativeLinks(t)) && NativeLinks(u) == NativeLinks(t) && LedgersOnly(t, u)
    ensures RootStatuses(u) == RootStatuses(t)
  {
    forall k | k in t ensures NativeStatus(u, k) == NativeStatus(t, k) {
      SameNative(t, u, k);
    }
  }

  lemma SameView(t: Table, u: Table)
    requires TopologyOk(t) && LedgersOnly(t, u)
    ensures TopologyOk(u)
    ensures TableView(u) == View(u, TableView(t).links, TableView(t).final)
  {
    SameLinks(t, u);
    SameStatuses(t, u);
    assert TableView(u).final == TableView(t).final;
  }

  /** The registry cascades a gesture over exactly the lineage the projection publishes. */
  lemma CascadeIsLineage(t: Table, c: Id)
    requires IsRoot(t, c)
    ensures PaseoSubtree(t, c, map[]) == Subtree(PaseoLinks(t), c)
    ensures forall d :: d in PaseoSubtree(t, c, map[]) <==> d in t && IsRoot(t, d) && Below(PaseoLinks(t), d, c)
  {
    PaseoRowsSuffice(t);
  }

  lemma GesturesTouchLedgersOnly(t: Table, ids: set<Id>, c: Id, at: Instant, watermark: Watermark)
    ensures LedgersOnly(t, ViewAmong(t, ids, c, at, watermark))
    ensures (forall d :: d in ids && d in t ==> t[d].status != Error) ==>
              LedgersOnly(t, AckAmong(t, ids, at, watermark))
  {
  }

  // ----- causal protection -----

  /** A result newer than the gesture's snapshot showed keeps its whole row. */
  lemma NewerResultUntouched(t: Table, c: Id, d: Id, at: Instant, shown: Option<Instant>)
    requires d in t && Newer(t[d].unread, shown)
    ensures AfterView(t, c, at, Some(shown))[d] == t[d]
    ensures AfterAck(t, c, at, Some(shown))[d] == t[d]
  {
  }

  // ----- reading -----

  /** Everything that rolls up to a card is within the stamp the card publishes. */
  lemma RolledWithinStamp(v: View, c: Id)
    requires LineageOk(v) && c in v.final
    ensures !Newer(v.t[c].unread, AggregatedUnread(v, c))
    ensures forall d :: d in Rolled(v, c) ==> !Newer(v.t[d].unread, AggregatedUnread(v, c))
  {
    var stamps := {v.t[c].unread} + set d | d in Rolled(v, c) :: v.t[d].unread;
    assert IsLatest(stamps, AggregatedUnread(v, c));
  }

  lemma NotNewerConsumable(row: Row, shown: Option<Instant>)
    requires !Newer(row.unread, shown)
    ensures Consumable(row, Some(shown))
  {
  }

  /** Who speaks and who rolls depends on the ledger of unlinked roots only. */
  lemma {:induction false} SameRolling(v: View, w: View, d: Id, r: Id)
    requires LineageOk(v) && LineageOk(w) && w.links == v.links && w.final == v.final && d in v.final
    requires forall x :: x in v.final && x !in v.links && Below(v.links, d, x) && x != r ==>
               HoldsLedger(w.t[x]) == HoldsLedger(v.t[x])
    ensures RollsTo(w, d, r) == RollsTo(v, d, r)
    decreases Depth(v.links, d)
  {
    if d in v.links {
      SameRolling(v, w, v.links[d], r);
    }
  }

  /**
   * On an unchanged registry, viewing a card with the stamp it publishes
   * leaves it without unread and without pending results, and keeps its
   * published done stamp.
   */
  lemma ViewClearsCard(t: Table, c: Id, at: Instant)
    requires TopologyOk(t)
    requires c in TableView(t).final
    ensures var v := TableView(t);
            var u := AfterView(t, c, at, Some(AggregatedUnread(v, c)));
            TopologyOk(u) && var w := TableView(u);
            ViewOk(w) && c in w.final && AggregatedUnread(w, c).None? && PendingResults(w, c) == 0
            && Rolled(w, c) == Rolled(v, c) && w.links == v.links && w.final == v.final
  {
    var v := TableView(t);
    var shown := AggregatedUnread(v, c);
    var ids := PaseoSubtree(t, c, map[]);
    var u := AfterView(t, c, at, Some(shown));
    GesturesTouchLedgersOnly(t, ids, c, at, Some(shown));
    SameView(t, u);
    CascadeIsLineage(t, c);
    SameRolled(v, TableView(u), ids, c);
    CascadeCleared(v, u, c, at);
    ClearedCard(TableView(u), c);
  }

  lemma SameRolled(v: View, w: View, ids: set<Id>, c: Id)
    requires LineageOk(v) && LineageOk(w) && w.links == v.links && w.final == v.final && c in v.final
    requires forall x :: x in v.final && x !in ids ==> w.t[x] == v.t[x]
    requires forall x :: x in ids && x in v.final ==> Below(v.links, x, c)
    ensures Rolled(w, c) == Rolled(v, c)
  {
    forall d | d in v.final ensures RollsTo(w, d, c) == RollsTo(v, d, c) {
      RollingUnmoved(v, w, ids, c, d);
    }
  }

  lemma CascadeCleared(v: View, u: Table, c: Id, at: Instant)
    requires LineageOk(v) && c in v.final && IsRoot(v.t, c) && v.links == PaseoLinks(v.t)
    requires u == AfterView(v.t, c, at, Some(AggregatedUnread(v, c)))
    ensures u[c].unread.None?
    ensures forall d :: d in Rolled(v, c) ==> u[d].unread.None?
  {
    var shown := AggregatedUnread(v, c);
    RolledWithinStamp(v, c);
    CascadeHolds(v, c);
    ViewedClears(v.t, PaseoSubtree(v.t, c, map[]), c, c, at, shown);
    forall d | d in Rolled(v, c) ensures u[d].unread.None? {
      ViewedClears(v.t, PaseoSubtree(v.t, c, map[]), c, d, at, shown);
    }
  }

  /** A card and everything that rolls up to it are in the gesture's cascade. */
  lemma CascadeHolds(v: View, c: Id)
    requires LineageOk(v) && c in v.final && IsRoot(v.t, c) && v.links == PaseoLinks(v.t)
    ensures c in PaseoSubtree(v.t, c, map[])
    ensures forall d :: d in Rolled(v, c) ==> d in PaseoSubtree(v.t, c, map[])
  {
    CascadeIsLineage(v.t, c);
    forall d | d in Rolled(v, c) ensures d in Subtree(v.links, c) {
      RollsBelow(v, d, c);
    }
  }

  lemma ViewedClears(t: Table, ids: set<Id>, c: Id, d: Id, at: Instant, shown: Option<Instant>)
    requires d in ids && d in t && !Newer(t[d].unread, shown)
    ensures ViewAmong(t, ids, c, at, Some(shown))[d].unread.None?
  {
    NotNewerConsumable(t[d], shown);
  }

  lemma ClearedCard(w: View, c: Id)
    requires LineageOk(w) && c in w.final && w.t[c].unread.None?
    requires forall d :: d in Rolled(w, c) ==> w.t[d].unread.None?
    ensures AggregatedUnread(w, c).None? && PendingResults(w, c) == 0
  {
    assert (set d | d in Rolled(w, c) && w.t[d].unread.Some?) == {};
    assert ({w.t[c].unread} + set d | d in Rolled(w, c) :: w.t[d].unread) == {None};
  }

  /** Rewriting ledgers inside one cascade leaves rolling towards its head unmoved. */
  lemma RollingUnmoved(v: View, w: View, ids: set<Id>, c: Id, d: Id)
    requires LineageOk(v) && LineageOk(w) && w.links == v.links && w.final == v.final && d in v.final && c in v.final
    requires forall x :: x in v.final && x !in ids ==> w.t[x] == v.t[x]
    requires forall x :: x in ids && x in v.final ==> Below(v.links, x, c)
    ensures RollsTo(w, d, c) == RollsTo(v, d, c)
  {
    forall x | x in v.final && x !in v.links && Below(v.links, d, x) && x != c
      ensures HoldsLedger(w.t[x]) == HoldsLedger(v.t[x])
    {
      assert Below(v.links, x, c) <==> x == c;
    }
    SameRolling(v, w, d, c);
  }

  /** Below an idle card everything is idle, so everything rolls up to it. */
  lemma {:induction false} IdleAllRoll(v: View, d: Id, c: Id)
    requires LineageOk(v) && c in v.final && v.final[c] == Idle
    requires d in v.final && Below(v.links, d, c)
    ensures v.final[d] == Idle
    ensures d != c ==> RollsTo(v, d, c)
    decreases Depth(v.links, d)
  {
    if d != c {
      IdleAllRoll(v, v.links[d], c);
    }
  }

  /** A viewed card stays on the board exactly when it is active or publishes a done stamp. */
  lemma ViewedCardStays(t: Table, c: Id, at: Instant)
    requires TopologyOk(t)
    requires c in TableView(t).final && Visible(TableView(t), c)
    ensures var v := TableView(t);
            var u := AfterView(t, c, at, Some(AggregatedUnread(v, c)));
            TopologyOk(u) && c in TableView(u).final
            && (Visible(TableView(u), c) <==> v.final[c] != Idle || AggregatedDone(v, c).Some?)
  {
    var v := TableView(t);
    var shown := AggregatedUnread(v, c);
    var u := AfterView(t, c, at, Some(shown));
    GesturesTouchLedgersOnly(t, PaseoSubtree(t, c, map[]), c, at, Some(shown));
    SameView(t, u);
    if v.final[c] == Idle {
      CascadeCleared(v, u, c, at);
      ViewKeepsDone(t, c, at, Some(shown));
      IdleCardHolds(v, View(u, v.links, v.final), c);
    }
  }

  lemma ViewKeepsDone(t: Table, c: Id, at: Instant, watermark: Watermark)
    ensures forall d :: d in t ==> AfterView(t, c, at, watermark)[d].done == t[d].done
  {
  }

  /** With every unread stamp below an idle card gone, only done stamps hold it. */
  lemma IdleCardHolds(v: View, w: View, c: Id)
    requires LineageOk(v) && LineageOk(w) && w.links == v.links && w.final == v.final
    requires c in v.final && v.final[c] == Idle && c !in v.links
    requires forall d :: d in v.final ==> w.t[d].done == v.t[d].done
    requires w.t[c].unread.None? && forall d :: d in Rolled(v, c) ==> w.t[d].unread.None?
    ensures Visible(w, c) <==> AggregatedDone(v, c).Some?
  {
    var stamps := {v.t[c].done} + set d | d in Rolled(v, c) :: v.t[d].done;
    assert IsLatest(stamps, AggregatedDone(v, c));
    if Visible(w, c) && !HoldsLedger(w.t[c]) {
      var d :| d in w.final && d != c && Below(w.links, d, c) && HoldsLedger(w.t[d]);
      IdleAllRoll(v, d, c);
      assert v.t[d].done in stamps;
    }
    if AggregatedDone(v, c).Some? && w.t[c].done.None? {
      var d :| d in Rolled(v, c) && v.t[d].done == AggregatedDone(v, c);
      RollsBelow(v, d, c);
    }
  }

  // ----- dismissal -----

  /** A dismissal leaves nothing of an idle card's cascade holding a ledger, and changes nothing else. */
  lemma IdleDismissal(t: Table, c: Id, at: Instant)
    requires TopologyOk(t)
    requires c in TableView(t).final && TableView(t).final[c] == Idle
    ensures var v := TableView(t);
            var u := AfterAck(t, c, at, Some(AggregatedUnread(v, c)));
            LedgersOnly(t, u)
            && (forall d :: d in v.final && Below(v.links, d, c) ==> !HoldsLedger(u[d]))
            && (forall d :: d in t && !(d in v.final && Below(v.links, d, c)) ==> u[d] == t[d])
  {
    var v := TableView(t);
    var shown := AggregatedUnread(v, c);
    var ids := PaseoSubtree(t, c, map[]);
    CascadeIsLineage(t, c);
    forall d | d in ids ensures d in v.final && t[d].status == Idle && Consumable(t[d], Some(shown)) {
      IdleConsumable(v, c, d);
    }
    GesturesTouchLedgersOnly(t, ids, c, at, Some(shown));
    AckedLedgers(t, ids, at, Some(shown));
  }

  lemma IdleConsumable(v: View, c: Id, d: Id)
    requires ViewOk(v) && c in v.final && v.final[c] == Idle
    requires d in v.final && Below(v.links, d, c)
    ensures v.t[d].status == Idle && Consumable(v.t[d], Some(AggregatedUnread(v, c)))
  {
    IdleAllRoll(v, d, c);
    RolledWithinStamp(v, c);
    if d != c {
      assert d in Rolled(v, c);
    }
    NotNewerConsumable(v.t[d], AggregatedUnread(v, c));
  }

  lemma AckedLedgers(t: Table, ids: set<Id>, at: Instant, watermark: Watermark)
    ensures forall d :: d in ids && d in t && Consumable(t[d], watermark) ==>
              !HoldsLedger(AckAmong(t, ids, at, watermark)[d])
    ensures forall d :: d in t && d !in ids ==> AckAmong(t, ids, at, watermark)[d] == t[d]
  {
  }

  /** The before and after of a dismissed idle card, as the board sees them. */
  ghost predicate Dismissed(v: View, w: View, c: Id) {
    && ViewOk(v) && ViewOk(w)
    && LedgersOnly(v.t, w.t) && w.links == v.links && w.final == v.final
    && c in v.final && v.final[c] == Idle && c !in v.links
    && (forall d :: d in v.final && Below(v.links, d, c) ==> !HoldsLedger(w.t[d]))
    && (forall d :: d in v.t && !(d in v.final && Below(v.links, d, c)) ==> w.t[d] == v.t[d])
  }

  /** Another root's lineage never meets the dismissed cascade. */
  lemma OtherCascade(v: View, c: Id, d: Id, r: Id)
    requires LineageOk(v) && c in v.final && c !in v.links && d in v.final && r in v.final
    requires Below(v.links, d, r) && !Below(v.links, r, c)
    ensures !Below(v.links, d, c)
  {
    if Below(v.links, d, c) {
      AncestorsChain(v.links, d, c, r);
    }
  }

  lemma RollingElsewhere(v: View, w: View, c: Id, d: Id, r: Id)
    requires Dismissed(v, w, c) && d in v.final && r in v.final && !Below(v.links, r, c)
    ensures RollsTo(w, d, r) == RollsTo(v, d, r)
  {
    if Below(v.links, d, r) {
      OtherCascade(v, c, d, r);
      forall x | x in v.final && x !in v.links && Below(v.links, d, x) && x != r
        ensures HoldsLedger(w.t[x]) == HoldsLedger(v.t[x])
      {
        OtherTop(v, c, d, x);
      }
      SameRolling(v, w, d, r);
    } else {
      if RollsTo(v, d, r) { RollsBelow(v, d, r); }
      if RollsTo(w, d, r) { RollsBelow(w, d, r); }
    }
  }

  lemma OtherTop(v: View, c: Id, d: Id, x: Id)
    requires LineageOk(v) && x !in v.links && Below(v.links, d, x) && !Below(v.links, d, c)
    ensures !Below(v.links, x, c)
  {
    if Below(v.links, x, c) {
      BelowTransitive(v.links, d, x, c);
    }
  }

  /** Every other root publishes exactly the facts it published before. */
  lemma OtherCardSame(v: View, w: View, c: Id, r: Id)
    requires Dismissed(v, w, c) && r in v.final && !Below(v.links, r, c)
    ensures FactsOfRoot(w, r) == FactsOfRoot(v, r)
    ensures HasDescendantLedger(w, r) == HasDescendantLedger(v, r)
    ensures Visible(w, r) == Visible(v, r)
  {
    forall d | d in v.final ensures RollsTo(w, d, r) == RollsTo(v, d, r) {
      RollingElsewhere(v, w, c, d, r);
    }
    forall d | d in v.final && Below(v.links, d, r) ensures w.t[d] == v.t[d] {
      OtherCascade(v, c, d, r);
    }
    SameCard(v, w, r);
  }

  /** A root publishes the same facts when the same rows roll up to it unchanged. */
  lemma SameCard(v: View, w: View, r: Id)
    requires LineageOk(v) && LineageOk(w) && w.links == v.links && w.final == v.final && r in v.final
    requires LedgersOnly(v.t, w.t) && forall d :: d in v.final ==> RollsTo(w, d, r) == RollsTo(v, d, r)
    requires forall d :: d in v.final && Below(v.links, d, r) ==> w.t[d] == v.t[d]
    ensures FactsOfRoot(w, r) == FactsOfRoot(v, r)
    ensures HasDescendantLedger(w, r) == HasDescendantLedger(v, r)
    ensures Visible(w, r) == Visible(v, r)
  {
    forall d | d in Rolled(v, r) ensures w.t[d] == v.t[d] {
      RollsBelow(v, d, r);
    }
    assert Below(v.links, r, r);
    SameStamps(v.t, w.t, Rolled(v, r));
    assert Rolled(w, r) == Rolled(v, r);
  }

  lemma SameStamps(t: Table, u: Table, rolled: set<Id>)
    requires forall d :: d in rolled ==> d in t && d in u && u[d] == t[d]
    ensures (set d | d in rolled && u[d].unread.Some?) == set d | d in rolled && t[d].unread.Some?
    ensures (set d | d in rolled :: u[d].unread) == set d | d in rolled :: t[d].unread
    ensures (set d | d in rolled :: u[d].done) == set d | d in rolled :: t[d].done
  {
  }

  /** Inside the cascade nothing is published any more; before, only the card itself was. */
  lemma CascadeHidden(v: View, w: View, c: Id, d: Id)
    requires Dismissed(v, w, c) && d in v.final && Below(v.links, d, c)
    ensures !Visible(w, d)
    ensures d != c ==> !Visible(v, d)
  {
    IdleAllRoll(v, d, c);
    forall e | e in w.final && Below(w.links, e, d) ensures !HoldsLedger(w.t[e]) {
      BelowTransitive(v.links, e, d, c);
    }
  }

  lemma VisibleAfter(v: View, w: View, c: Id)
    requires Dismissed(v, w, c)
    ensures forall r :: r in v.final ==> (Visible(w, r) <==> Visible(v, r) && r != c)
    ensures forall r :: r in v.final && Visible(w, r) ==> FactsOfRoot(w, r) == FactsOfRoot(v, r)
  {
    forall r | r in v.final
      ensures (Visible(w, r) <==> Visible(v, r) && r != c) && (Visible(w, r) ==> FactsOfRoot(w, r) == FactsOfRoot(v, r))
    {
      if Below(v.links, r, c) {
        CascadeHidden(v, w, c, r);
      } else {
        OtherCardSame(v, w, c, r);
      }
    }
  }
}
