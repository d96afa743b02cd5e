/** Which dismissals take a card off the board: the eligibility test promises one thing, the registry does another. */
module Flick {
  import opened Common
  import opened Forest
  import opened Schema
  import opened RegistrySpec
  import opened RegistryRuns
  import opened ProjectionSpec
  import opened ProjectionLaws
  import opened CardGestures

  /** The eligibility test shared by the flick and the action sheet, on the published facts. */
  predicate FlickRemoves(f: CardFacts) {
    f.status == Error || (f.status == Idle && (f.unreadSince.Some? || f.doneSince.Some?))
  }

  /** The columns that place a row: its parent, slot, terminal, and Paseo facts. */
  ghost predicate SamePlacing(a: Row, b: Row) {
    && a.parent == b.parent && a.slot == b.slot
    && a.ghosttyTerminalId == b.ghosttyTerminalId && PaseoFacts(a) == PaseoFacts(b)
  }

  ghost predicate SamePlacings(t: Table, u: Table) {
    t.Keys == u.Keys && forall k :: k in t ==> SamePlacing(t[k], u[k])
  }

  lemma PlacingKeepsNative(t: Table, u: Table)
    requires TopologyOk(t) && SamePlacings(t, u)
    ensures TopologyOk(u) && NativeLinks(u) == NativeLinks(t)
  {
    assert NativeLinks(u) == NativeLinks(t);
  }

  lemma PlacingKeepsLineage(t: Table, u: Table)
    requires SamePlacings(t, u)
    ensures PaseoLinks(u) == PaseoLinks(t)
  {
    assert RootFacts(u) == RootFacts(t);
  }

  lemma PlacingKeepsView(t: Table, u: Table)
    requires TopologyOk(t) && SamePlacings(t, u)
    ensures TopologyOk(u)
    ensures TableView(u).links == TableView(t).links && TableView(u).final.Keys == TableView(t).final.Keys
  {
    PlacingKeepsNative(t, u);
    PlacingKeepsLineage(t, u);
  }

  /** A root still on the board. */
  ghost predicate OnBoard(t: Table, c: Id) {
    TopologyOk(t) && c in TableView(t).final && Visible(TableView(t), c)
  }

  /** Everything from a root down its lineage is idle and childless. */
  ghost predicate CascadeIdle(v: View, r: Id)
    requires LineageOk(v)
  {
    forall d :: d in v.final && Below(v.links, d, r) ==> v.t[d].status == Idle && NoNativeChild(v.t, d)
  }

  /** Nothing from a root down its lineage holds a ledger. */
  ghost predicate CascadeBare(v: View, r: Id)
    requires LineageOk(v)
  {
    forall d :: d in v.final && Below(v.links, d, r) ==> !HoldsLedger(v.t[d])
  }

  /** A root publishes idle exactly when everything below it is idle and childless. */
  lemma IdleExactly(t: Table, r: Id)
    requires TopologyOk(t) && r in TableView(t).final
    ensures TableView(t).final[r] == Idle <==> CascadeIdle(TableView(t), r)
  {
    var v := TableView(t);
    if v.final[r] == Idle {
      forall d | d in v.final && Below(v.links, d, r) ensures t[d].status == Idle && NoNativeChild(t, d) {
        IdleAllRoll(v, d, r);
      }
    }
    if CascadeIdle(v, r) {
      CarriedIsMaximum(v.links, RootStatuses(t), r);
      var d :| d in v.final && Below(v.links, d, r) && RootStatuses(t)[d] == v.final[r];
      LoneStatus(t, d);
    }
  }

  lemma LoneStatus(t: Table, d: Id)
    requires IsForest(NativeLinks(t)) && IsRoot(t, d) && NoNativeChild(t, d)
    ensures NativeStatus(t, d) == t[d].status
  {
    NativeIsMaximum(t, d);
    var j :| j in t && Below(NativeLinks(t), j, d) && OwnStatus(t[j]) == NativeStatus(t, d);
    if j != d {
      var c := BelowChild(NativeLinks(t), j, d);
      assert false;
    }
  }

  /** A root is off the board exactly when its cascade is idle and either it is linked or no ledger is left below. */
  lemma OffBoardExactly(t: Table, r: Id)
    requires TopologyOk(t) && r in TableView(t).final
    ensures !Visible(TableView(t), r)
            <==> CascadeIdle(TableView(t), r) && (r in TableView(t).links || CascadeBare(TableView(t), r))
  {
    IdleExactly(t, r);
    BareExactly(TableView(t), r);
  }

  lemma BareExactly(v: View, r: Id)
    requires LineageOk(v) && r in v.final
    ensures CascadeBare(v, r) <==> !HoldsLedger(v.t[r]) && !HasDescendantLedger(v, r)
  {
    assert Below(v.links, r, r);
  }

  /** What one dismissed row still contributes. */
  predicate RowSettles(row: Row, watermark: Watermark) {
    row.status == Idle || (row.status == Error && Consumable(row, watermark))
  }

  lemma AckedRowSettles(t: Table, ids: set<Id>, at: Instant, watermark: Watermark, d: Id)
    requires d in t && d in ids
    ensures var u := AckAmong(t, ids, at, watermark);
            (u[d].status == Idle <==> RowSettles(t[d], watermark))
            && (HoldsLedger(u[d]) <==> HoldsLedger(t[d]) && !Consumable(t[d], watermark))
  {
  }

  lemma AckKeepsChildren(t: Table, ids: set<Id>, at: Instant, watermark: Watermark, d: Id)
    ensures NoNativeChild(AckAmong(t, ids, at, watermark), d) <==> NoNativeChild(t, d)
  {
    var u := AckAmong(t, ids, at, watermark);
    if NoNativeChild(t, d) {
      forall j | j in u && u[j].parent.Some? ensures ParentId(j, u[j]) != d {
        assert ParentId(j, t[j]) != d;
      }
    }
    if NoNativeChild(u, d) {
      forall j | j in t && t[j].parent.Some? ensures ParentId(j, t[j]) != d {
        assert ParentId(j, u[j]) != d;
      }
    }
  }

  /** Everything the dismissal reaches is settled: idle or a retired error, with no native child. */
  ghost predicate CascadeSettles(v: View, c: Id, watermark: Watermark)
    requires LineageOk(v)
  {
    forall d :: d in v.final && Below(v.links, d, c) ==> RowSettles(v.t[d], watermark) && NoNativeChild(v.t, d)
  }

  /** Every ledger the dismissal reaches is one its snapshot had shown. */
  ghost predicate CascadeConsumed(v: View, c: Id, watermark: Watermark)
    requires LineageOk(v)
  {
    forall d :: d in v.final && Below(v.links, d, c) && HoldsLedger(v.t[d]) ==> Consumable(v.t[d], watermark)
  }

  /** The view after a dismissal of `c`, row by row along its cascade. */
  ghost predicate Settled(v: View, w: View, c: Id, watermark: Watermark)
    requires LineageOk(v) && LineageOk(w)
  {
    && w.links == v.links && w.final.Keys == v.final.Keys
    && forall d :: d in v.final && Below(v.links, d, c) ==>
         (w.t[d].status == Idle <==> RowSettles(v.t[d], watermark))
         && (NoNativeChild(w.t, d) <==> NoNativeChild(v.t, d))
         && (HoldsLedger(w.t[d]) <==> HoldsLedger(v.t[d]) && !Consumable(v.t[d], watermark))
  }

  lemma SettledExactly(v: View, w: View, c: Id, watermark: Watermark)
    requires LineageOk(v) && LineageOk(w) && Settled(v, w, c, watermark)
    ensures CascadeIdle(w, c) <==> CascadeSettles(v, c, watermark)
    ensures CascadeBare(w, c) <==> CascadeConsumed(v, c, watermark)
  {
  }

  lemma AckPlaces(t: Table, ids: set<Id>, at: Instant, watermark: Watermark)
    ensures SamePlacings(t, AckAmong(t, ids, at, watermark))
  {
  }

  lemma AckSettles(t: Table, c: Id, at: Instant, watermark: Watermark)
    requires TopologyOk(t) && c in TableView(t).final
    ensures var u := AfterAck(t, c, at, watermark);
            TopologyOk(u) && Settled(TableView(t), TableView(u), c, watermark)
  {
    var ids := PaseoSubtree(t, c, map[]);
    AckPlaces(t, ids, at, watermark);
    PlacingKeepsView(t, AckAmong(t, ids, at, watermark));
    CascadeIsLineage(t, c);
    forall d | d in TableView(t).final && Below(TableView(t).links, d, c)
      ensures RowSettled(t[d], t, ids, at, watermark, d)
    {
      AckedRowSettles(t, ids, at, watermark, d);
      AckKeepsChildren(t, ids, at, watermark, d);
    }
  }

  ghost predicate RowSettled(row: Row, t: Table, ids: set<Id>, at: Instant, watermark: Watermark, d: Id)
    requires d in t
  {
    var u := AckAmong(t, ids, at, watermark);
    && (u[d].status == Idle <==> RowSettles(row, watermark)) && (NoNativeChild(u, d) <==> NoNativeChild(t, d))
    && (HoldsLedger(u[d]) <==> HoldsLedger(row) && !Consumable(row, watermark))
  }

  /**
   * Whatever the watermark, a dismissal takes a root off the board exactly when its whole cascade settles and is
   * consumed.
   */
  lemma DismissalExactly(t: Table, c: Id, at: Instant, watermark: Watermark)
    requires TopologyOk(t) && c in TableView(t).final
    ensures TopologyOk(AfterAck(t, c, at, watermark)) && c in TableView(AfterAck(t, c, at, watermark)).final
    ensures !OnBoard(AfterAck(t, c, at, watermark), c)
            <==> CascadeSettles(TableView(t), c, watermark)
                 && (c in TableView(t).links || CascadeConsumed(TableView(t), c, watermark))
  {
    var u := AfterAck(t, c, at, watermark);
    AckSettles(t, c, at, watermark);
    SettledExactly(TableView(t), TableView(u), c, watermark);
    OffBoardExactly(u, c);
  }

  /** For an idle card the promise holds, and every idle card on the board is eligible. */
  lemma IdleFlickRemoves(t: Table, c: Id, at: Instant)
    requires TopologyOk(t) && c in TableView(t).final
    requires Visible(TableView(t), c) && TableView(t).final[c] == Idle
    ensures FlickRemoves(FactsOfRoot(TableView(t), c))
    ensures TopologyOk(AfterAck(t, c, at, Some(AggregatedUnread(TableView(t), c))))
    ensures !OnBoard(AfterAck(t, c, at, Some(AggregatedUnread(TableView(t), c))), c)
  {
    IdleEligible(TableView(t), c);
    DismissalExactly(t, c, at, Some(AggregatedUnread(TableView(t), c)));
    IdleSettles(t, c);
  }

  lemma IdleSettles(t: Table, c: Id)
    requires TopologyOk(t) && c in TableView(t).final && TableView(t).final[c] == Idle
    ensures CascadeSettles(TableView(t), c, Some(AggregatedUnread(TableView(t), c)))
    ensures CascadeConsumed(TableView(t), c, Some(AggregatedUnread(TableView(t), c)))
  {
    var v := TableView(t);
    IdleExactly(t, c);
    forall d | d in v.final && Below(v.links, d, c) ensures Consumable(t[d], Some(AggregatedUnread(v, c))) {
      IdleConsumable(v, c, d);
    }
  }

  lemma IdleEligible(v: View, c: Id)
    requires ViewOk(v) && c in v.final && Visible(v, c) && v.final[c] == Idle
    ensures AggregatedUnread(v, c).Some? || AggregatedDone(v, c).Some?
  {
    var unread := {v.t[c].unread} + set d | d in Rolled(v, c) :: v.t[d].unread;
    var done := {v.t[c].done} + set d | d in Rolled(v, c) :: v.t[d].done;
    assert IsLatest(unread, AggregatedUnread(v, c)) && IsLatest(done, AggregatedDone(v, c));
    if !HoldsLedger(v.t[c]) {
      var d :| d in v.final && d != c && Below(v.links, d, c) && HoldsLedger(v.t[d]);
      IdleAllRoll(v, d, c);
      assert v.t[d].unread in unread && v.t[d].done in done;
    }
  }

  // ----- where the promise fails -----

  /** A card with a native child survives any dismissal, even when it is eligible for one. */
  lemma ParentFlickStays(t: Table, c: Id, at: Instant, watermark: Watermark)
    requires TopologyOk(t) && c in TableView(t).final && !NoNativeChild(t, c)
    ensures OnBoard(AfterAck(t, c, at, watermark), c)
  {
    DismissalExactly(t, c, at, watermark);
    assert Below(TableView(t).links, c, c);
  }

  lemma FailedRootPublishesError(t: Table, c: Id)
    requires TopologyOk(t) && c in TableView(t).final && t[c].status == Error
    ensures FlickRemoves(FactsOfRoot(TableView(t), c))
  {
    CarriedIsMaximum(TableView(t).links, RootStatuses(t), c);
    NativeIsMaximum(t, c);
    assert Below(NativeLinks(t), c, c) && Below(TableView(t).links, c, c);
  }

  /** A session starts a subagent and fails. */
  function FailedFamily(): seq<Event> {
    var a, b := Id(Claude, "a"), Id(Claude, "b");
    [SessionStart(a, None, None, None, None, None, None, 1),
     SubagentStart(b, "a", None, None, None, 2), StatusEvent(a, StopFailure, 3)]
  }

  lemma FamilyStarted()
    ensures WellFormed(map[])
    ensures var t := AfterEvents(map[], FailedFamily()[..2]);
            t.Keys == {Id(Claude, "a"), Id(Claude, "b")}
            && t[Id(Claude, "a")].parent.None? && t[Id(Claude, "b")].parent == Some("a")
  {
    FirstEvents([]);
    var e := FailedFamily();
    EventsSnoc(map[], [], e[0]);
    EventsSnoc(map[], [e[0]], e[1]);
    var t := AfterEvents(map[], [e[0]]);
    assert t.Keys == {Id(Claude, "a")} && Id(Claude, "b") !in t;
    assert ValidProspectiveParent(t, Id(Claude, "b"), "a");
    assert e[..2] == [e[0]] + [e[1]];
  }

  lemma FamilyFailed()
    ensures var t, a := Run([Hooks(FailedFamily())]), Id(Claude, "a");
            IsRoot(t, a) && t[a].status == Error && !NoNativeChild(t, a)
  {
    var e := FailedFamily();
    FirstEvents(e);
    FamilyStarted();
    EventsSnoc(map[], e[..2], e[2]);
    assert e == e[..2] + [e[2]];
    FailureMarks(AfterEvents(map[], e[..2]), Id(Claude, "a"), Id(Claude, "b"));
  }

  lemma FailureMarks(t: Table, a: Id, b: Id)
    requires WellFormed(t) && IsRoot(t, a) && b in t && b != a && t[b].parent.Some? && ParentId(b, t[b]) == a
    ensures var u := AfterEvent(t, StatusEvent(a, StopFailure, 3)).0;
            IsRoot(u, a) && u[a].status == Error && !NoNativeChild(u, a)
  {
    var u := AfterEvent(t, StatusEvent(a, StopFailure, 3)).0;
    assert u[b] == t[b];
  }

  /** Dismissing a failed parent as its own snapshot showed it: eligible, and still on the board afterwards. */
  lemma FailedParentStays(t: Table, c: Id, at: Instant)
    requires TopologyOk(t) && IsRoot(t, c) && t[c].status == Error && !NoNativeChild(t, c)
    ensures c in TableView(t).final && FlickRemoves(FactsOfRoot(TableView(t), c))
    ensures OnBoard(AfterAck(t, c, at, Some(AggregatedUnread(TableView(t), c))), c)
  {
    ViewOfOk(t);
    FailedRootPublishesError(t, c);
    ParentFlickStays(t, c, at, Some(AggregatedUnread(TableView(t), c)));
  }

  /** Such a card comes about: a session starts a subagent and fails, and its card outlives the dismissal. */
  lemma ErrorFlickMayStay(at: Instant) returns (ops: seq<Op>, c: Id)
    ensures var t := Run(ops);
            TopologyOk(t) && c in TableView(t).final && FlickRemoves(FactsOfRoot(TableView(t), c))
            && OnBoard(AfterAck(t, c, at, Some(AggregatedUnread(TableView(t), c))), c)
  {
    ops, c := [Hooks(FailedFamily())], Id(Claude, "a");
    FamilyFailed();
    FailedParentStays(Run(ops), c, at);
  }
}
