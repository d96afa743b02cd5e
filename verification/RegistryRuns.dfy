/** What every mutation keeps, and safety over whole runs from an empty registry. */
module RegistryRuns {
  import opened Common
  import opened Forest
  import opened Schema
  import opened RegistrySpec

  /** The registry invariant. */
  ghost predicate Inv(t: Table) {
    WellFormed(t) && LedgersOk(t)
  }

  /** Surviving rows keep their slot. */
  ghost predicate SlotsStable(t: Table, u: Table) {
    forall k :: k in t && k in u ==> u[k].slot == t[k].slot
  }

  /** No root with an unread result is deleted, cleared, or moved back in time. */
  ghost predicate UnreadKept(t: Table, u: Table) {
    forall k :: IsRoot(t, k) && t[k].unread.Some? ==>
      IsRoot(u, k) && u[k].unread.Some? && u[k].unread.value >= t[k].unread.value
  }

  // ----- single steps -----

  ghost predicate LedgerOk(row: Row) {
    (row.unread.Some? ==> row.viewed.None?) && row.ended.None?
  }

  /** A rewrite of one row that keeps its shape and its ledger discipline. */
  ghost predicate RowKept(k: Id, a: Row, b: Row) {
    && a.parent == b.parent && a.slot == b.slot
    && (a.ghosttyTerminalId == b.ghosttyTerminalId || RowChecks(k, b))
    && (LedgerOk(a) ==> LedgerOk(b))
  }

  ghost predicate RowUnreadKept(a: Row, b: Row) {
    a.unread.Some? ==> b.unread.Some? && b.unread.value >= a.unread.value
  }

  /** A rewrite of many rows, each keeping its shape and ledger discipline. */
  lemma RewriteKeeps(t: Table, u: Table)
    requires WellFormed(t) && t.Keys == u.Keys
    requires forall k :: k in t ==> RowKept(k, t[k], u[k])
    ensures WellFormed(u) && SlotsStable(t, u)
    ensures LedgersOk(t) ==> LedgersOk(u)
    ensures NativeLinks(u) == NativeLinks(t)
    ensures (forall k :: k in t ==> RowUnreadKept(t[k], u[k])) ==> UnreadKept(t, u)
  {
    ShapeKept(t, u);
    if LedgersOk(t) {
      forall k | k in u ensures LedgerOk(u[k]) {
        assert LedgerOk(t[k]);
      }
    }
  }

  /** Rewriting one row. */
  lemma PutKeeps(t: Table, k: Id, row: Row)
    requires WellFormed(t) && k in t && RowKept(k, t[k], row)
    ensures var u := t[k := row];
            WellFormed(u) && SlotsStable(t, u) && (LedgersOk(t) ==> LedgersOk(u)) && u.Keys == t.Keys
            && NativeLinks(u) == NativeLinks(t) && (RowUnreadKept(t[k], row) ==> UnreadKept(t, u))
  {
    RewriteKeeps(t, t[k := row]);
  }

  lemma NewRootKeeps(t: Table, k: Id, row: Row)
    requires WellFormed(t) && k !in t
    requires row.parent.None? && RowChecks(k, row) && row.slot.Some? && LeastFreeSlot(t, row.slot.value)
    ensures WellFormed(t[k := row])
  {
    var u := t[k := row];
    assert NativeLinks(u) == NativeLinks(t);
    forall j | j in t ensures t[j].slot != row.slot {
      assert !SlotTaken(t, row.slot.value);
    }
  }

  lemma HangKeeps(t: Table, k: Id, row: Row)
    requires WellFormed(t)
    requires row.parent.Some? && RowChecks(k, row)
    requires ValidProspectiveParent(t, k, row.parent.value)
    ensures WellFormed(t[k := row])
  {
    var u := t[k := row];
    var p := ParentId(k, row);
    RelinkForest(NativeLinks(t), k, p);
    assert NativeLinks(u) == NativeLinks(t)[k := p];
  }

  lemma StartKeeps(t: Table, e: Event)
    requires e.SessionStart? && WellFormed(t)
    ensures var u := AfterSessionStart(t, e);
            WellFormed(u) && (LedgersOk(t) ==> LedgersOk(u)) && SlotsStable(t, u)
            && (forall k :: k in u && k !in t ==> u[k].slot == Some(FreeSlot(t)))
  {
    if e.id !in t {
      NewRootKeeps(t, e.id, NewRootRow(e, FreeSlot(t)));
    } else if t[e.id].parent.None? {
      PutKeeps(t, e.id, ReusedRow(t[e.id], e));
    }
  }

  lemma SubagentStartKeeps(t: Table, e: Event)
    requires e.SubagentStart? && WellFormed(t)
    ensures var u := AfterSubagentStart(t, e).0;
            WellFormed(u) && (LedgersOk(t) ==> LedgersOk(u)) && SlotsStable(t, u)
            && UnreadKept(t, u) && (forall k :: k in u && k !in t ==> u[k].slot.None?)
            && (forall k :: k in t ==> k in u && (IsRoot(t, k) ==> u[k] == t[k]))
  {
    if ValidProspectiveParent(t, e.id, e.parentSession) {
      if e.id !in t {
        HangKeeps(t, e.id, NewChildRow(e));
      } else if t[e.id].parent.Some? {
        HangKeeps(t, e.id, ReparentedRow(t[e.id], e));
      }
    }
  }

  lemma EventRowsKept(k: Id, row: Row, e: Event)
    ensures e.SessionObserved? ==> RowKept(k, row, ObservedRow(row, e))
    ensures e.StatusEvent? ==> RowKept(k, row, StatusEventRow(row, e.kind, e.at))
    ensures e.SessionTitleChanged? ==> RowKept(k, row, row.(title := Some(e.newTitle)))
    ensures e.SessionModelChanged? ==> RowKept(k, row, row.(model := Some(e.newModel)))
    ensures e.SessionStatusObserved? ==>
              RowKept(k, row, row.(status := e.status, statusSince := Some(e.at), updatedAt := e.at))
  {
  }

  /** Events that at most rewrite the one row they name. */
  lemma RowEventKeeps(t: Table, e: Event)
    requires WellFormed(t)
    requires e.SessionTitleChanged? || e.SessionModelChanged? || e.SessionStatusObserved? || e.StatusEvent?
             || (e.SessionObserved? && e.id in t)
    ensures var u := AfterEvent(t, e).0;
            WellFormed(u) && SlotsStable(t, u) && (LedgersOk(t) ==> LedgersOk(u)) && u.Keys == t.Keys
  {
    var u := AfterEvent(t, e).0;
    if u != t {
      EventRowsKept(e.id, t[e.id], e);
      assert u == t[e.id := u[e.id]];
      PutKeeps(t, e.id, u[e.id]);
    }
  }

  /** Every hook event keeps the invariant, every surviving slot, and gives new roots the least free slot. */
  lemma EventKeeps(t: Table, e: Event)
    requires WellFormed(t)
    ensures var u := AfterEvent(t, e).0;
            WellFormed(u) && (LedgersOk(t) ==> LedgersOk(u)) && SlotsStable(t, u)
            && (forall k :: k in u && k !in t && u[k].slot.Some? ==> LeastFreeSlot(t, u[k].slot.value))
  {
    if e.SessionStart? {
      StartKeeps(t, e);
    } else if e.SessionObserved? && e.id !in t {
      StartKeeps(t, LateStart(e));
    } else if e.SessionEnd? {
      DeleteAllClosed(t, PaseoSubtree(t, e.id, map[]));
    } else if e.SubagentStart? {
      SubagentStartKeeps(t, e);
    } else if e.SubagentStop? {
      DeleteIsDeleteAll(t, e.id);
      DeleteAllClosed(t, {e.id});
    } else {
      RowEventKeeps(t, e);
    }
  }

  lemma ViewKeeps(t: Table, k: Id, at: Instant, watermark: Watermark)
    requires WellFormed(t)
    ensures var u := AfterView(t, k, at, watermark);
            WellFormed(u) && (LedgersOk(t) ==> LedgersOk(u)) && SlotsStable(t, u)
  {
    var u := AfterView(t, k, at, watermark);
    forall j | j in t ensures RowKept(j, t[j], u[j]) {
      RetirementsKept(j, t[j], at);
    }
    RewriteKeeps(t, u);
  }

  lemma RetirementsKept(k: Id, row: Row, at: Instant)
    ensures RowKept(k, row, AckedRow(row, at)) && RowKept(k, row, SweptRow(row, at))
    ensures RowKept(k, row, ViewedRow(row, at)) && RowKept(k, row, row)
  {
  }

  lemma AckKeeps(t: Table, k: Id, at: Instant, watermark: Watermark)
    requires WellFormed(t)
    ensures var u := AfterAck(t, k, at, watermark);
            WellFormed(u) && (LedgersOk(t) ==> LedgersOk(u)) && SlotsStable(t, u)
  {
    var u := AfterAck(t, k, at, watermark);
    forall j | j in t ensures RowKept(j, t[j], u[j]) {
      RetirementsKept(j, t[j], at);
    }
    RewriteKeeps(t, u);
  }

  lemma SweepKeeps(t: Table, cutoff: Instant, at: Instant)
    requires WellFormed(t)
    ensures var u := AfterSweep(t, cutoff, at);
            WellFormed(u) && (LedgersOk(t) ==> LedgersOk(u)) && SlotsStable(t, u) && UnreadKept(t, u)
  {
    var u := AfterSweep(t, cutoff, at);
    forall j | j in t ensures RowKept(j, t[j], u[j]) && RowUnreadKept(t[j], u[j]) {
      RetirementsKept(j, t[j], at);
    }
    RewriteKeeps(t, u);
  }

  /** The sweep's unread guard never decides: an unread row has no clock to expire. */
  lemma SweepGuardRedundant(t: Table, k: Id, cutoff: Instant)
    requires LedgersOk(t) && k in t
    ensures Expired(t[k], cutoff) <==>
              t[k].viewed.Some? && t[k].viewed.value <= cutoff
              && (t[k].status == Idle || t[k].status == Error) && (t[k].done.Some? || t[k].status == Error)
  {
  }

  lemma {:induction false} FactsKeep(t: Table, us: seq<FactUpdate>)
    requires WellFormed(t)
    ensures var u := AfterFacts(t, us);
            WellFormed(u) && (LedgersOk(t) ==> LedgersOk(u))
            && SlotsStable(t, u) && UnreadKept(t, u) && t.Keys == u.Keys
  {
    if us != [] {
      var v := AfterFacts(t, us[..|us| - 1]);
      FactsKeep(t, us[..|us| - 1]);
      var last := us[|us| - 1];
      if last.id in v {
        PutKeeps(v, last.id, AfterFact(v, last)[last.id]);
      }
    }
  }

  /** A prune keeps every component that holds an unread row, so it loses no unviewed result. */
  lemma PruneKeeps(t: Table, cutoff: Instant, zcodeCutoff: Instant)
    requires WellFormed(t)
    ensures var u := AfterPrune(t, cutoff, zcodeCutoff);
            WellFormed(u) && (LedgersOk(t) ==> LedgersOk(u) && UnreadKept(t, u)) && SlotsStable(t, u)
  {
    var stale := StaleRoots(t, cutoff, zcodeCutoff);
    DeleteAllClosed(t, stale);
    if LedgersOk(t) {
      forall k | IsRoot(t, k) && t[k].unread.Some? ensures k in AfterPrune(t, cutoff, zcodeCutoff) {
        assert Connected(t, k, k) by { assert IsWalk(t, [k]); assert [k][0] == k; }
        assert KeptAlive(t, k, cutoff, zcodeCutoff);
        assert k !in NativeLinks(t);
      }
    }
  }

  lemma {:induction false} PruneRow(t: Table, k: Id, cutoff: Instant, zcodeCutoff: Instant)
    requires Inv(t) && k in t
    ensures BelowAny(t, k, StaleRoots(t, cutoff, zcodeCutoff)) <==> !KeptAlive(t, k, cutoff, zcodeCutoff)
    decreases Depth(NativeLinks(t), k)
  {
    var links, stale := NativeLinks(t), StaleRoots(t, cutoff, zcodeCutoff);
    assert Below(links, k, k);
    if k in links {
      var p := links[k];
      PruneRow(t, p, cutoff, zcodeCutoff);
      if KeptAlive(t, p, cutoff, zcodeCutoff) {
        StillAlive(t, p, k, cutoff, zcodeCutoff);
      }
      if KeptAlive(t, k, cutoff, zcodeCutoff) {
        StillAlive(t, k, p, cutoff, zcodeCutoff);
      }
      if BelowAny(t, p, stale) {
        var g :| g in stale && Below(links, p, g);
        assert Below(links, k, g);
      }
      if BelowAny(t, k, stale) {
        var g :| g in stale && Below(links, k, g);
        assert g != k;
      }
    }
  }

  /** A prune keeps exactly the components that hold a leased, unread or live-clock row, and so every such row. */
  lemma PruneExactly(t: Table, cutoff: Instant, zcodeCutoff: Instant)
    requires Inv(t)
    ensures forall k :: k in AfterPrune(t, cutoff, zcodeCutoff) <==> k in t && KeptAlive(t, k, cutoff, zcodeCutoff)
    ensures forall k :: k in t && KeepsAlive(k, t[k], cutoff, zcodeCutoff) ==> k in AfterPrune(t, cutoff, zcodeCutoff)
  {
    forall k | k in t ensures k in AfterPrune(t, cutoff, zcodeCutoff) <==> KeptAlive(t, k, cutoff, zcodeCutoff) {
      PruneRow(t, k, cutoff, zcodeCutoff);
    }
    forall k | k in t && KeepsAlive(k, t[k], cutoff, zcodeCutoff) ensures KeptAlive(t, k, cutoff, zcodeCutoff) {
      SelfConnected(t, k);
    }
  }

  lemma AttentionKeeps(t: Table, a: Table, b: Table, s: PaseoState)
    requires WellFormed(t) && a == TitleSynced(t, s) && b == AttentionSynced(a, s)
    ensures WellFormed(b) && (LedgersOk(t) ==> LedgersOk(b))
    ensures SlotsStable(t, b) && UnreadKept(t, b) && t.Keys == b.Keys
  {
    if s.id in t {
      assert b == t[s.id := b[s.id]];
      PutKeeps(t, s.id, b[s.id]);
    }
  }

  lemma SettleKeeps(t: Table, s: PaseoState, backgroundCutoff: Option<Instant>)
    requires WellFormed(t)
    ensures var u := SettleSynced(t, s, backgroundCutoff);
            WellFormed(u) && (LedgersOk(t) ==> LedgersOk(u))
            && SlotsStable(t, u) && UnreadKept(t, u) && t.Keys == u.Keys
  {
    if SettleSynced(t, s, backgroundCutoff) != t {
      PutKeeps(t, s.id, SettledRow(t[s.id], s.updatedAt.value));
    }
  }

  lemma RotationKeeps(t: Table, s: PaseoState)
    requires WellFormed(t)
    ensures var u := RotationSynced(t, s);
            WellFormed(u) && (LedgersOk(t) ==> LedgersOk(u))
            && SlotsStable(t, u) && UnreadKept(t, u) && t.Keys == u.Keys
  {
    RewriteKeeps(t, RotationSynced(t, s));
  }

  lemma PaseoStateKeeps(t: Table, s: PaseoState, states: seq<PaseoState>, backgroundCutoff: Option<Instant>)
    requires WellFormed(t)
    ensures var u := AfterPaseoState(t, s, states, backgroundCutoff);
            WellFormed(u) && (LedgersOk(t) ==> LedgersOk(u)) && SlotsStable(t, u)
            && (s.archivedAt.None? ==> UnreadKept(t, u) && u.Keys == t.Keys)
  {
    if s.archivedAt.Some? {
      DeleteAllClosed(t, PaseoSubtree(t, s.id, HintsOf(states)));
    } else {
      var a := TitleSynced(t, s);
      var b := AttentionSynced(a, s);
      var c := SettleSynced(b, s, backgroundCutoff);
      var d := if JoinedOnce(states, s) then RotationSynced(c, s) else c;
      AttentionKeeps(t, a, b, s);
      SettleKeeps(b, s, backgroundCutoff);
      RotationKeeps(c, s);
      forall k | IsRoot(t, k) && t[k].unread.Some?
        ensures IsRoot(d, k) && d[k].unread.Some? && d[k].unread.value >= t[k].unread.value
      {
        assert IsRoot(b, k) && IsRoot(c, k);
      }
    }
  }

  /** `u` has the child `k`, which is no root, and nothing else that `t` has not. */
  ghost predicate Admits(t: Table, u: Table, k: Id) {
    && k in u && !IsRoot(u, k)
    && (forall j :: j in u && j !in t ==> j == k && u[j].slot.None?)
    && (forall j :: j in t ==> j in u && u[j] == t[j])
  }

  /** Admitting a child keeps the invariant, gives no slot, and touches no root. */
  lemma AdmissionKeeps(t: Table, c: CodexChild)
    requires WellFormed(t) && CodexAdmitted(t, c).Some?
    ensures var u := CodexAdmitted(t, c).value;
            WellFormed(u) && (LedgersOk(t) ==> LedgersOk(u)) && Admits(t, u, CodexId(c.session))
  {
    var k := CodexId(c.session);
    if k !in t {
      SubagentStartKeeps(t, CodexStart(c, t[CodexId(c.parentSession)].project, c.turn.value.startedAt));
    }
  }

  lemma CodexRowKept(k: Id, row: Row, c: CodexChild, stops: bool, works: bool)
    ensures RowKept(k, row, CodexTurnRow(row, stops, works, c.turn))
    ensures RowKept(k, row, CodexTurnRow(CodexFactsRow(row, c), stops, works, c.turn))
  {
  }

  /** A recorded child's own row is all that changes once it is admitted. */
  lemma ChildRewritten(t: Table, c: CodexChild)
    requires WellFormed(t) && CodexAdmitted(t, c).Some? && CodexId(c.session) in CodexAdmitted(t, c).value
    ensures var v, k, u := CodexAdmitted(t, c).value, CodexId(c.session), AfterCodexChild(t, c);
            k in u && u == v[k := u[k]] && RowKept(k, v[k], u[k])
  {
    CodexRowKept(CodexId(c.session), CodexAdmitted(t, c).value[CodexId(c.session)], c,
                 CodexStops(t, c), CodexWorks(t, c));
  }

  lemma CodexChildKeeps(t: Table, c: CodexChild)
    requires WellFormed(t)
    ensures var u := AfterCodexChild(t, c);
            WellFormed(u) && (LedgersOk(t) ==> LedgersOk(u)) && SlotsStable(t, u) && UnreadKept(t, u)
            && (forall k :: k in u && k !in t ==> u[k].slot.None?) && RowsStay(t, u)
  {
    if CodexAdmitted(t, c).Some? {
      var v, k, u := CodexAdmitted(t, c).value, CodexId(c.session), AfterCodexChild(t, c);
      AdmissionKeeps(t, c);
      ChildRewritten(t, c);
      PutKeeps(v, k, u[k]);
      ChildPut(t, v, k, u);
    }
  }

  /** What admission and then a change to the child's own row add up to. */
  lemma ChildPut(t: Table, v: Table, k: Id, u: Table)
    requires Admits(t, v, k) && k in u && u == v[k := u[k]] && RowKept(k, v[k], u[k])
    requires SlotsStable(v, u) && UnreadKept(v, u)
    ensures SlotsStable(t, u) && UnreadKept(t, u) && RowsStay(t, u)
    ensures forall j :: j in u && j !in t ==> u[j].slot.None?
  {
  }

  /** A stop that a recorded child confirms names no root. */
  lemma ConfirmsNoRoot(t: Table, c: CodexChild)
    requires WellFormed(t)
    ensures SparesRoots(t, CodexConfirms(t, c))
  {
    if CodexAdmitted(t, c).Some? {
      var v, k := CodexAdmitted(t, c).value, CodexId(c.session);
      AdmissionKeeps(t, c);
      CodexRowKept(k, v[k], c, CodexStops(t, c), CodexWorks(t, c));
    }
  }

  /** Only confirmed rows leave, and no survivor loses its parent. */
  lemma WithoutStoppedClosed(t: Table, stopped: seq<StoppedTurn>)
    requires WellFormed(t)
    ensures AncestorClosed(t, WithoutStopped(t, stopped))
    ensures WellFormed(WithoutStopped(t, stopped))
  {
    var u := WithoutStopped(t, stopped);
    forall k | k in u && t[k].parent.Some? ensures ParentId(k, t[k]) in u {
      var p := ParentId(k, t[k]);
      var j :| j in t && Below(NativeLinks(t), j, k) && !ConfirmedStopped(t, stopped, j);
      assert NativeLinks(t)[k] == p && Below(NativeLinks(t), k, p);
      BelowTransitive(NativeLinks(t), j, k, p);
    }
    PartWellFormed(t, u);
  }

  // ----- transactions -----

  ghost function AfterEvents(t: Table, events: seq<Event>): (u: Table)
    requires WellFormed(t)
    ensures WellFormed(u) && (LedgersOk(t) ==> LedgersOk(u))
  {
    if events == [] then t
    else
      var v := AfterEvents(t, events[..|events| - 1]);
      EventKeeps(v, events[|events| - 1]);
      AfterEvent(v, events[|events| - 1]).0
  }

  lemma EventsSnoc(t: Table, init: seq<Event>, e: Event)
    requires WellFormed(t)
    ensures AfterEvents(t, init + [e]) == AfterEvent(AfterEvents(t, init), e).0
  {
    assert (init + [e])[..|init|] == init;
  }

  /** One result per event, each judged against the table its predecessors left. */
  ghost function EventResults(t: Table, events: seq<Event>): (results: seq<MutationResult>)
    requires WellFormed(t)
    ensures |results| == |events|
  {
    if events == [] then []
    else
      var init := events[..|events| - 1];
      EventResults(t, init) + [AfterEvent(AfterEvents(t, init), events[|events| - 1]).1]
  }

  /** The records of one overlay pass, in order. */
  ghost function AfterPaseoStates(t: Table, done: seq<PaseoState>, states: seq<PaseoState>,
                                  backgroundCutoff: Option<Instant>): (u: Table)
    requires WellFormed(t)
    ensures WellFormed(u) && (LedgersOk(t) ==> LedgersOk(u))
  {
    if done == [] then t
    else
      var v := AfterPaseoStates(t, done[..|done| - 1], states, backgroundCutoff);
      PaseoStateKeeps(v, done[|done| - 1], states, backgroundCutoff);
      AfterPaseoState(v, done[|done| - 1], states, backgroundCutoff)
  }

  /** An overlay pass without archived records deletes nothing and loses no unread result. */
  lemma {:induction false} LivePassKeepsUnread(t: Table, done: seq<PaseoState>, states: seq<PaseoState>,
                                               backgroundCutoff: Option<Instant>)
    requires WellFormed(t)
    requires forall i :: 0 <= i < |done| ==> done[i].archivedAt.None?
    ensures var u := AfterPaseoStates(t, done, states, backgroundCutoff);
            u.Keys == t.Keys && UnreadKept(t, u) && SlotsStable(t, u)
  {
    if done != [] {
      var init, s := done[..|done| - 1], done[|done| - 1];
      LivePassKeepsUnread(t, init, states, backgroundCutoff);
      PaseoStateKeeps(AfterPaseoStates(t, init, states, backgroundCutoff), s, states, backgroundCutoff);
    }
  }

  /** The table and the confirmed stops after the recorded children, in order. */
  ghost function AfterCodexChildren(t: Table, children: seq<CodexChild>): (r: (Table, seq<StoppedTurn>))
    requires WellFormed(t)
    ensures WellFormed(r.0) && (LedgersOk(t) ==> LedgersOk(r.0))
  {
    if children == [] then (t, [])
    else
      var (v, stopped) := AfterCodexChildren(t, children[..|children| - 1]);
      CodexChildKeeps(v, children[|children| - 1]);
      (AfterCodexChild(v, children[|children| - 1]), stopped + CodexConfirms(v, children[|children| - 1]))
  }

  /** Recorded children disturb no row that was there: roots stay as they were. */
  lemma {:induction false} CodexChildrenKeep(t: Table, children: seq<CodexChild>)
    requires WellFormed(t)
    ensures var u := AfterCodexChildren(t, children).0;
            SlotsStable(t, u) && UnreadKept(t, u) && RowsStay(t, u)
  {
    if children != [] {
      CodexChildrenKeep(t, children[..|children| - 1]);
      CodexChildKeeps(AfterCodexChildren(t, children[..|children| - 1]).0, children[|children| - 1]);
    }
  }

  /** No row is lost, and roots are unchanged. */
  ghost predicate RowsStay(t: Table, u: Table) {
    forall k :: k in t ==> k in u && (IsRoot(t, k) ==> u[k] == t[k])
  }

  ghost function AfterCodexSync(t: Table, children: seq<CodexChild>): (u: Table)
    requires WellFormed(t)
    ensures WellFormed(u) && (LedgersOk(t) ==> LedgersOk(u))
  {
    var (v, stopped) := AfterCodexChildren(t, children);
    AfterStops(v, stopped)
  }

  ghost function AfterStops(t: Table, stopped: seq<StoppedTurn>): (u: Table)
    requires WellFormed(t)
    ensures WellFormed(u) && (LedgersOk(t) ==> LedgersOk(u))
  {
    WithoutStoppedClosed(t, stopped);
    WithoutStopped(t, stopped)
  }

  ghost predicate SparesRoots(t: Table, stopped: seq<StoppedTurn>) {
    forall i :: 0 <= i < |stopped| ==> !IsRoot(t, CodexId(stopped[i].session))
  }

  /** The stops that recorded children confirm never name a root. */
  lemma {:induction false} CodexSparesRoots(t: Table, children: seq<CodexChild>)
    requires WellFormed(t)
    ensures SparesRoots(t, AfterCodexChildren(t, children).1)
  {
    if children != [] {
      var (v, stopped) := AfterCodexChildren(t, children[..|children| - 1]);
      CodexSparesRoots(t, children[..|children| - 1]);
      CodexChildrenKeep(t, children[..|children| - 1]);
      ConfirmsNoRoot(v, children[|children| - 1]);
      SparesMore(t, v, stopped, CodexConfirms(v, children[|children| - 1]));
    }
  }

  lemma SparesMore(t: Table, v: Table, stopped: seq<StoppedTurn>, more: seq<StoppedTurn>)
    requires RowsStay(t, v) && SparesRoots(t, stopped) && SparesRoots(v, more)
    ensures SparesRoots(t, stopped + more)
  {
  }

  /** A rollout sweep leaves every root exactly as it was: confirmed stops never name one. */
  lemma CodexSyncKeeps(t: Table, children: seq<CodexChild>)
    requires WellFormed(t)
    ensures var u := AfterCodexSync(t, children);
            SlotsStable(t, u) && UnreadKept(t, u) && (forall k :: IsRoot(t, k) ==> k in u && u[k] == t[k])
  {
    var (v, stopped) := AfterCodexChildren(t, children);
    CodexChildrenKeep(t, children);
    CodexSparesRoots(t, children);
    forall k | IsRoot(t, k) ensures k in WithoutStopped(v, stopped) {
      RootsUnconfirmed(t, v, stopped, k);
      assert Below(NativeLinks(v), k, k);
    }
  }

  lemma RootsUnconfirmed(t: Table, v: Table, stopped: seq<StoppedTurn>, k: Id)
    requires IsRoot(t, k) && SparesRoots(t, stopped)
    ensures !ConfirmedStopped(v, stopped, k)
  {
  }

  ghost function EvenerArchived(t: Table, archivedRoots: set<string>): set<Id> {
    set k | k in t && k.provider == Evener && t[k].parent.None? && k.session in archivedRoots
  }

  ghost function EvenerVanished(t: Table, active: set<string>): set<Id> {
    set k | k in t && k.provider == Evener && t[k].parent.Some? && k.session !in active
  }

  /** Evener's archived roots and vanished children leave after its events. */
  ghost function AfterEvener(t: Table, events: seq<Event>, archivedRoots: set<string>,
                             activeChildren: Option<set<string>>): (u: Table)
    requires WellFormed(t)
    ensures WellFormed(u) && (LedgersOk(t) ==> LedgersOk(u))
  {
    var v := AfterEvents(t, events);
    DeleteAllClosed(v, EvenerArchived(v, archivedRoots));
    var w := DeleteAll(v, EvenerArchived(v, archivedRoots));
    match activeChildren
    case None => w
    case Some(active) =>
      DeleteAllClosed(w, EvenerVanished(w, active));
      DeleteAll(w, EvenerVanished(w, active))
  }

  // ----- what a pass reports -----

  /** Some update of the pass changed the table. */
  ghost predicate FactsStir(t: Table, us: seq<FactUpdate>) {
    us != [] && (FactsStir(t, us[..|us| - 1]) || AfterFacts(t, us) != AfterFacts(t, us[..|us| - 1]))
  }

  /** Some record of the overlay pass changed the table. */
  ghost predicate PaseoStirs(t: Table, done: seq<PaseoState>, states: seq<PaseoState>,
                             backgroundCutoff: Option<Instant>)
    requires WellFormed(t)
  {
    done != []
    && (PaseoStirs(t, done[..|done| - 1], states, backgroundCutoff)
        || AfterPaseoStates(t, done, states, backgroundCutoff)
           != AfterPaseoStates(t, done[..|done| - 1], states, backgroundCutoff))
  }

  /** Some recorded child changed the table. */
  ghost predicate CodexStirs(t: Table, children: seq<CodexChild>)
    requires WellFormed(t)
  {
    children != []
    && (CodexStirs(t, children[..|children| - 1])
        || AfterCodexChildren(t, children).0 != AfterCodexChildren(t, children[..|children| - 1]).0)
  }

  lemma {:induction false} FactsStill(t: Table, us: seq<FactUpdate>)
    requires !FactsStir(t, us)
    ensures AfterFacts(t, us) == t
  {
    if us != [] {
      FactsStill(t, us[..|us| - 1]);
    }
  }

  lemma {:induction false} PaseoStill(t: Table, done: seq<PaseoState>, states: seq<PaseoState>,
                                      backgroundCutoff: Option<Instant>)
    requires WellFormed(t) && !PaseoStirs(t, done, states, backgroundCutoff)
    ensures AfterPaseoStates(t, done, states, backgroundCutoff) == t
  {
    if done != [] {
      PaseoStill(t, done[..|done| - 1], states, backgroundCutoff);
    }
  }

  lemma {:induction false} CodexStill(t: Table, children: seq<CodexChild>)
    requires WellFormed(t) && !CodexStirs(t, children)
    ensures AfterCodexChildren(t, children).0 == t
  {
    if children != [] {
      CodexStill(t, children[..|children| - 1]);
    }
  }

  /** Everything that writes the table. */
  datatype Op =
    | Hooks(events: seq<Event>)
    | View(id: Id, at: Instant, watermark: Watermark)
    | Acknowledge(id: Id, at: Instant, watermark: Watermark)
    | Clear(id: Id)
    | ClearAll
    | UpdateFacts(updates: seq<FactUpdate>)
    | PaseoSync(states: seq<PaseoState>, backgroundCutoff: Option<Instant>)
    | Prune(cutoff: Instant, zcodeCutoff: Instant)
    | Sweep(cutoff: Instant, at: Instant)
    | CodexSync(children: seq<CodexChild>)
    | EvenerSync(events: seq<Event>, archivedRoots: set<string>, activeChildren: Option<set<string>>)

  ghost function Apply(t: Table, op: Op): (u: Table)
    requires WellFormed(t)
    ensures WellFormed(u) && (LedgersOk(t) ==> LedgersOk(u))
  {
    match op
    case Hooks(events) => AfterEvents(t, events)
    case View(id, at, watermark) => ViewKeeps(t, id, at, watermark); AfterView(t, id, at, watermark)
    case Acknowledge(id, at, watermark) => AckKeeps(t, id, at, watermark); AfterAck(t, id, at, watermark)
    case Clear(id) =>
      if id in t then (DeleteAllClosed(t, PaseoSubtree(t, id, map[])); WithoutLineage(t, id, map[])) else t
    case ClearAll => (assert NativeLinks(map[]) == map[]; map[])
    case UpdateFacts(updates) => FactsKeep(t, updates); AfterFacts(t, updates)
    case PaseoSync(states, backgroundCutoff) => AfterPaseoStates(t, states, states, backgroundCutoff)
    case Prune(cutoff, zcodeCutoff) => PruneKeeps(t, cutoff, zcodeCutoff); AfterPrune(t, cutoff, zcodeCutoff)
    case Sweep(cutoff, at) => SweepKeeps(t, cutoff, at); AfterSweep(t, cutoff, at)
    case CodexSync(children) => AfterCodexSync(t, children)
    case EvenerSync(events, archivedRoots, activeChildren) => AfterEvener(t, events, archivedRoots, activeChildren)
  }

  /** Whether a maintenance operation reports a change: some step of it changed the table. */
  ghost predicate Stirs(t: Table, op: Op)
    requires WellFormed(t)
  {
    match op
    case UpdateFacts(updates) => FactsStir(t, updates)
    case PaseoSync(states, backgroundCutoff) => PaseoStirs(t, states, states, backgroundCutoff)
    case CodexSync(children) => CodexSyncStirs(t, children)
    case _ => Apply(t, op) != t
  }

  /** A child recorded, or a row removed. */
  ghost predicate CodexSyncStirs(t: Table, children: seq<CodexChild>)
    requires WellFormed(t)
  {
    CodexStirs(t, children) || AfterCodexSync(t, children) != AfterCodexChildren(t, children).0
  }

  /** An operation that reports no change made none. */
  lemma UnreportedUnchanged(t: Table, op: Op)
    requires WellFormed(t) && !Stirs(t, op)
    ensures Apply(t, op) == t
  {
    match op
    case UpdateFacts(updates) => FactsStill(t, updates);
    case PaseoSync(states, backgroundCutoff) => PaseoStill(t, states, states, backgroundCutoff);
    case CodexSync(children) => CodexStill(t, children);
    case _ =>
  }

  /** The table after a run of operations over an empty registry. */
  ghost function Run(ops: seq<Op>): (t: Table)
    ensures Inv(t)
  {
    if ops == [] then (assert NativeLinks(map[]) == map[]; map[])
    else Apply(Run(ops[..|ops| - 1]), ops[|ops| - 1])
  }

  /** One hook event over the registry's first operation. */
  lemma FirstEvents(events: seq<Event>)
    ensures WellFormed(map[]) && Run([Hooks(events)]) == AfterEvents(map[], events)
  {
    assert Run([]) == map[];
    assert [Hooks(events)][..0] == [];
  }

  // ----- upkeep loses nothing unread -----

  /** Upkeep that is not somebody's decision: everything the daemon runs, overlay passes without archived records. */
  predicate IsUpkeep(op: Op) {
    match op
    case UpdateFacts(_) => true
    case Prune(_, _) => true
    case Sweep(_, _) => true
    case PaseoSync(states, _) => forall i :: 0 <= i < |states| ==> states[i].archivedAt.None?
    case CodexSync(_) => true
    case _ => false
  }

  lemma UpkeepStep(t: Table, op: Op)
    requires Inv(t) && IsUpkeep(op)
    ensures UnreadKept(t, Apply(t, op)) && SlotsStable(t, Apply(t, op))
  {
    match op
    case UpdateFacts(updates) => FactsKeep(t, updates);
    case Prune(cutoff, zcodeCutoff) => PruneKeeps(t, cutoff, zcodeCutoff);
    case Sweep(cutoff, at) => SweepKeeps(t, cutoff, at);
    case PaseoSync(states, backgroundCutoff) => LivePassKeepsUnread(t, states, states, backgroundCutoff);
    case CodexSync(children) => CodexSyncKeeps(t, children);
  }

  /** After any run, any further upkeep keeps every unread result: not deleted, not cleared, not moved back. */
  lemma {:induction false} UpkeepKeepsUnread(ops: seq<Op>, upkeep: seq<Op>)
    requires forall i :: 0 <= i < |upkeep| ==> IsUpkeep(upkeep[i])
    ensures UnreadKept(Run(ops), Run(ops + upkeep))
    decreases |upkeep|
  {
    if upkeep == [] {
      assert ops + upkeep == ops;
    } else {
      var init, last := upkeep[..|upkeep| - 1], upkeep[|upkeep| - 1];
      UpkeepKeepsUnread(ops, init);
      UpkeepStep(Run(ops + init), last);
      ConcatSnoc(ops, upkeep);
      RunSnoc(ops + init, last);
      UnreadKeptTwice(Run(ops), Run(ops + init), Run(ops + upkeep));
    }
  }

  lemma UnreadKeptTwice(t: Table, u: Table, v: Table)
    requires UnreadKept(t, u) && UnreadKept(u, v)
    ensures UnreadKept(t, v)
  {
  }

  // ----- a row keeps its slot while it lives -----

  /** The row is there before, between and after the events. */
  ghost predicate LivesThroughEvents(t: Table, events: seq<Event>, k: Id)
    requires WellFormed(t)
  {
    forall n :: 0 <= n <= |events| ==> k in AfterEvents(t, events[..n])
  }

  /** The row is there throughout the operation: an ended and restarted session is another row. */
  ghost predicate LivesThrough(t: Table, op: Op, k: Id)
    requires WellFormed(t)
  {
    && k in t && k in Apply(t, op)
    && match op
       case Hooks(events) => LivesThroughEvents(t, events, k)
       case EvenerSync(events, _, _) => LivesThroughEvents(t, events, k)
       case _ => true
  }

  lemma {:induction false} EventsKeepSlot(t: Table, events: seq<Event>, k: Id)
    requires WellFormed(t) && k in t && LivesThroughEvents(t, events, k)
    ensures k in AfterEvents(t, events) && AfterEvents(t, events)[k].slot == t[k].slot
  {
    TakeAll(events);
    if events != [] {
      var init, e := events[..|events| - 1], events[|events| - 1];
      assert forall n :: 0 <= n <= |init| ==> init[..n] == events[..n];
      EventsKeepSlot(t, init, k);
      EventKeeps(AfterEvents(t, init), e);
    }
  }

  /** An overlay pass adds no row and moves no slot. */
  lemma {:induction false} PaseoPassSlots(t: Table, done: seq<PaseoState>, states: seq<PaseoState>,
                                          backgroundCutoff: Option<Instant>)
    requires WellFormed(t)
    ensures var u := AfterPaseoStates(t, done, states, backgroundCutoff); u.Keys <= t.Keys && SlotsStable(t, u)
  {
    if done != [] {
      var init, s := done[..|done| - 1], done[|done| - 1];
      var v := AfterPaseoStates(t, init, states, backgroundCutoff);
      PaseoPassSlots(t, init, states, backgroundCutoff);
      PaseoStateKeeps(v, s, states, backgroundCutoff);
      assert AfterPaseoState(v, s, states, backgroundCutoff).Keys <= v.Keys;
    }
  }

  /** Every operation leaves the slot of a row that lives through it alone. */
  lemma OpKeepsSlot(t: Table, op: Op, k: Id)
    requires WellFormed(t) && LivesThrough(t, op, k)
    ensures Apply(t, op)[k].slot == t[k].slot
  {
    match op
    case Hooks(events) => EventsKeepSlot(t, events, k);
    case View(id, at, watermark) => ViewKeeps(t, id, at, watermark);
    case Acknowledge(id, at, watermark) => AckKeeps(t, id, at, watermark);
    case Clear(_) =>
    case ClearAll =>
    case UpdateFacts(updates) => FactsKeep(t, updates);
    case PaseoSync(states, backgroundCutoff) => PaseoPassSlots(t, states, states, backgroundCutoff);
    case Prune(_, _) =>
    case Sweep(cutoff, at) => SweepKeeps(t, cutoff, at);
    case CodexSync(children) => CodexSyncKeeps(t, children);
    case EvenerSync(events, archivedRoots, activeChildren) => EventsKeepSlot(t, events, k);
  }

  /** The row lives through each further operation of a run. */
  ghost predicate LivesOn(ops: seq<Op>, more: seq<Op>, k: Id) {
    if more == [] then k in Run(ops)
    else
      var init := more[..|more| - 1];
      LivesOn(ops, init, k) && LivesThrough(Run(ops + init), more[|more| - 1], k)
  }

  /** Over any run, a row keeps the slot it was given for as long as it lives. */
  lemma {:induction false} RunKeepsSlot(ops: seq<Op>, more: seq<Op>, k: Id)
    requires LivesOn(ops, more, k)
    ensures k in Run(ops) && k in Run(ops + more) && Run(ops + more)[k].slot == Run(ops)[k].slot
    decreases |more|
  {
    if more == [] {
      assert ops + more == ops;
    } else {
      var init, last := more[..|more| - 1], more[|more| - 1];
      RunKeepsSlot(ops, init, k);
      OpKeepsSlot(Run(ops + init), last, k);
      ConcatSnoc(ops, more);
      RunSnoc(ops + init, last);
    }
  }

  lemma RunSnoc(ops: seq<Op>, op: Op)
    ensures Run(ops + [op]) == Apply(Run(ops), op)
  {
    assert (ops + [op])[..|ops|] == ops;
  }
}
