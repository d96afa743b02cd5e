/** What gestures and expiry do to the ledgers, and the complete list of what may clear or stamp them. */
module LedgerLaws {
  import opened Common
  import opened Forest
  import opened Schema
  import opened RegistrySpec
  import opened RegistryRuns
  import opened ResultLaws

  // ----- gestures -----

  /** The gesture's snapshot may speak for the row: unconditional, or nothing unread there that it had not shown. */
  predicate Shown(row: Row, watermark: Watermark) {
    match watermark
    case None => true
    case Some(None) => row.unread.None?
    case Some(Some(stamp)) => row.unread.None? || row.unread.value <= stamp
  }


  /** A view reads the row: the badge goes, the clock starts, and reading something is acknowledging it. */
  predicate Reads(a: Row, b: Row, at: Instant) {
    && SameFacts(a, b) && b.status == a.status && b.statusSince == a.statusSince && b.background == a.background
    && b.updatedAt == a.updatedAt && b.unread.None? && b.viewed == Some(at) && b.done == a.done
    && b.acked == if a.unread.Some? then Some(at) else a.acked
  }

  predicate ViewTurns(a: Row, b: Row, inCascade: bool, isTarget: bool, at: Instant, watermark: Watermark) {
    if inCascade && (isTarget || a.done.Some? || a.unread.Some?) && Shown(a, watermark) then Reads(a, b, at) else b == a
  }

  lemma ViewRow(row: Row, isTarget: bool, at: Instant, watermark: Watermark)
    ensures ViewTurns(row, if ViewReaches(row, isTarget, watermark) then ViewedRow(row, at) else row,
                      true, isTarget, at, watermark)
  {
  }

  lemma CascadeMember(t: Table, j: Id, k: Id)
    requires j in t
    ensures j in PaseoSubtree(t, k, map[]) <==> Below(PaseoLinks(t), j, k)
  {
    PaseoRowsSuffice(t);
  }

  lemma ViewReachesExactly(t: Table, k: Id, at: Instant, watermark: Watermark)
    ensures var u := AfterView(t, k, at, watermark);
            u.Keys == t.Keys
            && forall j :: j in t ==> ViewTurns(t[j], u[j], Below(PaseoLinks(t), j, k), j == k, at, watermark)
  {
    var u := AfterView(t, k, at, watermark);
    forall j | j in t ensures ViewTurns(t[j], u[j], Below(PaseoLinks(t), j, k), j == k, at, watermark) {
      CascadeMember(t, j, k);
      ViewRow(t[j], j == k, at, watermark);
    }
  }

  /** A dismissal settles the row: no ledger is left, an error is retired, and the row is acknowledged. */
  predicate Dismisses(a: Row, b: Row, at: Instant) {
    && SameFacts(a, b) && b.updatedAt == a.updatedAt
    && b.unread.None? && b.done.None? && b.viewed.None? && b.acked == Some(at)
    && if a.status == Error then b.status == Idle && b.statusSince == Some(at) && !b.background
       else b.status == a.status && b.statusSince == a.statusSince && b.background == a.background
  }

  predicate DismissalTurns(a: Row, b: Row, inCascade: bool, at: Instant, watermark: Watermark) {
    if inCascade && Shown(a, watermark) && (a.unread.Some? || a.done.Some? || a.status == Error)
    then Dismisses(a, b, at) else b == a
  }

  lemma DismissalRow(row: Row, at: Instant, watermark: Watermark)
    ensures DismissalTurns(row, if AckReaches(row, watermark) then AckedRow(row, at) else row, true, at, watermark)
  {
  }

  lemma DismissalReachesExactly(t: Table, k: Id, at: Instant, watermark: Watermark)
    ensures var u := AfterAck(t, k, at, watermark);
            u.Keys == t.Keys
            && forall j :: j in t ==> DismissalTurns(t[j], u[j], Below(PaseoLinks(t), j, k), at, watermark)
  {
    var u := AfterAck(t, k, at, watermark);
    forall j | j in t ensures DismissalTurns(t[j], u[j], Below(PaseoLinks(t), j, k), at, watermark) {
      CascadeMember(t, j, k);
      DismissalRow(t[j], at, watermark);
    }
  }

  /** Expiry dismisses what was read long enough ago and is finished, as a dismissal would, acknowledging nothing. */
  predicate Expires(a: Row, b: Row, at: Instant) {
    && SameFacts(a, b) && b.updatedAt == a.updatedAt
    && b.unread.None? && b.done.None? && b.viewed.None? && b.acked == a.acked
    && if a.status == Error then b.status == Idle && b.statusSince == Some(at) && !b.background
       else b.status == a.status && b.statusSince == a.statusSince && b.background == a.background
  }

  lemma SweepExactly(t: Table, cutoff: Instant, at: Instant)
    requires Inv(t)
    ensures var u := AfterSweep(t, cutoff, at);
            u.Keys == t.Keys
            && forall k :: k in t ==>
                 if t[k].viewed.Some? && t[k].viewed.value <= cutoff
                    && (t[k].status == Error || (t[k].status == Idle && t[k].done.Some?))
                 then Expires(t[k], u[k], at) else u[k] == t[k]
  {
  }

  // ----- a gesture outlasts the flag that trails it -----

  /** Nothing the record reports is newer than the row's last acknowledgement. */
  predicate Stale(a: Row, s: PaseoState) {
    && a.acked.Some?
    && (s.attentionTimestamp.Some? ==> s.attentionTimestamp.value <= a.acked.value)
    && (s.updatedAt.Some? ==> s.updatedAt.value <= a.acked.value)
  }

  /** A record that is stale for a row leaves its ledgers alone. */
  lemma StaleRecordInert(t: Table, s: PaseoState, states: seq<PaseoState>, backgroundCutoff: Option<Instant>, k: Id)
    requires WellFormed(t) && IsRoot(t, k) && (s.id == k ==> Stale(t[k], s))
    requires k in AfterPaseoState(t, s, states, backgroundCutoff)
    ensures var b := AfterPaseoState(t, s, states, backgroundCutoff)[k];
            SameLedgers(t[k], b) && b.parent.None?
  {
    if s.id != k {
      RecordMisses(t, s, states, backgroundCutoff, k);
    } else if s.archivedAt.Some? {
      RecordArchives(t, s, states, backgroundCutoff);
    } else {
      RecordReaches(t, s, states, backgroundCutoff);
    }
  }

  /** A pass of records that are stale for a row, however often they name it, revives nothing there. */
  lemma {:induction false} StalePassInert(t: Table, done: seq<PaseoState>, states: seq<PaseoState>,
                                          backgroundCutoff: Option<Instant>, k: Id)
    requires WellFormed(t) && IsRoot(t, k)
    requires forall i :: 0 <= i < |done| && done[i].id == k ==> Stale(t[k], done[i])
    requires k in AfterPaseoStates(t, done, states, backgroundCutoff)
    ensures var b := AfterPaseoStates(t, done, states, backgroundCutoff)[k];
            SameLedgers(t[k], b) && b.parent.None?
  {
    if done != [] {
      var init, s := done[..|done| - 1], done[|done| - 1];
      var v := AfterPaseoStates(t, init, states, backgroundCutoff);
      RowsOnlyLeave(v, s, states, backgroundCutoff);
      StalePassInert(t, init, states, backgroundCutoff, k);
      StaleRecordInert(v, s, states, backgroundCutoff, k);
    }
  }

  lemma DismissedRow(t: Table, k: Id, at: Instant, watermark: Watermark, j: Id)
    requires WellFormed(t) && IsRoot(t, j) && Below(PaseoLinks(t), j, k) && Shown(t[j], watermark)
    requires t[j].unread.Some? || t[j].done.Some? || t[j].status == Error
    ensures var u := AfterAck(t, k, at, watermark);
            WellFormed(u) && IsRoot(u, j) && u[j].acked == Some(at) && u[j].unread.None? && u[j].done.None?
  {
    AckKeeps(t, k, at, watermark);
    DismissalReachesExactly(t, k, at, watermark);
  }

  /** Nothing a record reports for the row is newer than the instant. */
  predicate NothingNewer(states: seq<PaseoState>, k: Id, at: Instant) {
    forall i :: 0 <= i < |states| && states[i].id == k ==>
      (states[i].attentionTimestamp.Some? ==> states[i].attentionTimestamp.value <= at)
      && (states[i].updatedAt.Some? ==> states[i].updatedAt.value <= at)
  }

  /** After a dismissal, overlay passes reporting nothing newer than the gesture leave the dismissed row bare. */
  lemma DismissedStaysBare(t: Table, k: Id, at: Instant, watermark: Watermark, j: Id, states: seq<PaseoState>,
                           backgroundCutoff: Option<Instant>)
    requires WellFormed(t) && IsRoot(t, j) && Below(PaseoLinks(t), j, k) && Shown(t[j], watermark)
    requires t[j].unread.Some? || t[j].done.Some? || t[j].status == Error
    requires NothingNewer(states, j, at)
    ensures var u := AfterAck(t, k, at, watermark);
            WellFormed(u)
            && var w := AfterPaseoStates(u, states, states, backgroundCutoff);
               j in w ==> w[j].unread.None? && w[j].done.None? && w[j].acked == Some(at)
  {
    DismissedRow(t, k, at, watermark, j);
    BareStaysBare(AfterAck(t, k, at, watermark), at, j, states, backgroundCutoff);
  }

  lemma BareStaysBare(t: Table, at: Instant, k: Id, states: seq<PaseoState>, backgroundCutoff: Option<Instant>)
    requires WellFormed(t) && IsRoot(t, k) && t[k].acked == Some(at) && t[k].unread.None? && t[k].done.None?
    requires NothingNewer(states, k, at)
    ensures var w := AfterPaseoStates(t, states, states, backgroundCutoff);
            k in w ==> w[k].unread.None? && w[k].done.None? && w[k].acked == Some(at)
  {
    if k in AfterPaseoStates(t, states, states, backgroundCutoff) {
      StalePassInert(t, states, states, backgroundCutoff, k);
    }
  }

  // ----- everything that moves a ledger -----

  /** Sessions are started by hooks, and by the events of the Evener feed. */
  predicate Mentions(op: Op, p: Event -> bool) {
    match op
    case Hooks(events) => exists i :: 0 <= i < |events| && p(events[i])
    case EvenerSync(events, _, _) => exists i :: 0 <= i < |events| && p(events[i])
    case _ => false
  }

  function StartOf(k: Id): Event -> bool {
    (e: Event) => e.SessionStart? && e.id == k
  }

  function TurnEndOf(k: Id): Event -> bool {
    (e: Event) => e.StatusEvent? && e.id == k && (e.kind == Stop || e.kind == StopFailure)
  }

  predicate Reuses(op: Op, k: Id) {
    Mentions(op, StartOf(k))
  }

  predicate EndsTurns(op: Op, k: Id) {
    Mentions(op, TurnEndOf(k))
  }

  /** What the table's own account of its ledgers allows of a change to one row. */
  ghost predicate LedgerMoves(a: Row, b: Row, reused: bool, turnEnded: bool) {
    && (a.unread.Some? && b.unread.None? ==> reused)
    && (a.done.Some? && b.done.None? ==> reused)
    && (a.viewed.Some? && b.viewed.None? ==> reused || turnEnded)
    && (b.unread.Some? && b.unread != a.unread ==> turnEnded)
    && (b.done.Some? && b.done != a.done ==> turnEnded)
    && (b.viewed.Some? ==> b.viewed == a.viewed) && b.acked == a.acked
  }

  lemma ObservedMoves(t: Table, e: Event, k: Id)
    requires IsForest(NativeLinks(t)) && k in t && e.SessionObserved?
    ensures k in AfterEvent(t, e).0 && SameLedgers(t[k], AfterEvent(t, e).0[k])
  {
    if e.id in t {
      ObservedLedgers(t[e.id], e);
    }
  }

  lemma ObservedLedgers(row: Row, e: Event)
    requires e.SessionObserved?
    ensures SameLedgers(row, ObservedRow(row, e))
  {
  }

  /** Events that name or observe a session move no ledger. */
  lemma NamingMoves(t: Table, e: Event, k: Id)
    requires IsForest(NativeLinks(t)) && k in t
    requires e.SessionTitleChanged? || e.SessionModelChanged? || e.SessionStatusObserved? || e.SessionObserved?
    ensures k in AfterEvent(t, e).0 && SameLedgers(t[k], AfterEvent(t, e).0[k])
  {
    if e.SessionObserved? {
      ObservedMoves(t, e, k);
    }
  }

  lemma EndMoves(t: Table, e: Event, k: Id)
    requires WellFormed(t) && k in t && k in AfterEvent(t, e).0 && (e.SessionEnd? || e.SubagentStop?)
    ensures AfterEvent(t, e).0[k] == t[k]
  {
    EndHooks(t, e.id, e.at);
  }

  lemma EventMoves(t: Table, e: Event, k: Id)
    requires WellFormed(t) && k in t && k in AfterEvent(t, e).0
    ensures LedgerMoves(t[k], AfterEvent(t, e).0[k], StartOf(k)(e), TurnEndOf(k)(e))
  {
    if e.StatusEvent? {
      StatusHook(t, e.id, e.kind, e.at);
    } else if e.SessionStart? {
      StartHook(t, e);
    } else if e.SubagentStart? {
      SubagentHook(t, e);
    } else if e.SessionEnd? || e.SubagentStop? {
      EndMoves(t, e, k);
    } else {
      NamingMoves(t, e, k);
    }
  }

  lemma MovesTwice(a: Row, m: Row, b: Row, r: bool, e: bool, r': bool, e': bool)
    requires LedgerMoves(a, m, r, e) && LedgerMoves(m, b, r', e')
    ensures LedgerMoves(a, b, r || r', e || e')
  {
  }

  lemma {:induction false} EventsMove(t: Table, events: seq<Event>, k: Id)
    requires WellFormed(t) && k in t && LivesThroughEvents(t, events, k)
    ensures k in AfterEvents(t, events)
    ensures LedgerMoves(t[k], AfterEvents(t, events)[k], Reuses(Hooks(events), k), EndsTurns(Hooks(events), k))
  {
    TakeAll(events);
    if events != [] {
      var init, e := events[..|events| - 1], events[|events| - 1];
      LivesShorter(t, events, k);
      EventsMove(t, init, k);
      EventMoves(AfterEvents(t, init), e, k);
      EventsSnoc(t, init, e);
      MentionsSnoc(init, e, StartOf(k));
      MentionsSnoc(init, e, TurnEndOf(k));
      LastApart(events);
      MovesTwice(t[k], AfterEvents(t, init)[k], AfterEvents(t, events)[k],
                 Reuses(Hooks(init), k), EndsTurns(Hooks(init), k), StartOf(k)(e), TurnEndOf(k)(e));
    }
  }

  lemma LivesShorter(t: Table, events: seq<Event>, k: Id)
    requires WellFormed(t) && events != [] && LivesThroughEvents(t, events, k)
    ensures LivesThroughEvents(t, events[..|events| - 1], k)
    ensures k in AfterEvents(t, events[..|events| - 1]) && k in AfterEvents(t, events)
  {
    var init := events[..|events| - 1];
    TakeAll(events);
    forall n | 0 <= n <= |init| ensures k in AfterEvents(t, init[..n]) {
      TakeShorter(events, n);
    }
  }

  lemma TakeShorter<T>(s: seq<T>, n: nat)
    requires n < |s|
    ensures s[..|s| - 1][..n] == s[..n]
  {
  }

  lemma LastApart<T>(s: seq<T>)
    requires s != []
    ensures s == s[..|s| - 1] + [s[|s| - 1]]
  {
  }

  lemma MentionsSnoc(init: seq<Event>, e: Event, p: Event -> bool)
    ensures Mentions(Hooks(init + [e]), p) <==> Mentions(Hooks(init), p) || p(e)
  {
    var events := init + [e];
    assert events[|init|] == e;
    if i :| 0 <= i < |init| && p(init[i]) {
      assert p(events[i]);
    }
  }

  /** Who may be named by the records of an overlay pass. */
  predicate Names(op: Op, k: Id) {
    op.PaseoSync? && Listed(op.states, k)
  }

  /**
   * The complete list. Unread is cleared by a view, a dismissal or a reused
   * start; a hold by a dismissal, a reused start or expiry; the view clock is
   * started by a view alone; and results land by a turn's end or an overlay
   * record that names the row.
   */
  ghost predicate AccountedFor(a: Row, b: Row, op: Op, k: Id) {
    && (a.unread.Some? && b.unread.None? ==> op.View? || op.Acknowledge? || Reuses(op, k))
    && (a.done.Some? && b.done.None? ==> op.Acknowledge? || op.Sweep? || Reuses(op, k))
    && (a.viewed != b.viewed && b.viewed.Some? ==> op.View? && b.viewed.value == op.at)
    && (a.acked != b.acked ==> (op.View? || op.Acknowledge?) && b.acked == Some(op.at))
    && (a.unread != b.unread && b.unread.Some? ==> EndsTurns(op, k) || Names(op, k))
    && (a.done != b.done && b.done.Some? ==> EndsTurns(op, k) || Names(op, k))
  }

  lemma HooksAccounted(a: Row, b: Row, op: Op, k: Id)
    requires LedgerMoves(a, b, Reuses(op, k), EndsTurns(op, k))
    ensures AccountedFor(a, b, op, k)
  {
  }

  lemma {:induction false} FactsLeaveLedgers(t: Table, us: seq<FactUpdate>, k: Id)
    requires k in t
    ensures k in AfterFacts(t, us) && SameLedgers(t[k], AfterFacts(t, us)[k])
  {
    if us != [] {
      FactsLeaveLedgers(t, us[..|us| - 1], k);
    }
  }

  lemma {:induction false} ChildrenLeaveLedgers(t: Table, children: seq<CodexChild>, k: Id)
    requires WellFormed(t) && k in t
    ensures k in AfterCodexChildren(t, children).0 && SameLedgers(t[k], AfterCodexChildren(t, children).0[k])
  {
    if children != [] {
      var v := AfterCodexChildren(t, children[..|children| - 1]).0;
      ChildrenLeaveLedgers(t, children[..|children| - 1], k);
      ChildLeavesLedgers(v, children[|children| - 1], k);
    }
  }

  lemma ChildLeavesLedgers(t: Table, c: CodexChild, k: Id)
    requires WellFormed(t) && k in t
    ensures k in AfterCodexChild(t, c) && SameLedgers(t[k], AfterCodexChild(t, c)[k])
  {
    if CodexAdmitted(t, c).Some? {
      AdmissionKeeps(t, c);
    }
  }

  /** What overlay records may do to a row's ledgers: land a result, and only if they name it. */
  ghost predicate RecordMoves(a: Row, b: Row, named: bool) {
    && (a.unread.Some? ==> b.unread.Some?) && (a.done.Some? ==> b.done.Some?) && b.acked == a.acked
    && (b.viewed.Some? ==> b.viewed == a.viewed) && (!named ==> SameLedgers(a, b))
  }

  lemma RecordAccounted(t: Table, s: PaseoState, states: seq<PaseoState>, backgroundCutoff: Option<Instant>, k: Id)
    requires WellFormed(t) && k in t && k in AfterPaseoState(t, s, states, backgroundCutoff)
    ensures RecordMoves(t[k], AfterPaseoState(t, s, states, backgroundCutoff)[k], s.id == k)
  {
    if s.id != k {
      RecordMisses(t, s, states, backgroundCutoff, k);
    } else if s.archivedAt.Some? {
      RecordArchives(t, s, states, backgroundCutoff);
    } else if t[k].parent.Some? {
      RecordOfChild(t, s, states, backgroundCutoff);
    } else {
      RecordReaches(t, s, states, backgroundCutoff);
    }
  }

  lemma {:induction false} PassAccounted(t: Table, done: seq<PaseoState>, states: seq<PaseoState>,
                                         backgroundCutoff: Option<Instant>, k: Id)
    requires WellFormed(t) && k in t && k in AfterPaseoStates(t, done, states, backgroundCutoff)
    ensures RecordMoves(t[k], AfterPaseoStates(t, done, states, backgroundCutoff)[k], Listed(done, k))
  {
    if done != [] {
      var init, s := done[..|done| - 1], done[|done| - 1];
      var v := AfterPaseoStates(t, init, states, backgroundCutoff);
      RowsOnlyLeave(v, s, states, backgroundCutoff);
      PassAccounted(t, init, states, backgroundCutoff, k);
      RecordAccounted(v, s, states, backgroundCutoff, k);
      ListedEarlier(done, k);
    }
  }

  predicate Listed(states: seq<PaseoState>, k: Id) {
    exists i :: 0 <= i < |states| && states[i].id == k
  }

  lemma ListedEarlier(done: seq<PaseoState>, k: Id)
    requires done != []
    ensures Listed(done[..|done| - 1], k) || done[|done| - 1].id == k ==> Listed(done, k)
  {
    var init := done[..|done| - 1];
    if Listed(init, k) {
      var i :| 0 <= i < |init| && init[i].id == k;
      assert done[i].id == k;
    }
  }

  lemma HookOpAccounted(t: Table, op: Op, k: Id)
    requires WellFormed(t) && LivesThrough(t, op, k) && (op.Hooks? || op.EvenerSync?)
    ensures AccountedFor(t[k], Apply(t, op)[k], op, k)
  {
    EventsMove(t, op.events, k);
    HooksAccounted(t[k], AfterEvents(t, op.events)[k], op, k);
  }

  lemma GestureAccounted(t: Table, op: Op, k: Id)
    requires WellFormed(t) && k in t && (op.View? || op.Acknowledge?)
    ensures k in Apply(t, op) && AccountedFor(t[k], Apply(t, op)[k], op, k)
  {
    if op.View? {
      ViewReachesExactly(t, op.id, op.at, op.watermark);
    } else {
      DismissalReachesExactly(t, op.id, op.at, op.watermark);
    }
  }

  lemma UpkeepAccounted(t: Table, op: Op, k: Id)
    requires WellFormed(t) && k in t && k in Apply(t, op) && (op.UpdateFacts? || op.PaseoSync? || op.CodexSync?)
    ensures AccountedFor(t[k], Apply(t, op)[k], op, k)
  {
    match op
    case UpdateFacts(updates) => FactsLeaveLedgers(t, updates, k);
    case PaseoSync(states, backgroundCutoff) => PassAccounted(t, states, states, backgroundCutoff, k);
    case CodexSync(children) => ChildrenLeaveLedgers(t, children, k);
  }

  /** Whatever is done to the registry, a row that lives through it has its ledgers accounted for. */
  lemma LedgersAccountedFor(t: Table, op: Op, k: Id)
    requires WellFormed(t) && LivesThrough(t, op, k)
    ensures AccountedFor(t[k], Apply(t, op)[k], op, k)
  {
    if op.Hooks? || op.EvenerSync? {
      HookOpAccounted(t, op, k);
    } else if op.View? || op.Acknowledge? {
      GestureAccounted(t, op, k);
    } else if op.UpdateFacts? || op.PaseoSync? || op.CodexSync? {
      UpkeepAccounted(t, op, k);
    } else {
      RemovalAccounted(t, op, k);
    }
  }

  lemma RemovalAccounted(t: Table, op: Op, k: Id)
    requires WellFormed(t) && k in t && k in Apply(t, op) && (op.Clear? || op.ClearAll? || op.Prune? || op.Sweep?)
    ensures AccountedFor(t[k], Apply(t, op)[k], op, k)
  {
  }

  // ----- over whole runs -----

  /** What may take a badge off a row. */
  predicate ClearsUnread(op: Op, k: Id) {
    op.View? || op.Acknowledge? || Reuses(op, k)
  }

  /** What may let go of a finished card. */
  predicate ClearsDone(op: Op, k: Id) {
    op.Acknowledge? || op.Sweep? || Reuses(op, k)
  }

  ghost predicate SomeClears(more: seq<Op>, k: Id, clears: (Op, Id) -> bool) {
    exists i :: 0 <= i < |more| && clears(more[i], k)
  }

  /** Over any run, a result that is gone from a row that lived on was taken by one of the operations that may. */
  lemma {:induction false} RunAccountedFor(ops: seq<Op>, more: seq<Op>, k: Id)
    requires LivesOn(ops, more, k)
    ensures k in Run(ops) && k in Run(ops + more)
    ensures Run(ops)[k].unread.Some? && Run(ops + more)[k].unread.None? ==> SomeClears(more, k, ClearsUnread)
    ensures Run(ops)[k].done.Some? && Run(ops + more)[k].done.None? ==> SomeClears(more, k, ClearsDone)
    decreases |more|
  {
    if more == [] {
      assert ops + more == ops;
    } else {
      var init, last := more[..|more| - 1], more[|more| - 1];
      RunAccountedFor(ops, init, k);
      ConcatSnoc(ops, more);
      RunSnoc(ops + init, last);
      LedgersAccountedFor(Run(ops + init), last, k);
      ClearsEarlier(more, k, ClearsUnread);
      ClearsEarlier(more, k, ClearsDone);
    }
  }

  lemma ClearsEarlier(more: seq<Op>, k: Id, clears: (Op, Id) -> bool)
    requires more != []
    ensures SomeClears(more[..|more| - 1], k, clears) || clears(more[|more| - 1], k) ==> SomeClears(more, k, clears)
  {
    var init := more[..|more| - 1];
    if SomeClears(init, k, clears) {
      var i :| 0 <= i < |init| && clears(init[i], k);
      assert clears(more[i], k);
    }
  }
}
