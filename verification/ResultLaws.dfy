/** How results land: what each hook and overlay record does to a row, and where its result shows. */
module ResultLaws {
  import opened Common
  import opened Forest
  import opened Lineage
  import opened Schema
  import opened RegistrySpec
  import opened RegistryRuns
  import opened ProjectionSpec
  import opened Snapshot
  import opened PublishedLaws
  import opened CardGestures

  // ----- rewriting one row -----

  ghost predicate OnlyRow(t: Table, u: Table, k: Id) {
    k in t && u.Keys == t.Keys && forall j :: j in t && j != k ==> u[j] == t[j]
  }

  predicate SameLedgers(a: Row, b: Row) {
    b.unread == a.unread && b.done == a.done && b.viewed == a.viewed && b.acked == a.acked
  }

  /** Everything but the status, its clock, the background flag, the last event, and the ledgers. */
  predicate SameFacts(a: Row, b: Row) {
    && b.parent == a.parent && b.slot == a.slot && b.openedAt == a.openedAt && b.ended == a.ended
    && b.title == a.title && b.project == a.project && b.model == a.model && b.activityLine == a.activityLine
    && b.ghosttyTerminalId == a.ghosttyTerminalId && b.transcriptPath == a.transcriptPath && SameOrigin(a, b)
  }

  predicate SameOrigin(a: Row, b: Row) {
    && b.originKind == a.originKind && b.originRef == a.originRef
    && b.originSubagent == a.originSubagent && b.originParentRef == a.originParentRef
  }

  /** The row has this status now, since `at` unless it had it before. */
  predicate Turns(a: Row, b: Row, status: Status, at: Instant) {
    b.status == status && b.statusSince == if a.status == status then a.statusSince else Some(at)
  }

  /** An unviewed, finished result of this instant. */
  predicate LandsResult(b: Row, at: Instant) {
    b.unread == Some(at) && b.done == Some(at) && b.viewed.None?
  }

  // ----- hooks -----

  /** What a status hook makes of a row. */
  ghost predicate HookTurns(a: Row, b: Row, kind: StatusKind, at: Instant) {
    && SameFacts(a, b) && b.updatedAt == at && b.acked == a.acked
    && match kind
       case Activity => Turns(a, b, Working, at) && b.background == a.background && SameLedgers(a, b)
       case Attention => Turns(a, b, Waiting, at) && b.background == a.background && SameLedgers(a, b)
       case Stop =>
         b.background == a.background
         && (if a.background then Turns(a, b, Working, at) && SameLedgers(a, b)
             else Turns(a, b, Idle, at) && LandsResult(b, at))
       case StopFailure =>
         Turns(a, b, Error, at) && b.background == a.background
         && b.unread == Some(at) && b.viewed.None? && b.done == a.done
       case BackgroundWorkStarted => Turns(a, b, a.status, at) && b.background && SameLedgers(a, b)
       case BackgroundWorkCleared => Turns(a, b, a.status, at) && !b.background && SameLedgers(a, b)
  }

  /** A status hook is for the row it names, and lands there. */
  lemma StatusHook(t: Table, k: Id, kind: StatusKind, at: Instant)
    requires IsForest(NativeLinks(t))
    ensures var (u, result) := AfterEvent(t, StatusEvent(k, kind, at));
            if k in t then result == Applied && OnlyRow(t, u, k) && HookTurns(t[k], u[k], kind, at)
            else result == Ignored && u == t
  {
  }

  /** A started session is idle, owes nothing, and a reused one keeps its slot, its age and its last acknowledgement. */
  ghost predicate Starts(t: Table, u: Table, e: Event)
    requires e.SessionStart? && e.id in u
  {
    var b := u[e.id];
    && b.status == Idle && !b.background && b.unread.None? && b.done.None? && b.viewed.None? && b.ended.None?
    && b.parent.None? && b.updatedAt == e.at && b.project == e.project && b.transcriptPath == e.transcriptPath
    && b.ghosttyTerminalId == (if e.id.provider == Claude then e.ghosttyTerminalId else None)
    && (e.origin.Some? ==>
          b.originKind == Some(e.origin.value.kind) && b.originRef == Some(e.origin.value.ref)
          && !b.originSubagent && b.originParentRef.None?)
    && if e.id in t then Restarts(t[e.id], b, e) else BeginsAnew(t, b, e)
  }

  ghost predicate Restarts(a: Row, b: Row, e: Event)
    requires e.SessionStart?
  {
    && b.slot == a.slot && b.openedAt == a.openedAt && b.acked == a.acked && b.activityLine == a.activityLine
    && Turns(a, b, Idle, e.at) && (e.origin.None? ==> SameOrigin(a, b))
    && b.title == (if a.originKind == Some(Paseo) then a.title else e.title)
    && b.model == (if e.model.Some? then e.model else a.model)
  }

  ghost predicate BeginsAnew(t: Table, b: Row, e: Event)
    requires e.SessionStart?
  {
    && b.slot.Some? && LeastFreeSlot(t, b.slot.value) && b.openedAt == e.at && b.acked.None? && b.activityLine.None?
    && b.statusSince == Some(e.at) && b.title == e.title && b.model == e.model
    && (e.origin.None? ==> b.originKind.None? && b.originRef.None? && !b.originSubagent && b.originParentRef.None?)
  }

  lemma StartHook(t: Table, e: Event)
    requires IsForest(NativeLinks(t)) && e.SessionStart?
    ensures var (u, result) := AfterEvent(t, e);
            if e.id in t && t[e.id].parent.Some? then result == Ignored && u == t
            else result == Applied && u.Keys == t.Keys + {e.id} && Starts(t, u, e)
                 && forall j :: j in t && j != e.id ==> u[j] == t[j]
  {
  }

  /** A subagent hangs under a parent of its provider that is not below it, idle; a known root is never rehung. */
  ghost predicate Hangs(t: Table, u: Table, e: Event)
    requires e.SubagentStart? && e.id in u
  {
    var b := u[e.id];
    && b.parent == Some(e.parentSession) && b.status == Idle && b.title == e.title && b.project == e.project
    && b.updatedAt == e.at
    && if e.id in t
       then Turns(t[e.id], b, Idle, e.at) && SameLedgers(t[e.id], b) && b.openedAt == t[e.id].openedAt
            && b.model == (if e.model.Some? then e.model else t[e.id].model)
       else b.statusSince == Some(e.at) && b.openedAt == e.at && b.slot.None? && b.model == e.model
            && b.unread.None? && b.done.None? && b.viewed.None? && b.acked.None? && !b.background
  }

  lemma SubagentHook(t: Table, e: Event)
    requires IsForest(NativeLinks(t)) && e.SubagentStart?
    ensures var (u, result) := AfterEvent(t, e);
            var p := Id(e.id.provider, e.parentSession);
            if p in t && !Below(NativeLinks(t), p, e.id) && !IsRoot(t, e.id)
            then result == Applied && u.Keys == t.Keys + {e.id} && Hangs(t, u, e)
                 && forall j :: j in t && j != e.id ==> u[j] == t[j]
            else result == Ignored && u == t
  {
  }

  /** Rows gone are gone, and the rest are as they were. */
  ghost predicate Loses(t: Table, u: Table, gone: set<Id>) {
    u.Keys == t.Keys - gone && forall j :: j in u ==> u[j] == t[j]
  }

  /** Ending a session takes its lineage and everybody below it; stopping a subagent takes those below it. */
  lemma EndHooks(t: Table, k: Id, at: Instant)
    requires TopologyOk(t)
    ensures Loses(t, AfterEvent(t, SessionEnd(k, at)).0, if IsRoot(t, k) then Voices(t, k) else {})
    ensures Loses(t, AfterEvent(t, SubagentStop(k, at)).0, if k in t && !IsRoot(t, k) then Voices(t, k) else {})
  {
    if IsRoot(t, k) {
      LineageGone(t, k);
    }
  }

  lemma LineageGone(t: Table, k: Id)
    requires TopologyOk(t) && IsRoot(t, k)
    ensures Loses(t, WithoutLineage(t, k, map[]), Voices(t, k))
  {
    CascadeIsLineage(t, k);
    forall j | j in t ensures BelowAny(t, j, PaseoSubtree(t, k, map[])) <==> j in Voices(t, k) {
      if j in Voices(t, k) {
        var d :| IsRoot(t, d) && Below(PaseoLinks(t), d, k) && Below(NativeLinks(t), j, d);
        assert d in PaseoSubtree(t, k, map[]);
      }
    }
  }

  // ----- overlay records -----

  /** The record's flag is news for the row: dated, after its last acknowledgement, and nothing is unread there. */
  predicate FlagDue(a: Row, s: PaseoState) {
    && s.requiresAttention && a.unread.None?
    && (s.attentionTimestamp.Some? || s.updatedAt.Some?)
    && (a.acked.None? || a.acked.value < FlagTime(s))
  }

  predicate Dated(s: PaseoState) {
    s.attentionTimestamp.Some? || s.updatedAt.Some?
  }

  function FlagTime(s: PaseoState): Instant
    requires Dated(s)
  {
    if s.attentionTimestamp.Some? then s.attentionTimestamp.value else s.updatedAt.value
  }

  /** The record reports the end of a turn that the row's hooks have missed. */
  predicate TurnEndDue(a: Row, s: PaseoState, backgroundCutoff: Option<Instant>) {
    && (s.lastStatus == Some(PaseoIdle) || s.lastStatus == Some(PaseoClosed)) && s.updatedAt.Some?
    && a.parent.None? && (a.status == Working || a.status == Waiting) && a.updatedAt < s.updatedAt.value
    && (a.background ==> backgroundCutoff.Some? && a.updatedAt < backgroundCutoff.value)
  }

  predicate After(at: Instant, stamp: Option<Instant>) {
    stamp.None? || stamp.value < at
  }

  datatype Ledger = Ledger(unread: Option<Instant>, done: Option<Instant>, viewed: Option<Instant>)

  function LedgerOf(row: Row): Ledger {
    Ledger(row.unread, row.done, row.viewed)
  }

  /** The ledger once the record's flag, if it is news, has landed: an existing hold stays, the view clock stops. */
  function Flagged(a: Row, s: PaseoState): Ledger {
    if FlagDue(a, s)
    then Ledger(Some(FlagTime(s)), if a.done.Some? then a.done else Some(FlagTime(s)), None) else LedgerOf(a)
  }

  /** What a record does to the root it names, its title and origin aside. */
  ghost predicate RecordTurns(a: Row, b: Row, s: PaseoState, backgroundCutoff: Option<Instant>) {
    && b.updatedAt == a.updatedAt && b.acked == a.acked && b.parent == a.parent && b.slot == a.slot
    && if !TurnEndDue(a, s, backgroundCutoff)
       then b.status == a.status && b.background == a.background && b.statusSince == a.statusSince
            && LedgerOf(b) == Flagged(a, s)
       else EndsTurn(a, b, Flagged(a, s), s.updatedAt.value)
  }

  /** A missed turn end, made up for: idle, and a result unless something as new is known already. */
  ghost predicate EndsTurn(a: Row, b: Row, ledger: Ledger, at: Instant) {
    && b.status == Idle && !b.background && b.statusSince == Some(at)
    && if After(at, a.acked) && After(at, ledger.unread) && After(at, ledger.done)
       then LedgerOf(b) == Ledger(Some(at), Some(at), None) else LedgerOf(b) == ledger
  }

  predicate StampedOrigin(b: Row, s: PaseoState) {
    && b.originKind == Some(Paseo) && b.originRef == Some(s.agentId)
    && b.originSubagent == s.isSubagent && b.originParentRef == s.parentAgentId
  }

  /** The row between the two halves of a record. */
  ghost predicate HalfTurned(a: Row, m: Row, s: PaseoState) {
    && m.updatedAt == a.updatedAt && m.acked == a.acked && m.parent == a.parent && m.slot == a.slot
    && m.status == a.status && m.background == a.background && m.statusSince == a.statusSince
    && LedgerOf(m) == Flagged(a, s) && StampedOrigin(m, s) && m.title == if s.title.Some? then s.title else a.title
  }

  lemma AttentionHalf(t: Table, s: PaseoState)
    requires IsRoot(t, s.id)
    ensures var u := AttentionSynced(TitleSynced(t, s), s); s.id in u && HalfTurned(t[s.id], u[s.id], s)
  {
  }

  lemma SettleHalf(t: Table, s: PaseoState, backgroundCutoff: Option<Instant>)
    requires IsRoot(t, s.id)
    ensures var a, b := t[s.id], SettleSynced(t, s, backgroundCutoff)[s.id];
            SameOrigin(a, b) && b.title == a.title && b.updatedAt == a.updatedAt && b.acked == a.acked
            && b.parent == a.parent && b.slot == a.slot
            && if TurnEndDue(a, s, backgroundCutoff) then EndsTurn(a, b, LedgerOf(a), s.updatedAt.value) else b == a
  {
  }

  /** A record that is not archived, and the root it names. */
  lemma RecordReaches(t: Table, s: PaseoState, states: seq<PaseoState>, backgroundCutoff: Option<Instant>)
    requires IsForest(NativeLinks(t)) && s.archivedAt.None? && IsRoot(t, s.id)
    ensures var u := AfterPaseoState(t, s, states, backgroundCutoff);
            s.id in u && RecordTurns(t[s.id], u[s.id], s, backgroundCutoff) && StampedOrigin(u[s.id], s)
            && u[s.id].title == if s.title.Some? then s.title else t[s.id].title
  {
    AttentionHalf(t, s);
    SettleHalf(AttentionSynced(TitleSynced(t, s), s), s, backgroundCutoff);
  }

  /** A row left behind when its agent moved to another session. */
  predicate Abandoned(k: Id, a: Row, s: PaseoState) {
    a.parent.None? && k != s.id && a.originKind == Some(Paseo) && a.originRef == Some(s.agentId)
  }

  /** What a record does to a row it does not name: nothing, or it takes an abandoned row's origin and rests it. */
  ghost predicate RecordPasses(k: Id, a: Row, b: Row, s: PaseoState, states: seq<PaseoState>) {
    if Abandoned(k, a, s) && (forall i :: 0 <= i < |states| && states[i].agentId == s.agentId ==> states[i].id == s.id)
    then b.originKind.None? && b.originRef.None? && !b.originSubagent && b.originParentRef.None?
         && b.status == Idle && !b.background && b.updatedAt == a.updatedAt && SameLedgers(a, b)
         && b.parent == a.parent && b.slot == a.slot && b.title == a.title && b.model == a.model
         && b.statusSince == (if a.status != Idle && s.updatedAt.Some? then s.updatedAt else a.statusSince)
    else b == a
  }

  lemma RecordElsewhere(t: Table, s: PaseoState, states: seq<PaseoState>, backgroundCutoff: Option<Instant>, k: Id)
    requires IsForest(NativeLinks(t)) && s.archivedAt.None? && k in t && k != s.id
    ensures var u := AfterPaseoState(t, s, states, backgroundCutoff);
            k in u && RecordPasses(k, t[k], u[k], s, states)
  {
  }

  /** A record for a subagent row only titles it. */
  lemma RecordOfChild(t: Table, s: PaseoState, states: seq<PaseoState>, backgroundCutoff: Option<Instant>)
    requires IsForest(NativeLinks(t)) && s.archivedAt.None? && s.id in t && t[s.id].parent.Some?
    ensures var u := AfterPaseoState(t, s, states, backgroundCutoff);
            s.id in u && u[s.id] == if s.title.Some? then t[s.id].(title := s.title) else t[s.id]
  {
  }

  /** The row hangs below the identity, through its native parents and then the pass's lineage. */
  ghost predicate HangsBelow(t: Table, j: Id, k: Id, hints: Hints)
    requires IsForest(NativeLinks(t))
  {
    exists d :: Below(NativeLinks(t), j, d) && Below(HintedLinks(t, hints), d, k)
  }

  /** An archived record takes its lineage with it, read with the pass's own routing facts. */
  lemma RecordArchives(t: Table, s: PaseoState, states: seq<PaseoState>, backgroundCutoff: Option<Instant>)
    requires IsForest(NativeLinks(t)) && s.archivedAt.Some?
    ensures Loses(t, AfterPaseoState(t, s, states, backgroundCutoff),
                  set j | j in t && HangsBelow(t, j, s.id, HintsOf(states)))
  {
    var hints := HintsOf(states);
    forall j ensures BelowAny(t, j, PaseoSubtree(t, s.id, hints)) <==> HangsBelow(t, j, s.id, hints) {
      LineageMembers(t, j, s.id, hints);
    }
  }

  lemma LineageMembers(t: Table, j: Id, k: Id, hints: Hints)
    requires IsForest(NativeLinks(t))
    ensures BelowAny(t, j, PaseoSubtree(t, k, hints)) <==> HangsBelow(t, j, k, hints)
  {
    if HangsBelow(t, j, k, hints) {
      var d :| Below(NativeLinks(t), j, d) && Below(HintedLinks(t, hints), d, k);
      assert d in PaseoSubtree(t, k, hints);
    }
  }

  /** The routing facts of a pass are those of each identity's last record. */
  lemma {:induction false} HintsAreLast(states: seq<PaseoState>, i: nat)
    requires i < |states| && forall j :: i < j < |states| ==> states[j].id != states[i].id
    ensures states[i].id in HintsOf(states)
    ensures HintsOf(states)[states[i].id]
            == Facts(Some(states[i].agentId), states[i].isSubagent, states[i].parentAgentId)
  {
    if i < |states| - 1 {
      var init := states[..|states| - 1];
      assert init[i] == states[i];
      HintsAreLast(init, i);
    }
  }

  // ----- a whole pass -----

  /** A root no record has named yet: untouched, or rested without its origin. */
  ghost predicate Waited(a: Row, m: Row) {
    && m.parent.None? && m.slot == a.slot && m.updatedAt == a.updatedAt && SameLedgers(a, m)
    && (m == a || (m.status == Idle && !m.background && m.originKind.None?))
  }

  /** Some earlier record of the pass is for the agent the row says it serves. */
  ghost predicate Claimed(a: Row, states: seq<PaseoState>) {
    a.originKind == Some(Paseo) && exists j :: 0 <= j < |states| && a.originRef == Some(states[j].agentId)
  }

  lemma RowsOnlyLeave(t: Table, s: PaseoState, states: seq<PaseoState>, backgroundCutoff: Option<Instant>)
    requires WellFormed(t)
    ensures AfterPaseoState(t, s, states, backgroundCutoff).Keys <= t.Keys
  {
    PaseoStateKeeps(t, s, states, backgroundCutoff);
  }

  lemma {:induction false} PassBefore(t: Table, done: seq<PaseoState>, states: seq<PaseoState>,
                                      backgroundCutoff: Option<Instant>, k: Id)
    requires WellFormed(t) && IsRoot(t, k) && forall j :: 0 <= j < |done| ==> done[j].id != k
    requires k in AfterPaseoStates(t, done, states, backgroundCutoff)
    ensures var m := AfterPaseoStates(t, done, states, backgroundCutoff)[k];
            Waited(t[k], m) && (!Claimed(t[k], done) ==> m == t[k])
  {
    if done != [] {
      var init, s := done[..|done| - 1], done[|done| - 1];
      var v := AfterPaseoStates(t, init, states, backgroundCutoff);
      RowsOnlyLeave(v, s, states, backgroundCutoff);
      PassBefore(t, init, states, backgroundCutoff, k);
      RecordMisses(v, s, states, backgroundCutoff, k);
      if Claimed(t[k], init) {
        var j :| 0 <= j < |init| && t[k].originRef == Some(init[j].agentId);
        assert done[j] == init[j];
      }
    }
  }

  /** A record for somebody else, archived or not, as long as the row survives it. */
  lemma RecordMisses(t: Table, s: PaseoState, states: seq<PaseoState>, backgroundCutoff: Option<Instant>, k: Id)
    requires WellFormed(t) && k in t && k != s.id && k in AfterPaseoState(t, s, states, backgroundCutoff)
    ensures var b := AfterPaseoState(t, s, states, backgroundCutoff)[k];
            RecordPasses(k, t[k], b, s, states) || b == t[k]
  {
    if s.archivedAt.Some? {
      RecordArchives(t, s, states, backgroundCutoff);
    } else {
      RecordElsewhere(t, s, states, backgroundCutoff, k);
    }
  }

  /** Only record `i` of the pass names the row. */
  ghost predicate NamedOnce(states: seq<PaseoState>, i: nat, k: Id) {
    i < |states| && states[i].id == k && forall j :: 0 <= j < |states| && states[j].id == k ==> j == i
  }

  /** The table after the first records of a pass. */
  ghost function MidPass(t: Table, n: nat, states: seq<PaseoState>, backgroundCutoff: Option<Instant>): (u: Table)
    requires WellFormed(t) && n <= |states|
    ensures WellFormed(u)
  {
    AfterPaseoStates(t, states[..n], states, backgroundCutoff)
  }

  lemma MidPassStep(t: Table, n: nat, states: seq<PaseoState>, backgroundCutoff: Option<Instant>)
    requires WellFormed(t) && n < |states|
    ensures MidPass(t, n + 1, states, backgroundCutoff)
            == AfterPaseoState(MidPass(t, n, states, backgroundCutoff), states[n], states, backgroundCutoff)
    ensures MidPass(t, n + 1, states, backgroundCutoff).Keys <= MidPass(t, n, states, backgroundCutoff).Keys
  {
    TakeTake(states, n);
    RowsOnlyLeave(MidPass(t, n, states, backgroundCutoff), states[n], states, backgroundCutoff);
  }

  /** What the pass has made of the row so far, from the row its record met. */
  ghost predicate Reached(t: Table, n: nat, states: seq<PaseoState>, backgroundCutoff: Option<Instant>, i: nat, k: Id,
                          m: Row)
    requires WellFormed(t) && i < n <= |states|
  {
    var u := MidPass(t, n, states, backgroundCutoff);
    k in u && RecordTurns(m, u[k], states[i], backgroundCutoff) && StampedOrigin(u[k], states[i])
  }

  /**
   * A pass and a root it names once: the record meets the row as it was,
   * unless an earlier record of the row's former agent has rested it, and what
   * the record makes of it stands.
   */
  lemma {:induction false} PassReaches(t: Table, n: nat, states: seq<PaseoState>, backgroundCutoff: Option<Instant>,
                                       i: nat, k: Id)
    returns (m: Row)
    requires WellFormed(t) && IsRoot(t, k) && NamedOnce(states, i, k) && states[i].archivedAt.None?
    requires i < n <= |states| && k in MidPass(t, n, states, backgroundCutoff)
    ensures Waited(t[k], m) && (!Claimed(t[k], states[..i]) ==> m == t[k])
    ensures Reached(t, n, states, backgroundCutoff, i, k, m)
    decreases n
  {
    MidPassStep(t, n - 1, states, backgroundCutoff);
    if n == i + 1 {
      m := RecordMeets(t, states, backgroundCutoff, i, k);
    } else {
      m := PassReaches(t, n - 1, states, backgroundCutoff, i, k);
      ReachedStays(t, n - 1, states, backgroundCutoff, i, k, m);
    }
  }

  lemma RecordMeets(t: Table, states: seq<PaseoState>, backgroundCutoff: Option<Instant>, i: nat, k: Id)
    returns (m: Row)
    requires WellFormed(t) && IsRoot(t, k) && NamedOnce(states, i, k) && states[i].archivedAt.None?
    requires k in MidPass(t, i, states, backgroundCutoff)
    ensures Waited(t[k], m) && (!Claimed(t[k], states[..i]) ==> m == t[k])
    ensures Reached(t, i + 1, states, backgroundCutoff, i, k, m)
  {
    var v := MidPass(t, i, states, backgroundCutoff);
    PassBefore(t, states[..i], states, backgroundCutoff, k);
    m := v[k];
    MidPassStep(t, i, states, backgroundCutoff);
    RecordReaches(v, states[i], states, backgroundCutoff);
  }

  /** Once stamped, the row is nobody else's to rest. */
  lemma ReachedStays(t: Table, n: nat, states: seq<PaseoState>, backgroundCutoff: Option<Instant>, i: nat, k: Id,
                     m: Row)
    requires WellFormed(t) && NamedOnce(states, i, k) && i < n < |states|
    requires Reached(t, n, states, backgroundCutoff, i, k, m) && k in MidPass(t, n + 1, states, backgroundCutoff)
    ensures Reached(t, n + 1, states, backgroundCutoff, i, k, m)
  {
    var v := MidPass(t, n, states, backgroundCutoff);
    MidPassStep(t, n, states, backgroundCutoff);
    RecordMisses(v, states[n], states, backgroundCutoff, k);
    NotAbandoned(k, v[k], states, i, n);
  }

  lemma NotAbandoned(k: Id, row: Row, states: seq<PaseoState>, i: nat, n: nat)
    requires NamedOnce(states, i, k) && i < n < |states| && StampedOrigin(row, states[i])
    ensures forall b :: RecordPasses(k, row, b, states[n], states) ==> b == row
  {
    assert states[i].agentId == states[n].agentId ==> states[i].id != states[n].id;
  }

  // ----- where a result shows -----

  /**
   * An unread root is on exactly one card: the card is at least as new, and
   * counts the root among its pending results unless it is the root's own.
   */
  ghost predicate OnOneCard(t: Table, p: Projected, d: Id, i: nat)
    requires TopologyOk(t) && d in t && t[d].unread.Some?
  {
    && i < |p.sessions|
    && p.sessions[i].facts.unreadSince.Some? && p.sessions[i].facts.unreadSince.value >= t[d].unread.value
    && Nearest(PaseoLinks(t), Cards(p), d, p.sessions[i].id)
    && (forall j :: 0 <= j < |p.sessions| && Nearest(PaseoLinks(t), Cards(p), d, p.sessions[j].id) ==>
          p.sessions[j].id == p.sessions[i].id)
    && (p.sessions[i].id != d ==> p.sessions[i].facts.pendingResults > 0)
  }

  lemma UnreadOnOneCard(t: Table, order: seq<Id>, d: Id) returns (i: nat)
    requires TopologyOk(t) && IsRootOrder(t, order) && IsRoot(t, d) && t[d].unread.Some?
    ensures OnOneCard(t, ProjectionOf(t, order), d, i)
  {
    var p := ProjectionOf(t, order);
    i := ResultOnOneCard(t, order, d);
    StampsPublished(t, order);
    CardCounts(t, Cards(p), p.sessions[i].id, p.sessions[i].facts, d);
    forall j | 0 <= j < |p.sessions| && Nearest(PaseoLinks(t), Cards(p), d, p.sessions[j].id)
      ensures p.sessions[j].id == p.sessions[i].id
    {
      assert d in ShownOn(t, Cards(p), p.sessions[j].id);
    }
  }

  lemma CardCounts(t: Table, cards: set<Id>, c: Id, f: CardFacts, d: Id)
    requires d in ShownOn(t, cards, c) && t[d].unread.Some? && ShowsFor(t, cards, c, f)
    ensures f.unreadSince.Some? && f.unreadSince.value >= t[d].unread.value
    ensures c != d ==> f.pendingResults > 0
  {
    var shown := ShownOn(t, cards, c);
    assert t[d].unread in set e | e in shown :: t[e].unread;
    if c != d {
      var pending := set e | e in shown && e != c && t[e].unread.Some?;
      assert d in pending && f.pendingResults == |pending|;
    }
  }

  /** A turn that ends leaves its result on exactly one card. */
  lemma TurnEndShows(t: Table, k: Id, kind: StatusKind, at: Instant, order: seq<Id>) returns (i: nat)
    requires WellFormed(t) && IsRoot(t, k) && (kind == StopFailure || (kind == Stop && !t[k].background))
    requires IsRootOrder(AfterEvent(t, StatusEvent(k, kind, at)).0, order)
    ensures var u := AfterEvent(t, StatusEvent(k, kind, at)).0;
            TopologyOk(u) && k in u && u[k].unread == Some(at) && OnOneCard(u, ProjectionOf(u, order), k, i)
  {
    EventKeeps(t, StatusEvent(k, kind, at));
    StatusHook(t, k, kind, at);
    i := UnreadOnOneCard(AfterEvent(t, StatusEvent(k, kind, at)).0, order, k);
  }

  /** A missed turn end or a flag that is news, found by a pass, ends up on exactly one card. */
  lemma PassShows(t: Table, states: seq<PaseoState>, backgroundCutoff: Option<Instant>, i: nat, k: Id, order: seq<Id>)
    returns (c: nat)
    requires WellFormed(t) && IsRoot(t, k) && NamedOnce(states, i, k) && states[i].archivedAt.None?
    requires !Claimed(t[k], states[..i]) && k in AfterPaseoStates(t, states, states, backgroundCutoff)
    requires FlagDue(t[k], states[i]) || (TurnEndDue(t[k], states[i], backgroundCutoff)
               && After(states[i].updatedAt.value, t[k].acked)
               && After(states[i].updatedAt.value, t[k].unread) && After(states[i].updatedAt.value, t[k].done))
    requires IsRootOrder(AfterPaseoStates(t, states, states, backgroundCutoff), order)
    ensures var u := AfterPaseoStates(t, states, states, backgroundCutoff);
            TopologyOk(u) && u[k].unread.Some? && OnOneCard(u, ProjectionOf(u, order), k, c)
  {
    TakeAll(states);
    assert MidPass(t, |states|, states, backgroundCutoff) == AfterPaseoStates(t, states, states, backgroundCutoff);
    var m := PassReaches(t, |states|, states, backgroundCutoff, i, k);
    var u := AfterPaseoStates(t, states, states, backgroundCutoff);
    c := UnreadOnOneCard(u, order, k);
  }
}
