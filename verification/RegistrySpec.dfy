/**
 * What each registry mutation does to the table, as functions. Every SQL
 * UPDATE reads the old row on its right-hand sides.
 */
module RegistrySpec {
  import opened Common
  import opened Forest
  import opened Lineage
  import opened Schema

  // ----- hook events -----

  datatype Origin = Origin(kind: OriginKind, ref: string)

  datatype StatusKind = Activity | Attention | Stop | StopFailure | BackgroundWorkStarted | BackgroundWorkCleared

  datatype Event =
    | SessionStart(id: Id, title: Option<string>, project: Option<string>, ghosttyTerminalId: Option<string>,
                   transcriptPath: Option<string>, model: Option<string>, origin: Option<Origin>, at: Instant)
    | SessionObserved(id: Id, title: Option<string>, project: Option<string>,
                      transcriptPath: Option<string>, model: Option<string>, origin: Option<Origin>, at: Instant)
    | SessionTitleChanged(id: Id, newTitle: string, at: Instant)
    | SessionModelChanged(id: Id, newModel: string, at: Instant)
    | SessionStatusObserved(id: Id, status: Status, at: Instant)
    | StatusEvent(id: Id, kind: StatusKind, at: Instant)
    | SessionEnd(id: Id, at: Instant)
    | SubagentStart(id: Id, parentSession: string, title: Option<string>, project: Option<string>,
                    model: Option<string>, at: Instant)
    | SubagentStop(id: Id, at: Instant)

  datatype MutationResult = Applied | Ignored

  function Coalesce<T>(a: Option<T>, b: Option<T>): Option<T> {
    if a.Some? then a else b
  }

  /** `status_since` restamps only when the status value changes. */
  function Restamp(row: Row, status: Status, at: Instant): Option<Instant> {
    if row.status != status then Some(at) else row.statusSince
  }

  /** Fresh origin evidence replaces the stored one and drops the subagent routing with it. */
  function WithOrigin(row: Row, origin: Option<Origin>): Row {
    match origin
    case None => row
    case Some(o) =>
      row.(originKind := Some(o.kind), originRef := Some(o.ref), originSubagent := false, originParentRef := None)
  }

  function ReusedRow(row: Row, e: Event): Row
    requires e.SessionStart?
  {
    WithOrigin(row, e.origin).(
      status := Idle,
      title := if row.originKind == Some(Paseo) then row.title else e.title,
      project := e.project,
      ghosttyTerminalId := if e.id.provider == Claude then e.ghosttyTerminalId else None,
      transcriptPath := e.transcriptPath,
      background := false, unread := None, done := None, ended := None, viewed := None,
      statusSince := Restamp(row, Idle, e.at),
      updatedAt := e.at, model := Coalesce(e.model, row.model))
  }

  function NewRootRow(e: Event, slot: int): Row
    requires e.SessionStart?
  {
    Row(None, Idle, e.title, e.project, Some(slot),
        if e.id.provider == Claude then e.ghosttyTerminalId else None,
        false, e.transcriptPath, e.model,
        if e.origin.Some? then Some(e.origin.value.kind) else None,
        if e.origin.Some? then Some(e.origin.value.ref) else None,
        false, None, None, None, None, None, None, Some(e.at), None, e.at, e.at)
  }

  /** The least positive slot no row holds. */
  ghost predicate LeastFreeSlot(t: Table, slot: int) {
    && slot >= 1
    && !SlotTaken(t, slot)
    && (forall s :: 1 <= s < slot ==> SlotTaken(t, s))
  }

  ghost predicate SlotTaken(t: Table, s: int) {
    exists k :: k in t && t[k].slot == Some(s)
  }

  lemma {:induction false} SlotsBounded(t: Table) returns (bound: int)
    ensures bound >= 1 && forall k :: k in t && t[k].slot.Some? ==> t[k].slot.value < bound
    decreases |t|
  {
    if t == map[] {
      bound := 1;
    } else {
      var k :| k in t;
      var rest := t - {k};
      assert t.Keys == rest.Keys + {k};
      bound := SlotsBounded(rest);
      if t[k].slot.Some? && t[k].slot.value >= bound {
        bound := t[k].slot.value + 1;
      }
    }
  }

  lemma {:induction false} LeastFreeBelow(t: Table, bound: int) returns (slot: int)
    requires bound >= 1 && !SlotTaken(t, bound)
    ensures LeastFreeSlot(t, slot)
    decreases bound
  {
    if s :| 1 <= s < bound && !SlotTaken(t, s) {
      slot := LeastFreeBelow(t, s);
    } else {
      slot := bound;
    }
  }

  ghost function FreeSlot(t: Table): (slot: int)
    ensures LeastFreeSlot(t, slot)
    ensures forall s :: LeastFreeSlot(t, s) ==> s == slot
  {
    assert exists slot :: LeastFreeSlot(t, slot) by {
      var bound := SlotsBounded(t);
      var slot := LeastFreeBelow(t, bound);
    }
    var slot :| LeastFreeSlot(t, slot);
    slot
  }

  /** A start either reuses a root, is refused for a child, or takes the least free slot. */
  ghost function AfterSessionStart(t: Table, e: Event): Table
    requires e.SessionStart?
  {
    if e.id in t then
      if t[e.id].parent.Some? then t else t[e.id := ReusedRow(t[e.id], e)]
    else t[e.id := NewRootRow(e, FreeSlot(t))]
  }

  predicate ObservedRefreshes(row: Row, e: Event)
    requires e.SessionObserved?
  {
    || (e.origin.Some? && (row.originKind != Some(e.origin.value.kind) || row.originRef != Some(e.origin.value.ref)
                           || row.originSubagent || row.originParentRef.Some?))
    || (e.model.Some? && row.model != e.model)
    || (e.transcriptPath.Some? && row.transcriptPath != e.transcriptPath)
  }

  function ObservedRow(row: Row, e: Event): Row
    requires e.SessionObserved?
  {
    WithOrigin(row, e.origin).(
      transcriptPath := Coalesce(e.transcriptPath, row.transcriptPath), model := Coalesce(e.model, row.model))
  }

  function LateStart(e: Event): Event
    requires e.SessionObserved?
  {
    SessionStart(e.id, e.title, e.project, None, e.transcriptPath, e.model, e.origin, e.at)
  }

  function StatusRow(row: Row, status: Status, at: Instant): Row {
    row.(status := status, statusSince := Restamp(row, status, at), updatedAt := at)
  }

  function StopRow(row: Row, at: Instant): Row {
    if row.background then StatusRow(row, Working, at)
    else StatusRow(row, Idle, at).(unread := Some(at), done := Some(at), viewed := None)
  }

  function StatusEventRow(row: Row, kind: StatusKind, at: Instant): Row {
    match kind
    case Activity => StatusRow(row, Working, at)
    case Attention => StatusRow(row, Waiting, at)
    case Stop => StopRow(row, at)
    case StopFailure => StatusRow(row, Error, at).(unread := Some(at), viewed := None)
    case BackgroundWorkStarted => row.(background := true, updatedAt := at)
    case BackgroundWorkCleared => row.(background := false, updatedAt := at)
  }

  /** Accept a parent that exists under the child's provider and is not the child or below it. */
  predicate ValidProspectiveParent(t: Table, child: Id, parentSession: string)
    requires IsForest(NativeLinks(t))
  {
    var p := Id(child.provider, parentSession);
    p in t && !Below(NativeLinks(t), p, child)
  }

  function ReparentedRow(row: Row, e: Event): Row
    requires e.SubagentStart?
  {
    row.(parent := Some(e.parentSession), status := Idle, title := e.title, project := e.project,
         model := Coalesce(e.model, row.model), statusSince := Restamp(row, Idle, e.at), updatedAt := e.at)
  }

  function NewChildRow(e: Event): Row
    requires e.SubagentStart?
  {
    Row(Some(e.parentSession), Idle, e.title, e.project, None, None, false, None, e.model,
        None, None, false, None, None, None, None, None, None, Some(e.at), None, e.at, e.at)
  }

  function AfterSubagentStart(t: Table, e: Event): (Table, MutationResult)
    requires e.SubagentStart? && IsForest(NativeLinks(t))
  {
    if !ValidProspectiveParent(t, e.id, e.parentSession) then (t, Ignored)
    else if e.id in t then
      if t[e.id].parent.None? then (t, Ignored) else (t[e.id := ReparentedRow(t[e.id], e)], Applied)
    else (t[e.id := NewChildRow(e)], Applied)
  }

  predicate IsBoundedModel(model: string) {
    0 < |model| <= 256
  }

  /** One normalized hook event. */
  ghost function AfterEvent(t: Table, e: Event): (Table, MutationResult)
    requires IsForest(NativeLinks(t))
  {
    var known := e.id in t;
    match e
    case SessionStart(id, _, _, _, _, _, _, _) =>
      (AfterSessionStart(t, e), if known && t[id].parent.Some? then Ignored else Applied)
    case SessionObserved(id, _, _, _, _, _, _) =>
      if !known then (AfterSessionStart(t, LateStart(e)), Applied)
      else if ObservedRefreshes(t[id], e) then (t[id := ObservedRow(t[id], e)], Applied)
      else (t, Ignored)
    case SessionTitleChanged(id, title, _) =>
      if known && t[id].title != Some(title) && t[id].originKind != Some(Paseo)
      then (t[id := t[id].(title := Some(title))], Applied) else (t, Ignored)
    case SessionModelChanged(id, model, _) =>
      if IsBoundedModel(model) && known && t[id].model != Some(model)
      then (t[id := t[id].(model := Some(model))], Applied) else (t, Ignored)
    case SessionStatusObserved(id, status, at) =>
      if known && t[id].status != status
      then (t[id := t[id].(status := status, statusSince := Some(at), updatedAt := at)], Applied) else (t, Ignored)
    case StatusEvent(id, kind, at) =>
      if known then (t[id := StatusEventRow(t[id], kind, at)], Applied) else (t, Ignored)
    case SessionEnd(id, _) =>
      if IsRoot(t, id) then (WithoutLineage(t, id, map[]), Applied) else (t, Ignored)
    case SubagentStart(_, _, _, _, _, _) => AfterSubagentStart(t, e)
    case SubagentStop(id, _) =>
      if known && t[id].parent.Some? then (Delete(t, id), Applied) else (t, Ignored)
  }

  // ----- Paseo subtrees -----

  /** Facts the current Paseo snapshot reports for an identity, overriding the stored ones. */
  type Hints = map<Id, Facts>

  /** The rows a subtree walk resolves: hinted roots by their hint, other Paseo roots by their stored facts. */
  ghost function HintedFacts(t: Table, hints: Hints): map<Id, Facts> {
    map k | k in t && IsRoot(t, k) && (k in hints || t[k].originKind == Some(Paseo)) ::
      if k in hints then hints[k] else PaseoFacts(t[k])
  }

  ghost function HintedLinks(t: Table, hints: Hints): (links: map<Id, Id>)
    ensures IsForest(links)
  {
    ResolvedLinks(HintedFacts(t, hints))
  }

  /** Roots of another origin never link, so the registry may leave them out of the resolution. */
  lemma PaseoRowsSuffice(t: Table)
    ensures ResolvedLinks(HintedFacts(t, map[])) == PaseoLinks(t)
  {
    IgnoredRoots(RootFacts(t), HintedFacts(t, map[]));
  }

  /** The seed and everything resolved below it. */
  ghost function PaseoSubtree(t: Table, k: Id, hints: Hints): set<Id> {
    Subtree(HintedLinks(t, hints), k)
  }

  /** The table without a Paseo subtree and the native descendants of its members. */
  ghost function WithoutLineage(t: Table, k: Id, hints: Hints): Table
    requires IsForest(NativeLinks(t))
  {
    DeleteAll(t, PaseoSubtree(t, k, hints))
  }

  // ----- gestures -----

  /** None is an unconditional operator gesture; Some(w) carries the unread stamp its snapshot showed. */
  type Watermark = Option<Option<Instant>>

  /** A row is consumable unless it holds a result newer than the gesture's snapshot showed. */
  predicate Consumable(row: Row, watermark: Watermark) {
    || watermark.None?
    || row.unread.None?
    || (watermark.value.Some? && row.unread.value <= watermark.value.value)
  }

  predicate ViewReaches(row: Row, isTarget: bool, watermark: Watermark) {
    (isTarget || row.done.Some? || row.unread.Some?) && Consumable(row, watermark)
  }

  function ViewedRow(row: Row, at: Instant): Row {
    row.(unread := None, viewed := Some(at), acked := if row.unread.Some? then Some(at) else row.acked)
  }

  ghost function ViewAmong(t: Table, ids: set<Id>, k: Id, at: Instant, watermark: Watermark): Table {
    map j | j in t :: if j in ids && ViewReaches(t[j], j == k, watermark) then ViewedRow(t[j], at) else t[j]
  }

  ghost function AfterView(t: Table, k: Id, at: Instant, watermark: Watermark): Table {
    ViewAmong(t, PaseoSubtree(t, k, map[]), k, at, watermark)
  }

  predicate AckReaches(row: Row, watermark: Watermark) {
    (row.unread.Some? || row.done.Some? || row.status == Error) && Consumable(row, watermark)
  }

  /** Retire an error to idle and disarm its background flag; other rows keep their status. */
  function RetireError(row: Row, at: Instant): Row {
    if row.status == Error then row.(status := Idle, statusSince := Some(at), background := false) else row
  }

  function AckedRow(row: Row, at: Instant): Row {
    RetireError(row, at).(unread := None, done := None, viewed := None, acked := Some(at))
  }

  ghost function AckAmong(t: Table, ids: set<Id>, at: Instant, watermark: Watermark): Table {
    map j | j in t :: if j in ids && AckReaches(t[j], watermark) then AckedRow(t[j], at) else t[j]
  }

  ghost function AfterAck(t: Table, k: Id, at: Instant, watermark: Watermark): Table {
    AckAmong(t, PaseoSubtree(t, k, map[]), at, watermark)
  }

  // ----- maintenance -----

  predicate Expired(row: Row, cutoff: Instant) {
    && row.viewed.Some? && row.viewed.value <= cutoff
    && row.unread.None?
    && (row.status == Idle || row.status == Error)
    && (row.done.Some? || row.status == Error)
  }

  function SweptRow(row: Row, at: Instant): Row {
    RetireError(row, at).(done := None, unread := None, viewed := None)
  }

  function AfterSweep(t: Table, cutoff: Instant, at: Instant): Table {
    map k | k in t :: if Expired(t[k], cutoff) then SweptRow(t[k], at) else t[k]
  }

  datatype FactUpdate =
    | TitleUpdate(id: Id, title: string)
    | ModelUpdate(id: Id, model: string)
    | ActivityLineUpdate(id: Id, activityLine: string)

  function AfterFact(t: Table, u: FactUpdate): Table {
    if u.id !in t then t
    else
      var row := t[u.id];
      match u
      case TitleUpdate(id, title) => if row.originKind == Some(Paseo) then t else t[id := row.(title := Some(title))]
      case ModelUpdate(id, model) => t[id := row.(model := Some(model))]
      case ActivityLineUpdate(id, line) => t[id := row.(activityLine := Some(line))]
  }

  ghost function AfterFacts(t: Table, us: seq<FactUpdate>): Table {
    if us == [] then t else AfterFact(AfterFacts(t, us[..|us| - 1]), us[|us| - 1])
  }

  /** Native and resolved Paseo edges, both ways. */
  ghost predicate Adjacent(t: Table, a: Id, b: Id) {
    var n, p := NativeLinks(t), PaseoLinks(t);
    (a in n && n[a] == b) || (b in n && n[b] == a) || (a in p && p[a] == b) || (b in p && p[b] == a)
  }

  ghost predicate IsWalk(t: Table, path: seq<Id>) {
    forall i :: 0 <= i < |path| - 1 ==> Adjacent(t, path[i], path[i + 1])
  }

  ghost predicate Connected(t: Table, a: Id, b: Id) {
    exists path: seq<Id> :: path != [] && path[0] == a && path[|path| - 1] == b && IsWalk(t, path)
  }

  /** Inside its lease, unviewed, or running a live view clock. */
  predicate KeepsAlive(k: Id, row: Row, cutoff: Instant, zcodeCutoff: Instant) {
    || (if k.provider == Zcode then row.updatedAt >= zcodeCutoff else row.updatedAt >= cutoff)
    || row.unread.Some?
    || (row.viewed.Some? && (row.done.Some? || row.status == Error))
  }

  ghost predicate KeptAlive(t: Table, k: Id, cutoff: Instant, zcodeCutoff: Instant) {
    exists s :: s in t && KeepsAlive(s, t[s], cutoff, zcodeCutoff) && Connected(t, s, k)
  }

  /** The roots a prune deletes: legacy ended rows, and roots of components nothing keeps alive. */
  ghost function StaleRoots(t: Table, cutoff: Instant, zcodeCutoff: Instant): set<Id> {
    set k | k in t && IsRoot(t, k) && (t[k].ended.Some? || !KeptAlive(t, k, cutoff, zcodeCutoff))
  }

  ghost function AfterPrune(t: Table, cutoff: Instant, zcodeCutoff: Instant): Table
    requires IsForest(NativeLinks(t))
  {
    DeleteAll(t, StaleRoots(t, cutoff, zcodeCutoff))
  }

  lemma SelfConnected(t: Table, k: Id)
    ensures Connected(t, k, k)
  {
    assert IsWalk(t, [k]) && [k][0] == k;
  }

  lemma StillAlive(t: Table, a: Id, b: Id, cutoff: Instant, zcodeCutoff: Instant)
    requires WellFormed(t)
    requires KeptAlive(t, a, cutoff, zcodeCutoff) && Adjacent(t, a, b)
    ensures b in t && KeptAlive(t, b, cutoff, zcodeCutoff)
  {
    var s :| s in t && KeepsAlive(s, t[s], cutoff, zcodeCutoff) && Connected(t, s, a);
    ConnectedNext(t, s, a, b);
  }

  lemma ConnectedNext(t: Table, s: Id, a: Id, b: Id)
    requires Connected(t, s, a) && Adjacent(t, a, b)
    ensures Connected(t, s, b)
  {
    var path: seq<Id> :| path != [] && path[0] == s && path[|path| - 1] == a && IsWalk(t, path);
    var longer := path + [b];
    assert IsWalk(t, longer);
    assert longer[0] == s && longer[|longer| - 1] == b;
  }

  // ----- the Paseo overlay -----

  datatype PaseoStatus = PaseoIdle | PaseoClosed | PaseoOther

  datatype PaseoState = PaseoState(
    id: Id, agentId: string, requiresAttention: bool, isSubagent: bool, parentAgentId: Option<string>,
    attentionTimestamp: Option<Instant>, updatedAt: Option<Instant>, archivedAt: Option<Instant>,
    title: Option<string>, lastStatus: Option<PaseoStatus>)

  function StateFacts(s: PaseoState): Facts {
    Facts(Some(s.agentId), s.isSubagent, s.parentAgentId)
  }

  /** Later records of an identity override earlier ones. */
  function HintsOf(states: seq<PaseoState>): Hints {
    if states == [] then map[]
    else HintsOf(states[..|states| - 1])[states[|states| - 1].id := StateFacts(states[|states| - 1])]
  }

  function OriginStamped(row: Row, s: PaseoState): Row {
    row.(originKind := Some(Paseo), originRef := Some(s.agentId),
         originSubagent := s.isSubagent, originParentRef := s.parentAgentId)
  }

  predicate Postdates(stamp: Option<Instant>, mark: Option<Instant>) {
    stamp.Some? && (mark.None? || stamp.value > mark.value)
  }

  /** A flag lands when it is dated, postdates the last acknowledgement, and no unread stamp stands. */
  function FlaggedRow(row: Row, s: PaseoState): Row {
    var flagTime := Coalesce(s.attentionTimestamp, s.updatedAt);
    var dated := Postdates(flagTime, row.acked);
    var lands := dated && row.unread.None?;
    OriginStamped(row, s).(
      unread := if dated then Coalesce(row.unread, flagTime) else row.unread,
      done := if lands then Coalesce(row.done, flagTime) else row.done,
      viewed := if lands then None else row.viewed)
  }

  predicate OriginDiffers(row: Row, s: PaseoState) {
    || row.originKind != Some(Paseo) || row.originRef != Some(s.agentId)
    || row.originSubagent != s.isSubagent || row.originParentRef != s.parentAgentId
  }

  predicate FlagLands(row: Row, s: PaseoState) {
    Postdates(Coalesce(s.attentionTimestamp, s.updatedAt), row.acked) && row.unread.None?
  }

  predicate IsSettled(s: PaseoState) {
    (s.lastStatus == Some(PaseoIdle) || s.lastStatus == Some(PaseoClosed)) && s.updatedAt.Some?
  }

  predicate SettleReaches(row: Row, at: Instant, backgroundCutoff: Option<Instant>) {
    && row.parent.None? && (row.status == Working || row.status == Waiting)
    && at > row.updatedAt
    && (!row.background || (backgroundCutoff.Some? && row.updatedAt < backgroundCutoff.value))
  }

  function SettledRow(row: Row, at: Instant): Row {
    var lands := Postdates(Some(at), row.acked) && Postdates(Some(at), row.unread) && Postdates(Some(at), row.done);
    row.(status := Idle, statusSince := Some(at), background := false,
         done := if lands then Some(at) else row.done,
         unread := if lands then Some(at) else row.unread,
         viewed := if lands then None else row.viewed)
  }

  /** A row left behind by provider-session rotation still carries the agent's ref. */
  predicate IsAbandoned(k: Id, row: Row, s: PaseoState) {
    row.originKind == Some(Paseo) && row.originRef == Some(s.agentId) && row.parent.None? && k != s.id
  }

  function AbandonedRow(row: Row, s: PaseoState): Row {
    row.(originKind := None, originRef := None, originSubagent := false, originParentRef := None,
         status := Idle, background := false,
         statusSince := if row.status != Idle && s.updatedAt.Some? then s.updatedAt else row.statusSince)
  }

  function TitleSynced(t: Table, s: PaseoState): Table {
    if s.title.Some? && s.id in t && t[s.id].title != s.title then t[s.id := t[s.id].(title := s.title)] else t
  }

  function AttentionSynced(t: Table, s: PaseoState): Table {
    if !IsRoot(t, s.id) then t
    else if s.requiresAttention then
      if OriginDiffers(t[s.id], s) || FlagLands(t[s.id], s) then t[s.id := FlaggedRow(t[s.id], s)] else t
    else if OriginDiffers(t[s.id], s) then t[s.id := OriginStamped(t[s.id], s)] else t
  }

  function SettleSynced(t: Table, s: PaseoState, backgroundCutoff: Option<Instant>): Table {
    if IsSettled(s) && s.id in t && SettleReaches(t[s.id], s.updatedAt.value, backgroundCutoff)
    then t[s.id := SettledRow(t[s.id], s.updatedAt.value)] else t
  }

  function RotationSynced(t: Table, s: PaseoState): Table {
    map k | k in t :: if IsAbandoned(k, t[k], s) then AbandonedRow(t[k], s) else t[k]
  }

  /** Every record of the pass that names this agent names the same provider session. */
  predicate JoinedOnce(states: seq<PaseoState>, s: PaseoState) {
    forall i :: 0 <= i < |states| && states[i].agentId == s.agentId ==> states[i].id == s.id
  }

  /** One record of a pass over `states`. */
  ghost function AfterPaseoState(t: Table, s: PaseoState, states: seq<PaseoState>,
                                 backgroundCutoff: Option<Instant>): Table
    requires IsForest(NativeLinks(t))
  {
    if s.archivedAt.Some? then WithoutLineage(t, s.id, HintsOf(states))
    else
      var settled := SettleSynced(AttentionSynced(TitleSynced(t, s), s), s, backgroundCutoff);
      if JoinedOnce(states, s) then RotationSynced(settled, s) else settled
  }

  // ----- Codex rollouts -----

  datatype TurnStatus = TurnWorking | TurnStopped

  datatype Turn = Turn(id: string, startedAt: Instant, observedAt: Instant, status: TurnStatus)

  datatype CodexChild = CodexChild(
    session: string, parentSession: string, title: Option<string>, model: Option<string>,
    transcriptPath: string, turn: Option<Turn>)

  datatype StoppedTurn = StoppedTurn(session: string, observedAt: Instant)

  function CodexId(session: string): Id {
    Id(Codex, session)
  }

  function CodexStart(c: CodexChild, project: Option<string>, at: Instant): Event {
    SubagentStart(CodexId(c.session), c.parentSession, c.title, project, c.model, at)
  }

  /** The table once a working turn of an unknown child has registered it; None when the child is skipped. */
  function CodexAdmitted(t: Table, c: CodexChild): (u: Option<Table>)
    requires IsForest(NativeLinks(t))
    ensures u.Some? ==> CodexId(c.session) in u.value
  {
    var p, k := CodexId(c.parentSession), CodexId(c.session);
    if p !in t then None
    else if k in t then (if t[k].parent == Some(c.parentSession) then Some(t) else None)
    else if c.turn.None? || c.turn.value.status != TurnWorking || c.turn.value.startedAt < t[p].openedAt then None
    else
      var (u, result) := AfterSubagentStart(t, CodexStart(c, t[p].project, c.turn.value.startedAt));
      if result == Applied then Some(u) else None
  }

  function CodexFactsRow(row: Row, c: CodexChild): Row {
    row.(title := Coalesce(c.title, row.title), model := Coalesce(c.model, row.model),
         transcriptPath := Some(c.transcriptPath))
  }

  predicate CodexFactsDiffer(row: Row, c: CodexChild) {
    || (c.title.Some? && row.title != c.title)
    || (c.model.Some? && row.model != c.model)
    || row.transcriptPath != Some(c.transcriptPath)
  }

  /** A recorded stop at least as new as the row's last hook. */
  predicate CodexStops(t: Table, c: CodexChild) {
    var k := CodexId(c.session);
    c.turn.Some? && c.turn.value.status == TurnStopped && k in t && t[k].updatedAt <= c.turn.value.observedAt
  }

  predicate CodexWorks(t: Table, c: CodexChild) {
    var k := CodexId(c.session);
    && c.turn.Some? && c.turn.value.status == TurnWorking
    && (k in t ==>
          t[k].updatedAt <= c.turn.value.observedAt || (t[k].status == Idle && t[k].updatedAt == t[k].openedAt))
  }

  function CodexTurnRow(row: Row, stops: bool, works: bool, turn: Option<Turn>): Row {
    if turn.None? then row
    else
      var o := turn.value.observedAt;
      if stops then
        if row.status != Idle || row.updatedAt < o
        then row.(status := Idle, statusSince := Restamp(row, Idle, o), updatedAt := o) else row
      else if works then
        if row.status != Working || row.updatedAt < o
        then row.(status := Working, statusSince := Restamp(row, Working, turn.value.startedAt),
                  updatedAt := if row.updatedAt < o then o else row.updatedAt) else row
      else row
  }

  /** One recorded child: admission, facts, then the turn, judged against the row as it was. */
  function AfterCodexChild(t: Table, c: CodexChild): Table
    requires IsForest(NativeLinks(t))
  {
    match CodexAdmitted(t, c)
    case None => t
    case Some(u) =>
      var k := CodexId(c.session);
      var row := if CodexFactsDiffer(u[k], c) then CodexFactsRow(u[k], c) else u[k];
      u[k := CodexTurnRow(row, CodexStops(t, c), CodexWorks(t, c), c.turn)]
  }

  /** The stop this child confirms, if any. */
  function CodexConfirms(t: Table, c: CodexChild): seq<StoppedTurn>
    requires IsForest(NativeLinks(t))
  {
    if CodexAdmitted(t, c).Some? && CodexStops(t, c)
    then [StoppedTurn(c.session, c.turn.value.observedAt)] else []
  }

  /** A Codex row whose stop was recorded and which no later hook has touched. */
  ghost predicate ConfirmedStopped(t: Table, stopped: seq<StoppedTurn>, k: Id) {
    && k in t && k.provider == Codex
    && exists i :: 0 <= i < |stopped| && stopped[i].session == k.session && t[k].updatedAt <= stopped[i].observedAt
  }

  /** Confirmed stopped, with every native descendant confirmed stopped too. */
  ghost predicate WholeSubtreeStopped(t: Table, stopped: seq<StoppedTurn>, k: Id)
    requires IsForest(NativeLinks(t))
  {
    k in t && forall j :: j in t && Below(NativeLinks(t), j, k) ==> ConfirmedStopped(t, stopped, j)
  }

  ghost function WithoutStopped(t: Table, stopped: seq<StoppedTurn>): Table
    requires IsForest(NativeLinks(t))
  {
    map k | k in t && !WholeSubtreeStopped(t, stopped, k) :: t[k]
  }
}
