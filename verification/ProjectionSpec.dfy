/** What the projection publishes, as declarative functions of the table. */
module ProjectionSpec {
  import opened Common
  import opened Forest
  import opened Walks
  import opened Sorting
  import opened Preorder
  import opened Schema

  // ----- native topology -----

  datatype Entry = Entry(id: Id, row: Row)

  datatype ProjectionError =
    | CorruptRow | DuplicateIdentity | MissingParent | CrossProviderParent | ChildWithSlot
    | ChildWithTerminalBinding | NonClaudeTerminalBinding | TopLevelWithoutPositiveSlot | Cycle | TraversalBoundExceeded

  ghost predicate DistinctEntries(rows: seq<Entry>) {
    forall i, j :: 0 <= i < j < |rows| ==> rows[i].id != rows[j].id
  }

  ghost predicate HasEntry(rows: seq<Entry>, k: Id) {
    exists i :: 0 <= i < |rows| && rows[i].id == k
  }

  predicate NamedByAnotherProvider(rows: seq<Entry>, k: Id) {
    exists i :: 0 <= i < |rows| && rows[i].id.provider != k.provider && rows[i].id.session == k.session
  }

  /** What is wrong with one row, in the order the projection looks. */
  ghost function RowError(rows: seq<Entry>, k: Id, row: Row): Option<ProjectionError> {
    if row.parent.None? then
      if row.ghosttyTerminalId.Some? && k.provider != Claude then Some(NonClaudeTerminalBinding)
      else if row.slot.None? || row.slot.value < 1 then Some(TopLevelWithoutPositiveSlot)
      else None
    else if row.ghosttyTerminalId.Some? then Some(ChildWithTerminalBinding)
    else if row.slot.Some? then Some(ChildWithSlot)
    else if HasEntry(rows, ParentId(k, row)) then None
    else if NamedByAnotherProvider(rows, ParentId(k, row)) then Some(CrossProviderParent)
    else Some(MissingParent)
  }

  /** `e` is the verdict on the first offending row. */
  ghost predicate FirstRowError(rows: seq<Entry>, e: ProjectionError) {
    exists i :: 0 <= i < |rows| && RowError(rows, rows[i].id, rows[i].row) == Some(e)
                && forall j :: 0 <= j < i ==> RowError(rows, rows[j].id, rows[j].row).None?
  }

  ghost predicate RowsOk(rows: seq<Entry>) {
    forall i :: 0 <= i < |rows| ==> RowError(rows, rows[i].id, rows[i].row).None?
  }

  function TableOf(rows: seq<Entry>): Table {
    if rows == [] then map[]
    else TableOf(rows[..|rows| - 1])[rows[|rows| - 1].id := rows[|rows| - 1].row]
  }

  /** The error the rows deserve, if any: identities, then rows, then cycles. */
  ghost predicate Rejected(rows: seq<Entry>, e: ProjectionError) {
    if !DistinctEntries(rows) then e == DuplicateIdentity
    else if !RowsOk(rows) then FirstRowError(rows, e)
    else !IsForest(NativeLinks(TableOf(rows))) && e == Cycle
  }

  /** The topology every accepted projection has. */
  ghost predicate TopologyOk(t: Table) {
    && (forall k :: k in t ==> RowChecks(k, t[k]))
    && ForeignKeys(t)
    && IsForest(NativeLinks(t))
  }

  // ----- statuses -----

  /** An existing child counts as work in progress even when idle. */
  function OwnStatus(row: Row): Status {
    if row.parent.Some? && row.status == Idle then Working else row.status
  }

  /** The maximum over a row and its native descendants. */
  ghost function NativeStatus(t: Table, k: Id): Status
    requires IsForest(NativeLinks(t))
  {
    MaxOf(set j | j in t && Below(NativeLinks(t), j, k) :: OwnStatus(t[j]))
  }

  ghost function DescendantCount(t: Table, k: Id): nat
    requires IsForest(NativeLinks(t))
  {
    |set j | j in t && j != k && Below(NativeLinks(t), j, k)|
  }

  /** The maximum of `native` over a node and its descendants. */
  ghost function CarriedStatus(links: map<Id, Id>, native: map<Id, Status>, r: Id): Status
    requires IsForest(links)
  {
    MaxOf(set d | d in native && Below(links, d, r) :: native[d])
  }

  ghost function RootStatuses(t: Table): map<Id, Status>
    requires IsForest(NativeLinks(t))
  {
    map r | r in t && IsRoot(t, r) :: NativeStatus(t, r)
  }

  // ----- the projected view -----

  /** The table with its resolved lineage and every root's published status. */
  datatype View = View(t: Table, links: map<Id, Id>, final: map<Id, Status>)

  ghost function ViewOf(t: Table): View
    requires IsForest(NativeLinks(t))
  {
    var native := RootStatuses(t);
    View(t, PaseoLinks(t), map r | r in native :: CarriedStatus(PaseoLinks(t), native, r))
  }

  /** The lineage half of a view: a forest over the roots, with statuses growing towards ancestors. */
  ghost predicate LineageOk(v: View) {
    && IsForest(v.links)
    && v.final.Keys <= v.t.Keys
    && (forall c :: c in v.links ==> c in v.final && v.links[c] in v.final && IsPaseoSubagent(v.t[c]))
    && (forall c :: c in v.links ==> Priority(v.final[c]) <= Priority(v.final[v.links[c]]))
  }

  /** What the rest of the projection relies on. */
  ghost predicate ViewOk(v: View) {
    && LineageOk(v)
    && TopologyOk(v.t)
    && (forall r :: r in v.final <==> IsRoot(v.t, r))
    && (forall r :: r in v.final && v.final[r] == Idle ==> v.t[r].status == Idle && NoNativeChild(v.t, r))
  }

  ghost predicate NoNativeChild(t: Table, r: Id) {
    forall j :: j in t && t[j].parent.Some? ==> ParentId(j, t[j]) != r
  }

  predicate HoldsLedger(row: Row) {
    row.unread.Some? || row.done.Some?
  }

  /** A card of its own: active, or a fail-safe root holding a ledger. */
  ghost predicate Speaks(v: View, d: Id)
    requires LineageOk(v) && d in v.final
  {
    v.final[d] != Idle || (d !in v.links && HoldsLedger(v.t[d]))
  }

  /** `d`'s news shows on `r`'s card: nothing from `d` up to, but not including, `r` speaks for itself. */
  ghost predicate RollsTo(v: View, d: Id, r: Id)
    requires LineageOk(v) && d in v.final
    decreases Depth(v.links, d)
  {
    d in v.links && !Speaks(v, d) && (v.links[d] == r || RollsTo(v, v.links[d], r))
  }

  ghost function Rolled(v: View, r: Id): set<Id>
    requires LineageOk(v)
  {
    set d | d in v.final && RollsTo(v, d, r)
  }

  ghost function PendingResults(v: View, r: Id): nat
    requires LineageOk(v)
  {
    |set d | d in Rolled(v, r) && v.t[d].unread.Some?|
  }

  ghost function AggregatedUnread(v: View, r: Id): Option<Instant>
    requires LineageOk(v) && r in v.final
  {
    Latest({v.t[r].unread} + (set d | d in Rolled(v, r) :: v.t[d].unread))
  }

  ghost function AggregatedDone(v: View, r: Id): Option<Instant>
    requires LineageOk(v) && r in v.final
  {
    Latest({v.t[r].done} + (set d | d in Rolled(v, r) :: v.t[d].done))
  }

  ghost predicate HasDescendantLedger(v: View, r: Id)
    requires LineageOk(v)
  {
    exists d :: d in v.final && d != r && Below(v.links, d, r) && HoldsLedger(v.t[d])
  }

  ghost predicate Visible(v: View, r: Id)
    requires LineageOk(v) && r in v.final
  {
    || v.final[r] != Idle
    || (!(IsPaseoSubagent(v.t[r]) && r in v.links) && (HoldsLedger(v.t[r]) || HasDescendantLedger(v, r)))
  }

  ghost function VisibleRoots(v: View): set<Id>
    requires LineageOk(v)
  {
    set r | r in v.final && Visible(v, r)
  }

  // ----- published records -----

  datatype CardFacts = CardFacts(
    status: Status, title: Option<string>, project: Option<string>, model: Option<string>,
    statusSince: Option<Instant>, activityLine: Option<string>, unreadSince: Option<Instant>,
    doneSince: Option<Instant>, pendingResults: nat, endedAt: Option<Instant>, logicalSlot: Option<int>,
    ghosttyTerminalId: Option<string>, transcriptPath: Option<string>, originKind: Option<OriginKind>,
    originRef: Option<string>, originSubagent: bool, originParentRef: Option<string>, lastEventAt: Instant)

  datatype Session = Session(id: Id, facts: CardFacts, descendantCount: nat)

  datatype Role = Primary | Subagent

  datatype LineageKind = Native | PaseoLineage

  datatype AgentNode = AgentNode(
    id: Id, role: Role, lineage: Option<LineageKind>, parent: Option<Id>, openedAt: Instant, facts: CardFacts)

  function RootRecord(row: Row, status: Status, unread: Option<Instant>, done: Option<Instant>,
                      pending: nat): CardFacts {
    CardFacts(status, row.title, row.project, row.model, row.statusSince, row.activityLine, unread, done, pending,
              row.ended, row.slot, row.ghosttyTerminalId, row.transcriptPath, row.originKind, row.originRef,
              IsPaseoSubagent(row), row.originParentRef, row.updatedAt)
  }

  ghost function FactsOfRoot(v: View, r: Id): CardFacts
    requires LineageOk(v) && r in v.final
  {
    RootRecord(v.t[r], v.final[r], AggregatedUnread(v, r), AggregatedDone(v, r), PendingResults(v, r))
  }

  ghost function SessionOf(v: View, r: Id): Session
    requires ViewOk(v) && r in v.final
  {
    Session(r, FactsOfRoot(v, r), DescendantCount(v.t, r))
  }

  function RootNode(k: Id, row: Row, facts: CardFacts, parent: Option<Id>): AgentNode {
    var paseo := IsPaseoSubagent(row);
    AgentNode(k, if paseo then Subagent else Primary, if paseo then Some(PaseoLineage) else None,
              if paseo then parent else None, row.openedAt, facts)
  }

  /** A native child publishes its subtree's status and no ledger, slot, terminal or origin. */
  function NativeNode(k: Id, row: Row, status: Status): AgentNode
    requires row.parent.Some?
  {
    AgentNode(k, Subagent, Some(Native), Some(ParentId(k, row)), row.openedAt,
              CardFacts(status, row.title, row.project, row.model, row.statusSince, row.activityLine,
                        None, None, 0, None, None, None, None, None, None, false, None, row.updatedAt))
  }

  ghost function NodeOf(v: View, k: Id): AgentNode
    requires ViewOk(v) && k in v.t
  {
    if v.t[k].parent.Some? then NativeNode(k, v.t[k], NativeStatus(v.t, k))
    else RootNode(k, v.t[k], FactsOfRoot(v, k), if k in v.links then Some(v.links[k]) else None)
  }

  // ----- the published graph and its order -----

  /** Visible roots and everything native below them. */
  ghost function Published(v: View): set<Id>
    requires ViewOk(v)
  {
    set k | k in v.t && Top(NativeLinks(v.t), k) in v.final && Visible(v, Top(NativeLinks(v.t), k))
  }

  ghost function AllLinks(v: View): map<Id, Id> {
    NativeLinks(v.t) + v.links
  }

  ghost function GraphLinks(v: View): map<Id, Id>
    requires ViewOk(v)
  {
    map k | k in AllLinks(v) && k in Published(v) :: AllLinks(v)[k]
  }

  function ProviderRank(p: Provider): nat {
    match p
    case Claude => 0
    case Codex => 1
    case Deepseek => 2
    case Evener => 3
    case Grok => 4
    case Kimi => 5
    case Omp => 6
    case Pi => 7
    case Qwen => 8
    case Zcode => 9
  }

  predicate StringLeq(a: string, b: string) {
    a == "" || (b != "" && (a[0] < b[0] || (a[0] == b[0] && StringLeq(a[1..], b[1..]))))
  }

  /** Opening time, then provider name, then session id. */
  predicate AgentLeq(at: Instant, a: Id, bt: Instant, b: Id) {
    if at != bt then at < bt
    else if a.provider != b.provider then ProviderRank(a.provider) < ProviderRank(b.provider)
    else StringLeq(a.session, b.session)
  }

  function OpenedAt(t: Table, k: Id): Instant {
    if k in t then t[k].openedAt else 0
  }

  function AgentOrder(t: Table): (Id, Id) -> bool {
    (a, b) => AgentLeq(OpenedAt(t, a), a, OpenedAt(t, b), b)
  }

  lemma {:induction false} StringOrder(a: string, b: string, c: string)
    ensures StringLeq(a, b) || StringLeq(b, a)
    ensures StringLeq(a, b) && StringLeq(b, a) ==> a == b
    ensures StringLeq(a, b) && StringLeq(b, c) ==> StringLeq(a, c)
    decreases |a| + |b| + |c|
  {
    if a != "" && b != "" {
      StringOrder(a[1..], b[1..], if c == "" then "" else c[1..]);
      assert a == [a[0]] + a[1..] && b == [b[0]] + b[1..];
    }
  }

  lemma AgentOrderTotal(t: Table, s: set<Id>)
    ensures TotalOrder(AgentOrder(t), s) && Antisymmetric(AgentOrder(t), s)
  {
    var le := AgentOrder(t);
    forall a, b ensures (le(a, b) || le(b, a)) && (le(a, b) && le(b, a) ==> a == b) {
      StringOrder(a.session, b.session, "");
    }
    forall a, b, c | le(a, b) && le(b, c) ensures le(a, c) {
      StringOrder(a.session, b.session, c.session);
    }
  }

  predicate SlotLeq(t: Table, a: Id, b: Id) {
    a in t && b in t && t[a].slot.Some? && t[b].slot.Some? && t[a].slot.value <= t[b].slot.value
  }

  function SlotOrder(t: Table): (Id, Id) -> bool {
    (a, b) => SlotLeq(t, a, b)
  }

  /** The roots by logical slot. */
  ghost predicate IsRootOrder(t: Table, order: seq<Id>) {
    Sorted(SlotOrder(t), order) && Distinct(order) && forall k :: k in order <==> IsRoot(t, k)
  }

  ghost function SortedIds(t: Table, s: set<Id>): (xs: seq<Id>)
    ensures Sorted(AgentOrder(t), xs) && Lists(xs, s)
  {
    AgentOrderTotal(t, s);
    SortedListing(AgentOrder(t), s)
  }

  ghost function ChildSet(links: map<Id, Id>, p: Id): set<Id> {
    set c | c in links && links[c] == p
  }

  /** Children listed oldest first. */
  ghost function KidsByAge(t: Table, links: map<Id, Id>): (kids: map<Id, seq<Id>>)
    ensures ChildLists(links, kids)
  {
    var kids := map p | p in links.Values :: SortedIds(t, ChildSet(links, p));
    assert forall p :: Distinct(Kids(kids, p));
    assert forall p, c :: c in Kids(kids, p) <==> c in links && links[c] == p;
    kids
  }

  /** Each published node's children, oldest first. */
  ghost function SortedKids(v: View): (kids: map<Id, seq<Id>>)
    requires ViewOk(v)
    ensures ChildLists(GraphLinks(v), kids)
  {
    KidsByAge(v.t, GraphLinks(v))
  }

  ghost function OrphanRoots(v: View): set<Id>
    requires ViewOk(v)
  {
    set r | r in VisibleRoots(v) && IsPaseoSubagent(v.t[r]) && r !in v.links
  }

  ghost function IsPrimaryCard(v: View): Id -> bool
    requires ViewOk(v)
  {
    r => r in v.final && Visible(v, r) && !IsPaseoSubagent(v.t[r])
  }

  /** Primaries by slot, then orphaned subagents by age. */
  ghost function GraphRoots(v: View, order: seq<Id>): seq<Id>
    requires ViewOk(v)
  {
    Filter(order, IsPrimaryCard(v)) + SortedIds(v.t, OrphanRoots(v))
  }

  ghost function IsCard(v: View): Id -> bool
    requires LineageOk(v)
  {
    r => r in v.final && Visible(v, r)
  }

  datatype Projected = Projected(sessions: seq<Session>, agents: seq<AgentNode>)

  ghost function VisibleIds(v: View, order: seq<Id>): seq<Id>
    requires ViewOk(v)
  {
    Filter(order, IsCard(v))
  }

  ghost function AgentIds(v: View, order: seq<Id>): seq<Id>
    requires ViewOk(v) && IsForest(GraphLinks(v))
  {
    Grove(GraphLinks(v), SortedKids(v), GraphRoots(v, order))
  }
}
