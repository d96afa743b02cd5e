/** The `active_sessions` table: its row, its constraints, and deletes that cascade. */
module Schema {
  import opened Common
  import opened Forest
  import opened Lineage

  datatype OriginKind = Paseo | Terminal | Roborev

  datatype Row = Row(
    parent: Option<string>,
    status: Status,
    title: Option<string>,
    project: Option<string>,
    slot: Option<int>,
    ghosttyTerminalId: Option<string>,
    background: bool,
    transcriptPath: Option<string>,
    model: Option<string>,
    originKind: Option<OriginKind>,
    originRef: Option<string>,
    originSubagent: bool,
    originParentRef: Option<string>,
    unread: Option<Instant>,
    done: Option<Instant>,
    viewed: Option<Instant>,
    acked: Option<Instant>,
    ended: Option<Instant>,
    statusSince: Option<Instant>,
    activityLine: Option<string>,
    openedAt: Instant,
    updatedAt: Instant)

  type Table = map<Id, Row>

  function ParentId(k: Id, row: Row): Id
    requires row.parent.Some?
  {
    Id(k.provider, row.parent.value)
  }

  predicate IsRoot(t: Table, k: Id) {
    k in t && t[k].parent.None?
  }

  /** Native parentage: a child names a session of its own provider. */
  function NativeLinks(t: Table): map<Id, Id> {
    map k | k in t && t[k].parent.Some? :: ParentId(k, t[k])
  }

  /** The role, slot and terminal CHECKs of one row. */
  ghost predicate RowChecks(k: Id, row: Row) {
    && (row.parent.None? ==> row.slot.Some? && row.slot.value > 0)
    && (row.parent.Some? ==> row.slot.None?)
    && (row.ghosttyTerminalId.Some? ==> k.provider == Claude && row.parent.None?)
  }

  ghost predicate ForeignKeys(t: Table) {
    forall k :: k in t && t[k].parent.Some? ==> ParentId(k, t[k]) in t
  }

  ghost predicate UniqueSlots(t: Table) {
    forall j, k :: j in t && k in t && j != k && t[j].slot.Some? ==> t[j].slot != t[k].slot
  }

  /** Everything the table's constraints and the mutation layer promise about its shape. */
  ghost predicate WellFormed(t: Table) {
    && (forall k :: k in t ==> RowChecks(k, t[k]))
    && ForeignKeys(t)
    && UniqueSlots(t)
    && IsForest(NativeLinks(t))
  }

  /** The ledger discipline: an unread row has no view clock, and no row carries an end mark. */
  ghost predicate LedgersOk(t: Table) {
    forall k :: k in t ==> (t[k].unread.Some? ==> t[k].viewed.None?) && t[k].ended.None?
  }

  // ----- Paseo lineage of the table -----

  function PaseoFacts(row: Row): Facts {
    if row.originKind == Some(Paseo) then Facts(row.originRef, row.originSubagent, row.originParentRef)
    else Facts(None, false, None)
  }

  /** Every root's facts, as the projection presents them. */
  ghost function RootFacts(t: Table): map<Id, Facts> {
    map k | k in t && t[k].parent.None? :: PaseoFacts(t[k])
  }

  /** The resolved lineage of the table. */
  ghost function PaseoLinks(t: Table): (links: map<Id, Id>)
    ensures IsForest(links)
    ensures forall c :: c in links ==> IsRoot(t, c) && IsRoot(t, links[c]) && IsPaseoSubagent(t[c])
  {
    var links := ResolvedLinks(RootFacts(t));
    assert forall c :: c in links ==> IsRawLink(RootFacts(t), c, links[c]);
    links
  }

  predicate IsPaseoSubagent(row: Row) {
    row.originKind == Some(Paseo) && row.originSubagent
  }

  // ----- rows unchanged in shape -----

  /** Same identities, same parents, same slots, same terminals. */
  ghost predicate SameShape(t: Table, u: Table) {
    && t.Keys == u.Keys
    && forall k :: k in t ==>
         t[k].parent == u[k].parent && t[k].slot == u[k].slot
         && (u[k].ghosttyTerminalId == t[k].ghosttyTerminalId || RowChecks(k, u[k]))
  }

  lemma ShapeKept(t: Table, u: Table)
    requires WellFormed(t) && SameShape(t, u)
    ensures WellFormed(u)
    ensures NativeLinks(u) == NativeLinks(t)
  {
    assert NativeLinks(u) == NativeLinks(t);
  }

  // ----- ON DELETE CASCADE -----

  /** Delete one row; the foreign key takes its native descendants with it. */
  function Delete(t: Table, k: Id): Table
    requires IsForest(NativeLinks(t))
  {
    map j | j in t && !Below(NativeLinks(t), j, k) :: t[j]
  }

  ghost predicate BelowAny(t: Table, j: Id, gone: set<Id>)
    requires IsForest(NativeLinks(t))
  {
    exists k :: k in gone && Below(NativeLinks(t), j, k)
  }

  ghost function DeleteAll(t: Table, gone: set<Id>): Table
    requires IsForest(NativeLinks(t))
  {
    map j | j in t && !BelowAny(t, j, gone) :: t[j]
  }

  /** A part of the table that keeps the parents of what it keeps. */
  ghost predicate AncestorClosed(t: Table, u: Table) {
    && (forall k :: k in u ==> k in t && u[k] == t[k])
    && (forall k :: k in u && t[k].parent.Some? ==> ParentId(k, t[k]) in u)
  }

  lemma PartWellFormed(t: Table, u: Table)
    requires WellFormed(t) && AncestorClosed(t, u)
    ensures WellFormed(u)
  {
    SubForest(NativeLinks(t), NativeLinks(u));
  }

  /** Native descent among survivors is native descent in the whole table. */
  lemma {:induction false} SurvivorBelow(t: Table, u: Table, j: Id, k: Id)
    requires WellFormed(t) && AncestorClosed(t, u) && IsForest(NativeLinks(u))
    requires j in u
    ensures Below(NativeLinks(u), j, k) <==> Below(NativeLinks(t), j, k)
    decreases Depth(NativeLinks(t), j)
  {
    if j in NativeLinks(t) && j != k {
      SurvivorBelow(t, u, NativeLinks(t)[j], k);
    }
  }

  lemma DeleteAllClosed(t: Table, gone: set<Id>)
    requires WellFormed(t)
    ensures AncestorClosed(t, DeleteAll(t, gone))
    ensures WellFormed(DeleteAll(t, gone))
  {
    var u := DeleteAll(t, gone);
    PartWellFormed(t, u);
  }

  /** Deleting one more row after a set of rows. */
  lemma DeleteOneMore(t: Table, gone: set<Id>, k: Id)
    requires WellFormed(t)
    ensures WellFormed(DeleteAll(t, gone))
    ensures Delete(DeleteAll(t, gone), k) == DeleteAll(t, gone + {k})
  {
    DeleteAllClosed(t, gone);
    var u := DeleteAll(t, gone);
    forall j | j in t ensures j in Delete(u, k) <==> j in DeleteAll(t, gone + {k}) {
      if BelowAny(t, j, gone) {
        var g :| g in gone && Below(NativeLinks(t), j, g);
        assert g in gone + {k};
        assert BelowAny(t, j, gone + {k});
      } else {
        SurvivorBelow(t, u, j, k);
        if BelowAny(t, j, gone + {k}) {
          var g :| g in gone + {k} && Below(NativeLinks(t), j, g);
          assert g == k;
        } else {
          assert k in gone + {k};
        }
      }
    }
  }

  lemma DeleteIsDeleteAll(t: Table, k: Id)
    requires WellFormed(t)
    ensures Delete(t, k) == DeleteAll(t, {k})
  {
    assert DeleteAll(t, {}) == t;
    DeleteOneMore(t, {}, k);
    assert {} + {k} == {k};
  }
}
