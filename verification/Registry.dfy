/**
 * The mutation layer itself: one table, changed statement by statement, each
 * operation proved to land exactly where its specification says.
 */
module Registry {
  import opened Common
  import opened Forest
  import opened Lineage
  import opened Walks
  import opened Sorting
  import opened Schema
  import opened RegistrySpec
  import opened RegistryRuns

  class Registry {
    var table: Table

    constructor ()
      ensures table == map[]
    {
      table := map[];
    }

    /** SELECT over the table, in whatever order the database returns rows. */
    method SelectIds() returns (scan: seq<Id>)
      ensures Lists(scan, table.Keys)
    {
      scan := [];
      var todo := table.Keys;
      while todo != {}
        invariant Distinct(scan) && todo <= table.Keys
        invariant forall k :: k in scan <==> k in table && k !in todo
        decreases |todo|
      {
        var k :| k in todo;
        scan := scan + [k];
        todo := todo - {k};
      }
    }

    /** The non-null slots, ORDER BY slot. */
    method SelectSlots() returns (slots: seq<int>)
      ensures Sorted(AtMost, slots)
      ensures forall s :: s in slots <==> SlotTaken(table, s)
    {
      slots := [];
      var scan := SelectIds();
      for n := 0 to |scan|
        invariant Sorted(AtMost, slots)
        invariant forall s :: s in slots ==> SlotTaken(table, s)
        invariant forall i :: 0 <= i < n && table[scan[i]].slot.Some? ==> table[scan[i]].slot.value in slots
      {
        var row := table[scan[n]];
        if row.slot.Some? {
          SlotInserted(slots, row.slot.value);
          slots := Insert(AtMost, slots, row.slot.value);
        }
      }
      forall s | SlotTaken(table, s) ensures s in slots {
        var k :| k in table && table[k].slot == Some(s);
        var i :| 0 <= i < |scan| && scan[i] == k;
      }
    }

    /** First hole in the sorted slot list. */
    method AllocateLowestFreeSlot() returns (slot: int)
      requires forall k :: k in table && table[k].slot.Some? ==> table[k].slot.value > 0
      ensures slot == FreeSlot(table)
    {
      var slots := SelectSlots();
      slot := 1;
      for n := 0 to |slots|
        invariant slot >= 1
        invariant forall s :: 1 <= s < slot ==> s in slots
        invariant forall i :: 0 <= i < n ==> slots[i] < slot
        invariant n > 0 ==> slot == slots[n - 1] + 1
      {
        assert SlotTaken(table, slots[n]);
        if slots[n] > slot {
          break;
        }
        slot := slots[n] + 1;
      }
      assert slot !in slots;
      assert LeastFreeSlot(table, slot);
    }

    /** Walk the prospective parent's ancestor chain, with the source's guards. */
    method IsValidProspectiveParent(child: Id, parentSession: string) returns (valid: bool)
      requires WellFormed(table)
      ensures valid <==> ValidProspectiveParent(table, child, parentSession)
    {
      var bound := |table| + 1;
      var visited: set<Id> := {};
      var p := Id(child.provider, parentSession);
      var links := NativeLinks(table);
      var current := Some(p);
      while current.Some?
        invariant visited <= table.Keys
        invariant current.Some? ==> Below(links, p, current.value)
        invariant current.Some? ==> (current.value in table || (visited == {} && current.value == p))
        invariant current.Some? ==> forall v :: v in visited ==> Depth(links, v) > Depth(links, current.value)
        invariant Below(links, p, child) ==> current.Some? && Below(links, current.value, child)
        invariant current.None? ==> p in table
        invariant visited != {} ==> p in table
        decreases current.Some?, if current.Some? then Depth(links, current.value) else 0
      {
        var key := current.value;
        if key == child {
          return false;
        }
        visited := visited + {key};
        if key in table {
          SubsetSize(visited, table.Keys);
        }
        if |visited| > bound {
          assert false;
        }
        if key !in table {
          return false;
        }
        current := if table[key].parent.Some? then Some(ParentId(key, table[key])) else None;
        if current.Some? {
          BelowTransitive(links, p, key, current.value);
        }
      }
      return true;
    }

    // ----- hook events -----

    method ApplySessionStart(e: Event) returns (result: MutationResult)
      requires e.SessionStart? && WellFormed(table)
      modifies this
      ensures table == AfterSessionStart(old(table), e)
      ensures result == if e.id in old(table) && old(table)[e.id].parent.Some? then Ignored else Applied
    {
      if e.id in table {
        if table[e.id].parent.Some? {
          return Ignored;
        }
        table := table[e.id := ReusedRow(table[e.id], e)];
        return Applied;
      }
      var slot := AllocateLowestFreeSlot();
      table := table[e.id := NewRootRow(e, slot)];
      return Applied;
    }

    method ApplySubagentStart(e: Event) returns (result: MutationResult)
      requires e.SubagentStart? && WellFormed(table)
      modifies this
      ensures (table, result) == AfterSubagentStart(old(table), e)
    {
      var valid := IsValidProspectiveParent(e.id, e.parentSession);
      if !valid {
        return Ignored;
      }
      if e.id in table {
        if table[e.id].parent.None? {
          return Ignored;
        }
        table := table[e.id := ReparentedRow(table[e.id], e)];
        return Applied;
      }
      table := table[e.id := NewChildRow(e)];
      return Applied;
    }

    method ApplyEvent(e: Event) returns (result: MutationResult)
      requires WellFormed(table)
      modifies this
      ensures (table, result) == AfterEvent(old(table), e)
    {
      result := Ignored;
      match e
      case SessionStart(_, _, _, _, _, _, _, _) => result := ApplySessionStart(e);
      case SessionObserved(id, _, _, _, _, _, _) =>
        if id !in table {
          result := ApplySessionStart(LateStart(e));
        } else if ObservedRefreshes(table[id], e) {
          table := table[id := ObservedRow(table[id], e)];
          result := Applied;
        }
      case SessionTitleChanged(id, title, _) =>
        if id in table && table[id].title != Some(title) && table[id].originKind != Some(Paseo) {
          table := table[id := table[id].(title := Some(title))];
          result := Applied;
        }
      case SessionModelChanged(id, model, _) =>
        if IsBoundedModel(model) && id in table && table[id].model != Some(model) {
          table := table[id := table[id].(model := Some(model))];
          result := Applied;
        }
      case SessionStatusObserved(id, status, at) =>
        if id in table && table[id].status != status {
          table := table[id := table[id].(status := status, statusSince := Some(at), updatedAt := at)];
          result := Applied;
        }
      case StatusEvent(id, kind, at) =>
        if id in table {
          table := table[id := StatusEventRow(table[id], kind, at)];
          result := Applied;
        }
      case SessionEnd(id, _) =>
        if IsRoot(table, id) {
          var _ := DeletePaseoSubtree(id, []);
          result := Applied;
        }
      case SubagentStart(_, _, _, _, _, _) => result := ApplySubagentStart(e);
      case SubagentStop(id, _) =>
        if id in table && table[id].parent.Some? {
          table := Delete(table, id);
          result := Applied;
        }
    }

    /** One decoded hook: its events in order, one result each. */
    method ApplyRegistryEvents(events: seq<Event>) returns (results: seq<MutationResult>)
      requires WellFormed(table)
      modifies this
      ensures table == AfterEvents(old(table), events)
      ensures results == EventResults(old(table), events)
    {
      results := [];
      for n := 0 to |events|
        invariant table == AfterEvents(old(table), events[..n])
        invariant results == EventResults(old(table), events[..n])
      {
        TakeStep(events, n);
        EventsSnoc(old(table), events[..n], events[n]);
        ResultsSnoc(old(table), events[..n], events[n]);
        var result := ApplyEvent(events[n]);
        results := results + [result];
      }
      assert events[..|events|] == events;
    }

    // ----- Paseo subtrees -----

    /** The rows a subtree walk resolves, hints overriding stored facts. */
    method LineageRows(hints: Hints) returns (rows: seq<LineageRow>)
      ensures DistinctIds(rows)
      ensures FactsOf(rows) == HintedFacts(table, hints)
    {
      rows := [];
      var scan := SelectIds();
      ghost var all := HintedFacts(table, hints);
      for n := 0 to |scan|
        invariant DistinctIds(rows)
        invariant FactsOf(rows) == AmongFirst(all, scan, n)
      {
        var k := scan[n];
        AmongStep(all, scan, n);
        if IsRoot(table, k) && (k in hints || table[k].originKind == Some(Paseo)) {
          var row := LineageRow(k, if k in hints then hints[k] else PaseoFacts(table[k]));
          FactsAppend(rows, row);
          rows := rows + [row];
        }
      }
      assert AmongFirst(all, scan, |scan|) == all;
    }

    method PaseoSubtreeIdentities(k: Id, states: seq<PaseoState>) returns (identities: seq<Id>)
      ensures Lists(identities, PaseoSubtree(table, k, HintsOf(states)))
    {
      var rows := LineageRows(HintsOf(states));
      var links := ResolvePaseoParentLinks(rows);
      identities := CollectSubtree(links, k);
    }

    /** Resolve the subtree first, then delete its members one by one; native descendants cascade. */
    method DeletePaseoSubtree(k: Id, states: seq<PaseoState>) returns (changed: nat)
      requires WellFormed(table)
      modifies this
      ensures table == WithoutLineage(old(table), k, HintsOf(states))
      ensures changed > 0 <==> table != old(table)
    {
      var identities := PaseoSubtreeIdentities(k, states);
      changed := DeleteEach(identities);
      assert Elements(identities) == PaseoSubtree(old(table), k, HintsOf(states));
    }

    method DeleteEach(identities: seq<Id>) returns (changed: nat)
      requires WellFormed(table)
      modifies this
      ensures table == DeleteAll(old(table), Elements(identities))
      ensures changed > 0 <==> table != old(table)
    {
      changed := 0;
      ghost var start := table;
      assert DeleteAll(start, {}) == start;
      for n := 0 to |identities|
        invariant table == DeleteAll(start, Elements(identities[..n]))
        invariant if changed == 0 then table == start else |table| < |start|
      {
        DeleteOneMore(start, Elements(identities[..n]), identities[n]);
        assert Elements(identities[..n + 1]) == Elements(identities[..n]) + {identities[n]};
        if identities[n] in table {
          changed := changed + 1;
          DeletedShrinks(table, identities[n]);
        } else {
          DeleteMissing(table, identities[n]);
        }
        table := Delete(table, identities[n]);
      }
      assert identities[..|identities|] == identities;
    }

    method ClearSession(k: Id) returns (result: MutationResult)
      requires WellFormed(table)
      modifies this
      ensures table == Apply(old(table), Clear(k))
      ensures result == if k in old(table) then Applied else Ignored
    {
      ClearIs(table, k);
      if k !in table {
        return Ignored;
      }
      var _ := DeletePaseoSubtree(k, []);
      return Applied;
    }

    method ClearAllSessions() returns (result: MutationResult)
      requires WellFormed(table)
      modifies this
      ensures table == Apply(old(table), ClearAll)
      ensures result == Applied
    {
      table := map[];
      result := Applied;
    }

    // ----- gestures -----

    method ViewSession(k: Id, viewedAt: Instant, watermark: Watermark) returns (result: MutationResult)
      modifies this
      ensures table == AfterView(old(table), k, viewedAt, watermark)
      ensures result == Ignored ==> table == old(table)
    {
      var identities := PaseoSubtreeIdentities(k, []);
      assert Elements(identities) == PaseoSubtree(table, k, map[]);
      var changed := ViewEach(identities, k, viewedAt, watermark);
      result := if changed > 0 then Applied else Ignored;
    }

    method ViewEach(identities: seq<Id>, k: Id, viewedAt: Instant, watermark: Watermark) returns (changed: nat)
      requires Distinct(identities)
      modifies this
      ensures table == ViewAmong(old(table), Elements(identities), k, viewedAt, watermark)
      ensures changed == 0 ==> table == old(table)
    {
      changed := 0;
      ghost var t := table;
      for n := 0 to |identities|
        invariant table == ViewAmong(t, Elements(identities[..n]), k, viewedAt, watermark)
        invariant changed == 0 ==> table == t
      {
        var id := identities[n];
        ElementsGrow(identities, n);
        ViewStep(t, Elements(identities[..n]), id, k, viewedAt, watermark);
        if id in table && ViewReaches(table[id], id == k, watermark) {
          table := table[id := ViewedRow(table[id], viewedAt)];
          changed := changed + 1;
        }
      }
      assert identities[..|identities|] == identities;
    }

    method AcknowledgeSession(k: Id, ackedAt: Instant, watermark: Watermark) returns (result: MutationResult)
      modifies this
      ensures table == AfterAck(old(table), k, ackedAt, watermark)
      ensures result == Ignored ==> table == old(table)
    {
      var identities := PaseoSubtreeIdentities(k, []);
      assert Elements(identities) == PaseoSubtree(table, k, map[]);
      var changed := AcknowledgeEach(identities, ackedAt, watermark);
      result := if changed > 0 then Applied else Ignored;
    }

    method AcknowledgeEach(identities: seq<Id>, ackedAt: Instant, watermark: Watermark) returns (changed: nat)
      requires Distinct(identities)
      modifies this
      ensures table == AckAmong(old(table), Elements(identities), ackedAt, watermark)
      ensures changed == 0 ==> table == old(table)
    {
      changed := 0;
      ghost var t := table;
      for n := 0 to |identities|
        invariant table == AckAmong(t, Elements(identities[..n]), ackedAt, watermark)
        invariant changed == 0 ==> table == t
      {
        var id := identities[n];
        ElementsGrow(identities, n);
        AckStep(t, Elements(identities[..n]), id, ackedAt, watermark);
        if id in table && AckReaches(table[id], watermark) {
          table := table[id := AckedRow(table[id], ackedAt)];
          changed := changed + 1;
        }
      }
      assert identities[..|identities|] == identities;
    }

    // ----- resolved facts and the expiry sweep -----

    /** Titles, models and activity lines; rows already holding the value do not count. */
    method UpdateSessionFacts(updates: seq<FactUpdate>) returns (changed: nat)
      modifies this
      ensures table == AfterFacts(old(table), updates)
      ensures changed > 0 <==> FactsStir(old(table), updates)
      ensures changed == 0 ==> table == old(table)
    {
      changed := 0;
      ghost var t := table;
      for n := 0 to |updates|
        invariant table == AfterFacts(t, updates[..n])
        invariant changed > 0 <==> FactsStir(t, updates[..n])
        invariant changed == 0 ==> table == t
      {
        assert updates[..n + 1][..n] == updates[..n];
        var next := AfterFact(table, updates[n]);
        if next != table {
          changed := changed + 1;
        }
        table := next;
      }
      assert updates[..|updates|] == updates;
    }

    method SweepExpiredResults(cutoff: Instant, sweptAt: Instant) returns (changed: nat)
      modifies this
      ensures table == AfterSweep(old(table), cutoff, sweptAt)
      ensures changed == |set k | k in old(table) && Expired(old(table)[k], cutoff)|
      ensures changed > 0 <==> table != old(table)
    {
      var expired := set k | k in table && Expired(table[k], cutoff);
      changed := |expired|;
      assert changed == 0 ==> expired == {};
      assert forall k :: k in table && Expired(table[k], cutoff) ==> k in expired;
      table := AfterSweep(table, cutoff, sweptAt);
    }

    // ----- the Paseo overlay -----

    /** The provider sessions each ref claims in this pass. */
    method JoinedByRef(states: seq<PaseoState>) returns (joinedByRef: map<string, set<Id>>)
      ensures forall i :: 0 <= i < |states| ==> states[i].agentId in joinedByRef
      ensures forall a :: a in joinedByRef ==>
                joinedByRef[a] == set i | 0 <= i < |states| && states[i].agentId == a :: states[i].id
    {
      joinedByRef := map[];
      for n := 0 to |states|
        invariant forall i :: 0 <= i < n ==> states[i].agentId in joinedByRef
        invariant forall a :: a in joinedByRef ==>
                    joinedByRef[a] == set i | 0 <= i < n && states[i].agentId == a :: states[i].id
        invariant forall a :: a in joinedByRef ==> exists i :: 0 <= i < n && states[i].agentId == a
      {
        var a := states[n].agentId;
        var joined := if a in joinedByRef then joinedByRef[a] else {};
        joinedByRef := joinedByRef[a := joined + {states[n].id}];
      }
    }

    method SyncTitle(s: PaseoState) returns (changed: nat)
      modifies this
      ensures table == TitleSynced(old(table), s)
      ensures changed > 0 <==> table != old(table)
    {
      changed := 0;
      if s.title.Some? && s.id in table && table[s.id].title != s.title {
        table := table[s.id := table[s.id].(title := s.title)];
        changed := 1;
      }
    }

    method SyncAttention(s: PaseoState) returns (changed: nat)
      modifies this
      ensures table == AttentionSynced(old(table), s)
      ensures changed > 0 <==> table != old(table)
    {
      changed := 0;
      if s.requiresAttention {
        if IsRoot(table, s.id) && (OriginDiffers(table[s.id], s) || FlagLands(table[s.id], s)) {
          table := table[s.id := FlaggedRow(table[s.id], s)];
          changed := 1;
        }
      } else if IsRoot(table, s.id) && OriginDiffers(table[s.id], s) {
        table := table[s.id := OriginStamped(table[s.id], s)];
        changed := 1;
      }
    }

    method SyncSettlement(s: PaseoState, backgroundCutoff: Option<Instant>) returns (changed: nat)
      modifies this
      ensures table == SettleSynced(old(table), s, backgroundCutoff)
      ensures changed > 0 <==> table != old(table)
    {
      changed := 0;
      if IsSettled(s) && s.id in table && SettleReaches(table[s.id], s.updatedAt.value, backgroundCutoff) {
        table := table[s.id := SettledRow(table[s.id], s.updatedAt.value)];
        changed := 1;
      }
    }

    method RetireAbandoned(s: PaseoState) returns (changed: nat)
      modifies this
      ensures table == RotationSynced(old(table), s)
      ensures changed > 0 <==> table != old(table)
    {
      var abandoned := set k | k in table && IsAbandoned(k, table[k], s);
      assert forall k :: k in table && IsAbandoned(k, table[k], s) ==> k in abandoned;
      changed := |abandoned|;
      RetirementShows(table, s, abandoned);
      table := RotationSynced(table, s);
    }

    method SyncPaseoState(s: PaseoState, states: seq<PaseoState>, joinedOnce: bool, backgroundCutoff: Option<Instant>)
      returns (changed: nat)
      requires WellFormed(table)
      requires joinedOnce <==> JoinedOnce(states, s)
      modifies this
      ensures table == AfterPaseoState(old(table), s, states, backgroundCutoff)
      ensures changed > 0 <==> table != old(table)
    {
      if s.archivedAt.Some? {
        changed := DeletePaseoSubtree(s.id, states);
        return;
      }
      RecordShows(table, s, backgroundCutoff, joinedOnce);
      var titled := SyncTitle(s);
      var flagged := SyncAttention(s);
      var settled := SyncSettlement(s, backgroundCutoff);
      changed := titled + flagged + settled;
      if joinedOnce {
        var abandoned := RetireAbandoned(s);
        changed := changed + abandoned;
      }
    }

    method SyncPaseoStates(states: seq<PaseoState>, backgroundCutoff: Option<Instant>) returns (changed: nat)
      requires WellFormed(table)
      modifies this
      ensures table == AfterPaseoStates(old(table), states, states, backgroundCutoff)
      ensures changed > 0 <==> PaseoStirs(old(table), states, states, backgroundCutoff)
      ensures changed == 0 ==> table == old(table)
    {
      var joinedByRef := JoinedByRef(states);
      changed := 0;
      ghost var t := table;
      for n := 0 to |states|
        invariant table == AfterPaseoStates(t, states[..n], states, backgroundCutoff)
        invariant changed > 0 <==> PaseoStirs(t, states[..n], states, backgroundCutoff)
        invariant changed == 0 ==> table == t
      {
        assert states[..n + 1][..n] == states[..n];
        var s := states[n];
        JoinedSize(states, n, joinedByRef[s.agentId]);
        var count := SyncPaseoState(s, states, |joinedByRef[s.agentId]| == 1, backgroundCutoff);
        changed := changed + count;
      }
      assert states[..|states|] == states;
    }

    // ----- the prune -----

    method Neighbors() returns (neighbors: map<Id, seq<Id>>)
      ensures forall a, b :: b in Kids(neighbors, a) <==> Adjacent(table, a, b)
    {
      var native := AddLinks(map[], NativeLinks(table));
      var rows := LineageRows(map[]);
      PaseoRowsSuffice(table);
      var paseoLinks := ResolvePaseoParentLinks(rows);
      neighbors := AddLinks(native, paseoLinks);
      forall a, b ensures b in Kids(neighbors, a) <==> Adjacent(table, a, b) {
        assert Kids(map[], a) == [];
      }
    }

    method Seeds(cutoff: Instant, zcodeCutoff: Instant) returns (keep: set<Id>, stack: seq<Id>)
      ensures forall k :: k in keep <==> k in table && KeepsAlive(k, table[k], cutoff, zcodeCutoff)
      ensures forall k :: k in stack <==> k in keep
    {
      keep, stack := {}, [];
      var scan := SelectIds();
      for n := 0 to |scan|
        invariant forall k :: k in keep <==> k in scan[..n] && KeepsAlive(k, table[k], cutoff, zcodeCutoff)
        invariant forall k :: k in stack <==> k in keep
      {
        if KeepsAlive(scan[n], table[scan[n]], cutoff, zcodeCutoff) && scan[n] !in keep {
          keep := keep + {scan[n]};
          stack := stack + [scan[n]];
        }
      }
      assert scan[..|scan|] == scan;
    }

    /** Everything connected to a row that keeps its component alive. */
    method KeepSet(cutoff: Instant, zcodeCutoff: Instant) returns (keep: set<Id>)
      requires WellFormed(table)
      ensures forall k :: k in keep <==> KeptAlive(table, k, cutoff, zcodeCutoff)
    {
      var neighbors := Neighbors();
      var seeds, stack := Seeds(cutoff, zcodeCutoff);
      ghost var t := table;
      ghost var alive := k => KeptAlive(t, k, cutoff, zcodeCutoff);
      SeedsAlive(t, seeds, cutoff, zcodeCutoff);
      NeighborsAlive(t, neighbors, cutoff, zcodeCutoff);
      keep := Closure(neighbors, seeds, stack, t.Keys, alive);
      forall k | KeptAlive(t, k, cutoff, zcodeCutoff) ensures k in keep {
        ClosedKeepsComponents(t, keep, k, cutoff, zcodeCutoff);
      }
    }

    method PruneStaleSessions(cutoff: Instant, zcodeCutoff: Instant) returns (count: nat)
      requires WellFormed(table)
      modifies this
      ensures table == AfterPrune(old(table), cutoff, zcodeCutoff)
      ensures count > 0 <==> table != old(table)
    {
      var keep := KeepSet(cutoff, zcodeCutoff);
      count := DeleteStale(keep, StaleRoots(table, cutoff, zcodeCutoff));
    }

    /** Delete the legacy ended roots and the roots outside `keep`; native children cascade. */
    method DeleteStale(keep: set<Id>, ghost stale: set<Id>) returns (count: nat)
      requires WellFormed(table)
      requires forall k :: k in stale <==> IsRoot(table, k) && (table[k].ended.Some? || k !in keep)
      modifies this
      ensures table == DeleteAll(old(table), stale)
      ensures count > 0 <==> table != old(table)
    {
      var rows := table;
      var scan := SelectIds();
      count := 0;
      ghost var gone: set<Id> := {};
      assert DeleteAll(rows, {}) == rows;
      for n := 0 to |scan|
        invariant gone == Elements(scan[..n]) * stale
        invariant table == DeleteAll(rows, gone)
        invariant count == 0 <==> gone == {}
      {
        var k := scan[n];
        TakeStep(scan, n);
        ScannedMore(scan[..n], k, stale);
        if IsRoot(rows, k) && (rows[k].ended.Some? || k !in keep) {
          DeleteOneMore(rows, gone, k);
          gone := gone + {k};
          table := Delete(table, k);
          count := count + 1;
        }
      }
      TakeAll(scan);
      assert gone == stale;
      GoneShow(rows, stale);
    }

    // ----- Codex rollouts -----

    method SyncCodexChild(c: CodexChild) returns (changed: nat, confirmed: seq<StoppedTurn>)
      requires WellFormed(table)
      modifies this
      ensures table == AfterCodexChild(old(table), c)
      ensures confirmed == CodexConfirms(old(table), c)
      ensures changed > 0 <==> table != old(table)
    {
      confirmed := [];
      var k := CodexId(c.session);
      var before := table;
      var admitted;
      admitted, changed := AdmitCodexChild(c);
      if !admitted {
        return;
      }
      var row := table[k];
      if CodexFactsDiffer(row, c) {
        row := CodexFactsRow(row, c);
        changed := changed + 1;
      }
      var stops, works := CodexStops(before, c), CodexWorks(before, c);
      if stops {
        confirmed := [StoppedTurn(c.session, c.turn.value.observedAt)];
      }
      var turned := CodexTurnRow(row, stops, works, c.turn);
      if turned != row {
        changed := changed + 1;
      }
      table := table[k := turned];
    }

    /** Register an unknown child on a working turn its parent was open for; skip what cannot be placed. */
    method AdmitCodexChild(c: CodexChild) returns (admitted: bool, changed: nat)
      requires WellFormed(table)
      modifies this
      ensures admitted <==> CodexAdmitted(old(table), c).Some?
      ensures table == if admitted then CodexAdmitted(old(table), c).value else old(table)
      ensures changed > 0 <==> table != old(table)
      ensures changed > 0 ==> CodexId(c.session) !in old(table)
    {
      admitted, changed := false, 0;
      var p, k := CodexId(c.parentSession), CodexId(c.session);
      if p !in table || (k in table && table[k].parent != Some(c.parentSession)) {
        return;
      }
      if k !in table {
        if c.turn.None? || c.turn.value.status != TurnWorking || c.turn.value.startedAt < table[p].openedAt {
          return;
        }
        var result := ApplySubagentStart(CodexStart(c, table[p].project, c.turn.value.startedAt));
        if result != Applied {
          return;
        }
        changed := 1;
      }
      admitted := true;
    }

    method SyncCodexChildren(children: seq<CodexChild>) returns (changed: nat, stopped: seq<StoppedTurn>)
      requires WellFormed(table)
      modifies this
      ensures (table, stopped) == AfterCodexChildren(old(table), children)
      ensures changed > 0 <==> CodexStirs(old(table), children)
      ensures changed == 0 ==> table == old(table)
    {
      changed, stopped := 0, [];
      ghost var t := table;
      for n := 0 to |children|
        invariant (table, stopped) == AfterCodexChildren(t, children[..n])
        invariant changed > 0 <==> CodexStirs(t, children[..n])
        invariant changed == 0 ==> table == t
      {
        assert children[..n + 1][..n] == children[..n];
        var count, confirmed := SyncCodexChild(children[n]);
        changed := changed + count;
        stopped := stopped + confirmed;
      }
      assert children[..|children|] == children;
    }

    /** Remove confirmed stopped leaves, then their stopped ancestors, until a pass removes nothing. */
    method RemoveStopped(stopped: seq<StoppedTurn>) returns (removed: nat)
      requires WellFormed(table)
      modifies this
      ensures table == WithoutStopped(old(table), stopped)
      ensures removed > 0 <==> table != old(table)
    {
      ghost var t := table;
      removed := 0;
      var again := true;
      while again
        invariant Peeled(t, table, stopped)
        invariant |table| + removed == |t| && (removed == 0 ==> table == t)
        invariant !again ==> NoneLeaf(table, stopped)
        decreases |table|, again
      {
        var count := RemovePass(stopped, t);
        removed := removed + count;
        again := count > 0;
      }
      PeeledOut(t, table, stopped);
    }

    method RemovePass(stopped: seq<StoppedTurn>, ghost t: Table) returns (removed: nat)
      requires WellFormed(t) && Peeled(t, table, stopped)
      modifies this
      ensures Peeled(t, table, stopped)
      ensures |table| + removed == |old(table)|
      ensures removed == 0 ==> table == old(table)
      ensures removed == 0 ==> NoneLeaf(table, stopped)
    {
      removed := 0;
      for n := 0 to |stopped|
        invariant Peeled(t, table, stopped)
        invariant |table| + removed == |old(table)|
        invariant removed == 0 ==> table == old(table)
        invariant removed == 0 ==> NoneLeaf(table, stopped[..n])
      {
        var gone := RemoveIfLeaf(stopped, n, t);
        removed := removed + gone;
        if removed == 0 {
          NoneLeafStep(table, stopped, n);
        }
      }
      TakeAll(stopped);
    }

    method RemoveIfLeaf(stopped: seq<StoppedTurn>, n: nat, ghost t: Table) returns (gone: nat)
      requires WellFormed(t) && Peeled(t, table, stopped) && n < |stopped|
      modifies this
      ensures Peeled(t, table, stopped)
      ensures |table| + gone == |old(table)|
      ensures gone == 0 ==> table == old(table) && !IsStoppedLeaf(table, stopped[n])
    {
      gone := 0;
      PeeledWellFormed(t, table, stopped);
      if IsStoppedLeaf(table, stopped[n]) {
        var k := CodexId(stopped[n].session);
        PeelLeaf(t, table, stopped, n);
        assert table.Keys == (table - {k}).Keys + {k};
        table := Delete(table, k);
        gone := 1;
      }
    }

    /** Skipped outright when another connection has committed since the sweep began at `dataVersion`. */
    method SyncCodexSubagents(children: seq<CodexChild>, dataVersion: int, currentVersion: int) returns (changed: nat)
      requires WellFormed(table)
      modifies this
      ensures table == if currentVersion == dataVersion then AfterCodexSync(old(table), children) else old(table)
      ensures changed > 0 <==> currentVersion == dataVersion && CodexSyncStirs(old(table), children)
      ensures changed == 0 ==> table == old(table)
    {
      changed := 0;
      if currentVersion == dataVersion {
        changed := RecordAndStop(children);
      }
    }

    /** Record the children, then remove what their stops confirm. */
    method RecordAndStop(children: seq<CodexChild>) returns (changed: nat)
      requires WellFormed(table)
      modifies this
      ensures table == AfterCodexSync(old(table), children)
      ensures changed > 0 <==> CodexSyncStirs(old(table), children)
      ensures changed == 0 ==> table == old(table)
    {
      var count, stopped := SyncCodexChildren(children);
      var removed := RemoveStopped(stopped);
      changed := count + removed;
    }

    // ----- the Evener collector -----

    method ApplyEvenerCollectorUpdate(events: seq<Event>, archivedRoots: set<string>,
                                      activeChildren: Option<set<string>>)
      returns (results: seq<MutationResult>)
      requires WellFormed(table)
      modifies this
      ensures table == AfterEvener(old(table), events, archivedRoots, activeChildren)
      ensures results == EventResults(old(table), events)
    {
      results := ApplyRegistryEvents(events);
      RemoveArchivedRoots(archivedRoots);
      if activeChildren.Some? {
        RemoveVanishedChildren(activeChildren.value);
      }
    }

    /** Every operation of a run, by the method that performs it. */
    method Perform(op: Op)
      requires WellFormed(table)
      modifies this
      ensures table == Apply(old(table), op)
    {
      match op
      case Hooks(events) => var _ := ApplyRegistryEvents(events);
      case View(id, at, watermark) => var _ := ViewSession(id, at, watermark);
      case Acknowledge(id, at, watermark) => var _ := AcknowledgeSession(id, at, watermark);
      case Clear(id) => var _ := ClearSession(id);
      case ClearAll => var _ := ClearAllSessions();
      case UpdateFacts(updates) => var _ := UpdateSessionFacts(updates);
      case PaseoSync(states, backgroundCutoff) => var _ := SyncPaseoStates(states, backgroundCutoff);
      case Prune(cutoff, zcodeCutoff) => var _ := PruneStaleSessions(cutoff, zcodeCutoff);
      case Sweep(cutoff, at) => var _ := SweepExpiredResults(cutoff, at);
      case CodexSync(children) => var _ := SyncCodexSubagents(children, 0, 0);
      case EvenerSync(events, archivedRoots, activeChildren) =>
        var _ := ApplyEvenerCollectorUpdate(events, archivedRoots, activeChildren);
    }

    method RemoveArchivedRoots(archivedRoots: set<string>)
      requires WellFormed(table)
      modifies this
      ensures table == DeleteAll(old(table), EvenerArchived(old(table), archivedRoots))
      ensures WellFormed(table)
    {
      DeleteAllClosed(table, EvenerArchived(table, archivedRoots));
      DeleteSet(set k | k in table && k.provider == Evener && table[k].parent.None? && k.session in archivedRoots);
    }

    method RemoveVanishedChildren(active: set<string>)
      requires WellFormed(table)
      modifies this
      ensures table == DeleteAll(old(table), EvenerVanished(old(table), active))
    {
      DeleteSet(set k | k in table && k.provider == Evener && table[k].parent.Some? && k.session !in active);
    }

    method DeleteSet(gone: set<Id>)
      requires WellFormed(table)
      modifies this
      ensures table == DeleteAll(old(table), gone)
    {
      var todo := gone;
      var identities: seq<Id> := [];
      while todo != {}
        invariant todo <= gone && Elements(identities) == gone - todo
        decreases |todo|
      {
        var k :| k in todo;
        assert Elements(identities + [k]) == Elements(identities) + {k};
        identities := identities + [k];
        todo := todo - {k};
      }
      var _ := DeleteEach(identities);
    }
  }

  lemma ClearIs(t: Table, k: Id)
    requires WellFormed(t)
    ensures Apply(t, Clear(k)) == if k in t then WithoutLineage(t, k, HintsOf([])) else t
  {
  }

  lemma ResultsSnoc(t: Table, init: seq<Event>, e: Event)
    requires WellFormed(t)
    ensures EventResults(t, init + [e]) == EventResults(t, init) + [AfterEvent(AfterEvents(t, init), e).1]
  {
    assert (init + [e])[..|init|] == init;
  }

  /** A leaf of the table whose recorded stop no later hook has overtaken. */
  predicate IsStoppedLeaf(t: Table, stop: StoppedTurn) {
    var k := CodexId(stop.session);
    k in t && t[k].updatedAt <= stop.observedAt && !(exists j :: j in t && t[j].parent.Some? && ParentId(j, t[j]) == k)
  }

  predicate NoneLeaf(t: Table, stopped: seq<StoppedTurn>) {
    forall i :: 0 <= i < |stopped| ==> !IsStoppedLeaf(t, stopped[i])
  }

  lemma NoneLeafStep(t: Table, stopped: seq<StoppedTurn>, n: nat)
    requires n < |stopped| && NoneLeaf(t, stopped[..n]) && !IsStoppedLeaf(t, stopped[n])
    ensures NoneLeaf(t, stopped[..n + 1])
  {
    forall i | 0 <= i < n ensures !IsStoppedLeaf(t, stopped[i]) {
      assert stopped[..n][i] == stopped[i];
    }
  }

  /** `u` is `t` with some wholly stopped subtrees peeled away from the leaves up. */
  ghost predicate Peeled(t: Table, u: Table, stopped: seq<StoppedTurn>)
    requires WellFormed(t)
  {
    && AncestorClosed(t, u)
    && forall k :: k in t && k !in u ==> WholeSubtreeStopped(t, stopped, k)
  }

  lemma PeeledWellFormed(t: Table, u: Table, stopped: seq<StoppedTurn>)
    requires WellFormed(t) && Peeled(t, u, stopped)
    ensures WellFormed(u)
  {
    PartWellFormed(t, u);
  }

  /** Deleting a stopped leaf removes that row alone: no cascade fires. */
  lemma LeafDelete(t: Table, k: Id)
    requires WellFormed(t)
    requires !(exists j :: j in t && t[j].parent.Some? && ParentId(j, t[j]) == k)
    ensures Delete(t, k) == t - {k}
  {
    forall j | j in t && Below(NativeLinks(t), j, k) ensures j == k {
      if j != k {
        var c := BelowChild(NativeLinks(t), j, k);
      }
    }
  }

  lemma PeelLeaf(t: Table, u: Table, stopped: seq<StoppedTurn>, n: nat)
    requires WellFormed(t) && Peeled(t, u, stopped) && WellFormed(u)
    requires n < |stopped| && IsStoppedLeaf(u, stopped[n])
    ensures var k := CodexId(stopped[n].session); Delete(u, k) == u - {k} && Peeled(t, u - {k}, stopped)
  {
    var k := CodexId(stopped[n].session);
    LeafDelete(u, k);
    assert ConfirmedStopped(t, stopped, k);
    forall j | j in t && Below(NativeLinks(t), j, k) ensures ConfirmedStopped(t, stopped, j) {
      if j != k {
        var c := BelowChild(NativeLinks(t), j, k);
        assert c in t && ParentId(c, t[c]) == k;
        assert c !in u;
        assert WholeSubtreeStopped(t, stopped, c);
      }
    }
    assert WholeSubtreeStopped(t, stopped, k);
  }

  /** Some leaf lies below every row. */
  lemma {:induction false} LeafBelow(t: Table, k: Id, left: set<Id>) returns (leaf: Id)
    requires WellFormed(t) && k in t
    requires forall j :: j in t && Below(NativeLinks(t), j, k) ==> j in left
    ensures leaf in t && Below(NativeLinks(t), leaf, k)
    ensures !(exists j :: j in t && t[j].parent.Some? && ParentId(j, t[j]) == leaf)
    decreases |left|
  {
    if j :| j in t && t[j].parent.Some? && ParentId(j, t[j]) == k {
      assert Below(NativeLinks(t), j, k);
      forall i | i in t && Below(NativeLinks(t), i, j) ensures i in left - {k} {
        BelowTransitive(NativeLinks(t), i, j, k);
        BelowDepth(NativeLinks(t), i, j);
        BelowDepth(NativeLinks(t), j, k);
      }
      leaf := LeafBelow(t, j, left - {k});
      BelowTransitive(NativeLinks(t), leaf, j, k);
    } else {
      leaf := k;
    }
  }

  /** With no stopped leaf left, everything wholly stopped is gone. */
  lemma PeeledOut(t: Table, u: Table, stopped: seq<StoppedTurn>)
    requires WellFormed(t) && Peeled(t, u, stopped)
    requires NoneLeaf(u, stopped)
    ensures u == WithoutStopped(t, stopped)
  {
    PeeledWellFormed(t, u, stopped);
    forall k | k in u ensures !WholeSubtreeStopped(t, stopped, k) {
      var leaf := LeafBelow(u, k, u.Keys);
      SurvivorBelow(t, u, leaf, k);
      LeafUnconfirmed(t, u, stopped, leaf);
    }
  }

  lemma LeafUnconfirmed(t: Table, u: Table, stopped: seq<StoppedTurn>, leaf: Id)
    requires leaf in u && leaf in t && u[leaf] == t[leaf]
    requires forall j :: j in u && u[j].parent.Some? ==> ParentId(j, u[j]) != leaf
    requires NoneLeaf(u, stopped)
    ensures !ConfirmedStopped(t, stopped, leaf)
  {
    assert forall i :: 0 <= i < |stopped| && leaf == CodexId(stopped[i].session) ==>
             t[leaf].updatedAt > stopped[i].observedAt;
  }

  lemma JoinedSize(states: seq<PaseoState>, n: nat, joined: set<Id>)
    requires n < |states|
    requires joined == set i | 0 <= i < |states| && states[i].agentId == states[n].agentId :: states[i].id
    ensures |joined| == 1 <==> JoinedOnce(states, states[n])
  {
    assert states[n].id in joined;
    if JoinedOnce(states, states[n]) {
      assert joined == {states[n].id};
    }
    if |joined| == 1 {
      forall i | 0 <= i < |states| && states[i].agentId == states[n].agentId ensures states[i].id == states[n].id {
        assert states[i].id in joined;
        assert |joined - {states[n].id}| == 0;
      }
    }
  }

  lemma SeedsAlive(t: Table, seeds: set<Id>, cutoff: Instant, zcodeCutoff: Instant)
    requires forall k :: k in seeds ==> k in t && KeepsAlive(k, t[k], cutoff, zcodeCutoff)
    ensures forall k :: k in seeds ==> KeptAlive(t, k, cutoff, zcodeCutoff)
  {
    forall k | k in seeds ensures KeptAlive(t, k, cutoff, zcodeCutoff) {
      SelfConnected(t, k);
    }
  }

  lemma NeighborsAlive(t: Table, neighbors: map<Id, seq<Id>>, cutoff: Instant, zcodeCutoff: Instant)
    requires WellFormed(t) && forall a, b :: b in Kids(neighbors, a) <==> Adjacent(t, a, b)
    ensures forall a, b :: KeptAlive(t, a, cutoff, zcodeCutoff) && b in Kids(neighbors, a) ==>
                             b in t && KeptAlive(t, b, cutoff, zcodeCutoff)
  {
    forall a, b | KeptAlive(t, a, cutoff, zcodeCutoff) && b in Kids(neighbors, a)
      ensures b in t && KeptAlive(t, b, cutoff, zcodeCutoff)
    {
      assert Adjacent(t, a, b);
      StillAlive(t, a, b, cutoff, zcodeCutoff);
    }
  }

  lemma ClosedKeepsComponents(t: Table, keep: set<Id>, k: Id, cutoff: Instant, zcodeCutoff: Instant)
    requires forall s :: s in t && KeepsAlive(s, t[s], cutoff, zcodeCutoff) ==> s in keep
    requires forall a, b :: a in keep && Adjacent(t, a, b) ==> b in keep
    requires KeptAlive(t, k, cutoff, zcodeCutoff)
    ensures k in keep
  {
    var s :| s in t && KeepsAlive(s, t[s], cutoff, zcodeCutoff) && Connected(t, s, k);
    var path: seq<Id> :| path != [] && path[0] == s && path[|path| - 1] == k && IsWalk(t, path);
    for i := 0 to |path| - 1
      invariant path[i] in keep
    {
      assert Adjacent(t, path[i], path[i + 1]);
    }
  }

  lemma ElementsGrow(s: seq<Id>, n: nat)
    requires Distinct(s) && n < |s|
    ensures s[n] !in Elements(s[..n])
    ensures Elements(s[..n + 1]) == Elements(s[..n]) + {s[n]}
  {
    assert s[..n + 1] == s[..n] + [s[n]];
    assert forall i :: 0 <= i < n ==> s[..n][i] == s[i];
  }

  /** The part of a fact map already scanned. */
  ghost function AmongFirst(all: map<Id, Facts>, scan: seq<Id>, n: nat): map<Id, Facts>
    requires n <= |scan|
  {
    map k | k in all && k in scan[..n] :: all[k]
  }

  lemma AmongStep(all: map<Id, Facts>, scan: seq<Id>, n: nat)
    requires Distinct(scan) && n < |scan|
    ensures scan[n] !in AmongFirst(all, scan, n)
    ensures AmongFirst(all, scan, n + 1) ==
            if scan[n] in all then AmongFirst(all, scan, n)[scan[n] := all[scan[n]]] else AmongFirst(all, scan, n)
  {
    assert scan[..n + 1] == scan[..n] + [scan[n]];
    assert forall i :: 0 <= i < n ==> scan[..n][i] == scan[i];
  }

  lemma FactsAppend(rows: seq<LineageRow>, row: LineageRow)
    requires DistinctIds(rows) && row.id !in FactsOf(rows)
    ensures DistinctIds(rows + [row])
    ensures FactsOf(rows + [row]) == FactsOf(rows)[row.id := row.facts]
  {
    FactsMembers(rows);
    assert (rows + [row])[..|rows|] == rows;
  }

  lemma ViewStep(t: Table, ids: set<Id>, id: Id, k: Id, at: Instant, watermark: Watermark)
    requires id !in ids
    ensures var u := ViewAmong(t, ids, k, at, watermark);
            (id in u <==> id in t) && (id in t ==> u[id] == t[id])
            && ViewAmong(t, ids + {id}, k, at, watermark) ==
               if id in t && ViewReaches(t[id], id == k, watermark) then u[id := ViewedRow(t[id], at)] else u
  {
  }

  lemma AckStep(t: Table, ids: set<Id>, id: Id, at: Instant, watermark: Watermark)
    requires id !in ids
    ensures var u := AckAmong(t, ids, at, watermark);
            (id in u <==> id in t) && (id in t ==> u[id] == t[id])
            && AckAmong(t, ids + {id}, at, watermark) ==
               if id in t && AckReaches(t[id], watermark) then u[id := AckedRow(t[id], at)] else u
  {
  }

  /** Deleting a row that is there leaves fewer rows. */
  lemma DeletedShrinks(t: Table, k: Id)
    requires IsForest(NativeLinks(t)) && k in t
    ensures |Delete(t, k)| < |t|
  {
    var u := Delete(t, k);
    assert Below(NativeLinks(t), k, k);
    assert u.Keys <= t.Keys - {k};
    SubsetSize(u.Keys, t.Keys - {k});
  }

  /** Deleting nothing, and only that, leaves the table as it was. */
  lemma GoneShow(t: Table, gone: set<Id>)
    requires IsForest(NativeLinks(t)) && gone <= t.Keys
    ensures DeleteAll(t, gone) == t <==> gone == {}
  {
    if gone != {} {
      var k :| k in gone;
      assert Below(NativeLinks(t), k, k) && BelowAny(t, k, gone);
    }
  }

  lemma ScannedMore(scan: seq<Id>, k: Id, stale: set<Id>)
    ensures Elements(scan + [k]) * stale == Elements(scan) * stale + (if k in stale then {k} else {})
  {
  }

  lemma RetirementShows(t: Table, s: PaseoState, abandoned: set<Id>)
    requires forall k :: k in abandoned <==> k in t && IsAbandoned(k, t[k], s)
    ensures RotationSynced(t, s) == t <==> |abandoned| == 0
  {
    if abandoned == {} {
      assert forall k :: k in t ==> k !in abandoned;
    } else {
      var k :| k in abandoned;
      assert RotationSynced(t, s)[k].originKind.None?;
    }
  }

  /** No step of a record undoes an earlier one, so a record changes the table when any of its steps does. */
  lemma RecordShows(t: Table, s: PaseoState, backgroundCutoff: Option<Instant>, joined: bool)
    ensures var a := TitleSynced(t, s);
            var b := AttentionSynced(a, s);
            var c := SettleSynced(b, s, backgroundCutoff);
            var d := if joined then RotationSynced(c, s) else c;
            d == t ==> a == t && b == a && c == b && d == c
  {
    var a := TitleSynced(t, s);
    var b := AttentionSynced(a, s);
    var c := SettleSynced(b, s, backgroundCutoff);
    var d := if joined then RotationSynced(c, s) else c;
    if s.id in t && d == t {
      assert d[s.id] == c[s.id];
      RecordRowShows(t, s, backgroundCutoff);
    }
  }

  lemma RecordRowShows(t: Table, s: PaseoState, backgroundCutoff: Option<Instant>)
    requires s.id in t && SettleSynced(AttentionSynced(TitleSynced(t, s), s), s, backgroundCutoff)[s.id] == t[s.id]
    ensures TitleSynced(t, s) == t && AttentionSynced(t, s) == t && SettleSynced(t, s, backgroundCutoff) == t
  {
    var a := TitleSynced(t, s);
    var b := AttentionSynced(a, s);
    var c := SettleSynced(b, s, backgroundCutoff);
    assert c[s.id].title == a[s.id].title;
    assert a == t;
    assert c[s.id].originKind == b[s.id].originKind && c[s.id].originRef == b[s.id].originRef;
    assert b[s.id].unread.Some? ==> c[s.id].unread.Some?;
    assert b[s.id].status == t[s.id].status;
  }

  lemma DeleteMissing(t: Table, k: Id)
    requires WellFormed(t) && k !in t
    ensures Delete(t, k) == t
  {
    forall j | j in t ensures !Below(NativeLinks(t), j, k) {
      NothingBelowMissing(t, j, k);
    }
  }

  lemma {:induction false} NothingBelowMissing(t: Table, j: Id, k: Id)
    requires WellFormed(t) && k !in t && j in t
    ensures !Below(NativeLinks(t), j, k)
    decreases Depth(NativeLinks(t), j)
  {
    if t[j].parent.Some? {
      NothingBelowMissing(t, ParentId(j, t[j]), k);
    }
  }

  lemma SubsetSize<K>(a: set<K>, b: set<K>)
    requires a <= b
    ensures |a| <= |b|
  {
    assert b == a + (b - a);
  }

  predicate AtMost(a: int, b: int) {
    a <= b
  }

  lemma SlotInserted(slots: seq<int>, slot: int)
    requires Sorted(AtMost, slots)
    ensures var more := Insert(AtMost, slots, slot);
            Sorted(AtMost, more) && forall s :: s in more <==> s in slots || s == slot
  {
    InsertSorted(AtMost, slots, slot, Elements(slots) + {slot});
  }
}
