/** What the daemon's upkeep removes and rewrites: the prune's least fixpoint, and the rollout sweep row by row. */
module UpkeepLaws {
  import opened Common
  import opened Forest
  import opened Schema
  import opened RegistrySpec
  import opened RegistryRuns
  import opened ResultLaws
  import R = Registry

  // ----- the prune -----

  /** Inside its provider's lease, unread, or read but finished and not yet expired. */
  predicate Live(k: Id, row: Row, cutoff: Instant, zcodeCutoff: Instant) {
    || (k.provider == Zcode && row.updatedAt >= zcodeCutoff) || (k.provider != Zcode && row.updatedAt >= cutoff)
    || row.unread.Some? || (row.viewed.Some? && row.done.Some?) || (row.viewed.Some? && row.status == Error)
  }

  /** One is the other's parent, natively or by resolved lineage. */
  ghost predicate Kin(t: Table, a: Id, b: Id) {
    ParentOf(t, a, b) || ParentOf(t, b, a)
  }

  ghost predicate ParentOf(t: Table, a: Id, b: Id) {
    || (b in t && t[b].parent == Some(a.session) && a.provider == b.provider)
    || (b in PaseoLinks(t) && PaseoLinks(t)[b] == a)
  }

  /** A set of rows that leaves no relative out. */
  ghost predicate KinClosed(t: Table, rows: set<Id>) {
    forall a, b :: a in rows && Kin(t, a, b) ==> b in rows
  }

  lemma KinIsAdjacent(t: Table, a: Id, b: Id)
    ensures Kin(t, a, b) <==> Adjacent(t, a, b)
  {
  }

  lemma LiveKeepsAlive(t: Table, cutoff: Instant, zcodeCutoff: Instant)
    ensures forall k :: k in t ==> (KeepsAlive(k, t[k], cutoff, zcodeCutoff) <==> Live(k, t[k], cutoff, zcodeCutoff))
  {
  }

  /** A prune keeps every live row and every relative of a kept one, changing none. */
  lemma PruneKeepsLive(t: Table, cutoff: Instant, zcodeCutoff: Instant)
    requires Inv(t)
    ensures var u := AfterPrune(t, cutoff, zcodeCutoff);
            (forall k :: k in u ==> k in t && u[k] == t[k])
            && (forall k :: k in t && Live(k, t[k], cutoff, zcodeCutoff) ==> k in u) && KinClosed(t, u.Keys)
  {
    var u := AfterPrune(t, cutoff, zcodeCutoff);
    LiveKeepsAlive(t, cutoff, zcodeCutoff);
    PruneExactly(t, cutoff, zcodeCutoff);
    forall a, b | a in u && Kin(t, a, b) ensures b in u {
      KinIsAdjacent(t, a, b);
      StillAlive(t, a, b, cutoff, zcodeCutoff);
    }
  }

  /** And nothing more: what it keeps is in every set that holds the live rows and leaves no relative out. */
  lemma PruneKeepsLeast(t: Table, cutoff: Instant, zcodeCutoff: Instant, rows: set<Id>)
    requires Inv(t) && KinClosed(t, rows)
    requires forall k :: k in t && Live(k, t[k], cutoff, zcodeCutoff) ==> k in rows
    ensures AfterPrune(t, cutoff, zcodeCutoff).Keys <= rows
  {
    PruneExactly(t, cutoff, zcodeCutoff);
    forall k | k in AfterPrune(t, cutoff, zcodeCutoff) ensures k in rows {
      KeptInClosed(t, cutoff, zcodeCutoff, rows, k);
    }
  }

  lemma KeptInClosed(t: Table, cutoff: Instant, zcodeCutoff: Instant, rows: set<Id>, k: Id)
    requires KinClosed(t, rows) && KeptAlive(t, k, cutoff, zcodeCutoff)
    requires forall s :: s in t && Live(s, t[s], cutoff, zcodeCutoff) ==> s in rows
    ensures k in rows
  {
    LiveKeepsAlive(t, cutoff, zcodeCutoff);
    forall a, b | a in rows && Adjacent(t, a, b) ensures b in rows {
      KinIsAdjacent(t, a, b);
    }
    R.ClosedKeepsComponents(t, rows, k, cutoff, zcodeCutoff);
  }

  // ----- one recorded child -----

  /** A rollout's facts fill in what they know; its turn counts unless the row's own hooks are newer. */
  ghost predicate ChildTurns(a: Row, b: Row, c: CodexChild) {
    && b.parent == a.parent && b.openedAt == a.openedAt && b.background == a.background && b.project == a.project
    && SameLedgers(a, b) && SameOrigin(a, b) && b.slot == a.slot
    && b.title == (if c.title.Some? then c.title else a.title)
    && b.model == (if c.model.Some? then c.model else a.model) && b.transcriptPath == Some(c.transcriptPath)
    && if StopCounts(a, c) then Turns(a, b, Idle, c.turn.value.observedAt) && b.updatedAt == c.turn.value.observedAt
       else if WorkCounts(a, c)
       then Turns(a, b, Working, c.turn.value.startedAt) && b.updatedAt == Later(a.updatedAt, c.turn.value.observedAt)
       else b.status == a.status && b.statusSince == a.statusSince && b.updatedAt == a.updatedAt
  }

  predicate StopCounts(a: Row, c: CodexChild) {
    c.turn.Some? && c.turn.value.status == TurnStopped && a.updatedAt <= c.turn.value.observedAt
  }

  /** Work counts unless the row has heard a newer hook; a row that has heard none since it opened idle has not. */
  predicate WorkCounts(a: Row, c: CodexChild) {
    && c.turn.Some? && c.turn.value.status == TurnWorking
    && (a.updatedAt <= c.turn.value.observedAt || (a.status == Idle && a.updatedAt == a.openedAt))
  }

  function Later(a: Instant, b: Instant): Instant {
    if a < b then b else a
  }

  /** A known child of the parent its rollout names is brought up to date; nothing else changes. */
  lemma KnownChild(t: Table, c: CodexChild)
    requires WellFormed(t) && CodexId(c.session) in t && t[CodexId(c.session)].parent == Some(c.parentSession)
    ensures var k, u := CodexId(c.session), AfterCodexChild(t, c);
            OnlyRow(t, u, k) && ChildTurns(t[k], u[k], c)
  {
    KnownRow(t[CodexId(c.session)], c);
  }

  lemma KnownRow(row: Row, c: CodexChild)
    ensures var facts := if CodexFactsDiffer(row, c) then CodexFactsRow(row, c) else row;
            ChildTurns(row, CodexTurnRow(facts, StopCounts(row, c), WorkCounts(row, c), c.turn), c)
  {
  }

  /** A child working under a known parent since that parent opened. */
  predicate Admissible(t: Table, c: CodexChild) {
    var p := CodexId(c.parentSession);
    && CodexId(c.session) !in t && p in t
    && c.turn.Some? && c.turn.value.status == TurnWorking && t[p].openedAt <= c.turn.value.startedAt
  }

  /** A working child is registered, under its parent and its project; any other rollout changes nothing. */
  lemma NewChild(t: Table, c: CodexChild)
    requires WellFormed(t) && !(CodexId(c.session) in t && t[CodexId(c.session)].parent == Some(c.parentSession))
    ensures var k, u := CodexId(c.session), AfterCodexChild(t, c);
            if Admissible(t, c)
            then u.Keys == t.Keys + {k} && Registered(t, u[k], c) && forall j :: j in t ==> u[j] == t[j]
            else u == t
  {
    if Admissible(t, c) {
      UnknownNotAbove(t, CodexId(c.parentSession), CodexId(c.session));
    }
  }

  ghost predicate Registered(t: Table, b: Row, c: CodexChild)
    requires Admissible(t, c)
  {
    var turn := c.turn.value;
    && b.parent == Some(c.parentSession) && b.slot.None? && b.project == t[CodexId(c.parentSession)].project
    && b.title == c.title && b.model == c.model && b.transcriptPath == Some(c.transcriptPath)
    && b.status == Working && b.openedAt == turn.startedAt && b.statusSince == Some(turn.startedAt)
    && b.updatedAt == Later(turn.startedAt, turn.observedAt)
    && b.unread.None? && b.done.None? && b.viewed.None? && b.acked.None? && !b.background
  }

  lemma {:induction false} UnknownNotAbove(t: Table, j: Id, k: Id)
    requires WellFormed(t) && j in t && k !in t
    ensures !Below(NativeLinks(t), j, k)
    decreases Depth(NativeLinks(t), j)
  {
    if t[j].parent.Some? {
      UnknownNotAbove(t, ParentId(j, t[j]), k);
    }
  }

  // ----- a whole sweep -----

  ghost predicate OneRecordEach(children: seq<CodexChild>) {
    forall i, j :: 0 <= i < j < |children| ==> children[i].session != children[j].session
  }

  predicate Recorded(children: seq<CodexChild>, j: Id) {
    exists i :: 0 <= i < |children| && CodexId(children[i].session) == j
  }

  /** The sweep has the row's stop on record: a rollout of that child whose turn stopped at or after its last hook. */
  predicate StopOnRecord(t: Table, children: seq<CodexChild>, j: Id) {
    j in t && exists i :: 0 <= i < |children| && StopsRow(t, children[i], j)
  }

  predicate StopsRow(t: Table, c: CodexChild, j: Id)
    requires j in t
  {
    CodexId(c.session) == j && t[j].parent == Some(c.parentSession) && StopCounts(t[j], c)
  }

  /** How the rows and confirmed stops stand after the records so far. */
  ghost predicate SweptTo(t: Table, children: seq<CodexChild>, v: Table, stopped: seq<StoppedTurn>, j: Id) {
    && (!Recorded(children, j) ==>
          (j in v <==> j in t) && (j in t ==> v[j] == t[j])
          && forall i :: 0 <= i < |stopped| ==> CodexId(stopped[i].session) != j)
    && (ConfirmedStopped(v, stopped, j) <==> j in v && StopOnRecord(t, children, j))
  }

  lemma {:induction false} SweptRow(t: Table, children: seq<CodexChild>, j: Id)
    requires WellFormed(t) && OneRecordEach(children)
    ensures SweptTo(t, children, AfterCodexChildren(t, children).0, AfterCodexChildren(t, children).1, j)
  {
    if children != [] {
      var init, c := children[..|children| - 1], children[|children| - 1];
      var (v, stopped) := AfterCodexChildren(t, init);
      SweptRow(t, init, j);
      RecordedSnoc(init, c, j);
      StopsSnoc(t, init, c, j);
      assert children == init + [c];
      if CodexId(c.session) == j {
        assert !Recorded(init, j);
        SweptHere(t, init, v, stopped, c, j);
      } else {
        SweptElsewhere(t, init, v, stopped, c, j);
      }
    }
  }

  lemma RecordedSnoc(init: seq<CodexChild>, c: CodexChild, j: Id)
    ensures Recorded(init + [c], j) <==> Recorded(init, j) || CodexId(c.session) == j
  {
    var children := init + [c];
    assert children[|init|] == c;
    if Recorded(init, j) {
      var i :| 0 <= i < |init| && CodexId(init[i].session) == j;
      assert children[i] == init[i];
    }
  }

  lemma StopsSnoc(t: Table, init: seq<CodexChild>, c: CodexChild, j: Id)
    ensures StopOnRecord(t, init + [c], j) <==> StopOnRecord(t, init, j) || (j in t && StopsRow(t, c, j))
  {
    var children := init + [c];
    assert children[|init|] == c;
    if StopOnRecord(t, init, j) {
      var i :| 0 <= i < |init| && StopsRow(t, init[i], j);
      assert children[i] == init[i];
    }
  }

  /** Another child's record. */
  lemma SweptElsewhere(t: Table, init: seq<CodexChild>, v: Table, stopped: seq<StoppedTurn>, c: CodexChild, j: Id)
    requires WellFormed(v) && CodexId(c.session) != j && SweptTo(t, init, v, stopped, j)
    ensures SweptTo(t, init + [c], AfterCodexChild(v, c), stopped + CodexConfirms(v, c), j)
  {
    RecordedSnoc(init, c, j);
    StopsSnoc(t, init, c, j);
    ChildElsewhere(v, c, j);
    var more := stopped + CodexConfirms(v, c);
    assert forall i :: 0 <= i < |stopped| ==> more[i] == stopped[i];
    assert forall i :: |stopped| <= i < |more| ==> more[i].session == c.session;
  }

  lemma ChildElsewhere(t: Table, c: CodexChild, j: Id)
    requires WellFormed(t) && CodexId(c.session) != j
    ensures var u := AfterCodexChild(t, c); (j in u <==> j in t) && (j in t ==> u[j] == t[j])
  {
    if CodexId(c.session) in t && t[CodexId(c.session)].parent == Some(c.parentSession) {
      KnownChild(t, c);
    } else {
      NewChild(t, c);
    }
  }

  /** The child's own record, the first of the sweep that names it. */
  lemma SweptHere(t: Table, init: seq<CodexChild>, v: Table, stopped: seq<StoppedTurn>, c: CodexChild, j: Id)
    requires WellFormed(v) && CodexId(c.session) == j && !Recorded(init, j) && SweptTo(t, init, v, stopped, j)
    ensures SweptTo(t, init + [c], AfterCodexChild(v, c), stopped + CodexConfirms(v, c), j)
  {
    var u, confirms := AfterCodexChild(v, c), CodexConfirms(v, c);
    RecordedSnoc(init, c, j);
    StopsSnoc(t, init, c, j);
    assert !StopOnRecord(t, init, j);
    if j in v && v[j].parent == Some(c.parentSession) {
      KnownChild(v, c);
      ConfirmsKnown(v, c);
      assert StopCounts(v[j], c) ==> confirms[0] == StoppedTurn(j.session, u[j].updatedAt);
      assert ConfirmedStopped(u, confirms, j) <==> StopCounts(v[j], c);
    } else {
      NewChild(v, c);
      ConfirmsUnknown(v, c);
    }
    ConfirmedAnew(u, stopped, confirms, j);
  }

  lemma ConfirmsKnown(t: Table, c: CodexChild)
    requires WellFormed(t) && CodexId(c.session) in t && t[CodexId(c.session)].parent == Some(c.parentSession)
    ensures CodexConfirms(t, c) == if StopCounts(t[CodexId(c.session)], c)
                                   then [StoppedTurn(c.session, c.turn.value.observedAt)] else []
  {
  }

  lemma ConfirmsUnknown(t: Table, c: CodexChild)
    requires WellFormed(t) && !(CodexId(c.session) in t && t[CodexId(c.session)].parent == Some(c.parentSession))
    ensures CodexConfirms(t, c) == []
  {
  }

  /** With no earlier stop of its own, a row is confirmed by the new ones alone. */
  lemma ConfirmedAnew(t: Table, stopped: seq<StoppedTurn>, more: seq<StoppedTurn>, j: Id)
    requires forall i :: 0 <= i < |stopped| ==> CodexId(stopped[i].session) != j
    ensures ConfirmedStopped(t, stopped + more, j) <==> ConfirmedStopped(t, more, j)
  {
    var all := stopped + more;
    assert forall i :: 0 <= i < |more| ==> more[i] == all[|stopped| + i];
    assert forall i :: 0 <= i < |stopped| ==> all[i] == stopped[i];
    if ConfirmedStopped(t, all, j) {
      var i :| 0 <= i < |all| && all[i].session == j.session && t[j].updatedAt <= all[i].observedAt;
      assert i < |stopped| ==> CodexId(all[i].session) != j;
      assert more[i - |stopped|] == all[i];
    }
  }

  /**
   * A sweep with one record for each child removes a row exactly when it has on
   * record the stop of the row and of everything below it, the newly
   * registered included; what it keeps is as the records left it.
   */
  lemma SweepRemovesExactly(t: Table, children: seq<CodexChild>)
    requires WellFormed(t) && OneRecordEach(children)
    ensures var v, u := AfterCodexChildren(t, children).0, AfterCodexSync(t, children);
            WellFormed(v)
            && forall k :: k in v ==>
                 (k !in u <==> forall j :: j in v && Below(NativeLinks(v), j, k) ==> StopOnRecord(t, children, j))
                 && (k in u ==> u[k] == v[k])
  {
    var (v, stopped) := AfterCodexChildren(t, children);
    forall j | j in v ensures ConfirmedStopped(v, stopped, j) <==> StopOnRecord(t, children, j) {
      SweptRow(t, children, j);
    }
  }

  // ----- the Evener feed and resolved facts -----

  /** The feed's archived roots leave with everything below them, and the children it no longer lists with theirs. */
  ghost predicate FeedRemoves(v: Table, archivedRoots: set<string>, activeChildren: Option<set<string>>, k: Id)
    requires IsForest(NativeLinks(v))
  {
    exists d :: d in v && d.provider == Evener && Below(NativeLinks(v), k, d)
                && if v[d].parent.None? then d.session in archivedRoots
                   else activeChildren.Some? && d.session !in activeChildren.value
  }

  lemma FeedRemovesExactly(t: Table, events: seq<Event>, archivedRoots: set<string>,
                           activeChildren: Option<set<string>>)
    requires WellFormed(t)
    ensures var v, u := AfterEvents(t, events), AfterEvener(t, events, archivedRoots, activeChildren);
            Loses(v, u, set k | k in v && FeedRemoves(v, archivedRoots, activeChildren, k))
  {
    var v, u := AfterEvents(t, events), AfterEvener(t, events, archivedRoots, activeChildren);
    forall k | k in v ensures k in u <==> !FeedRemoves(v, archivedRoots, activeChildren, k) {
      FeedRemovesRow(v, archivedRoots, activeChildren, k);
    }
  }

  ghost function AfterFeed(v: Table, archivedRoots: set<string>, activeChildren: Option<set<string>>): Table
    requires WellFormed(v)
  {
    DeleteAllClosed(v, EvenerArchived(v, archivedRoots));
    var w := DeleteAll(v, EvenerArchived(v, archivedRoots));
    if activeChildren.None? then w else DeleteAll(w, EvenerVanished(w, activeChildren.value))
  }

  lemma FeedRemovesRow(v: Table, archivedRoots: set<string>, activeChildren: Option<set<string>>, k: Id)
    requires WellFormed(v) && k in v
    ensures k in AfterFeed(v, archivedRoots, activeChildren) <==> !FeedRemoves(v, archivedRoots, activeChildren, k)
    ensures k in AfterFeed(v, archivedRoots, activeChildren) ==> AfterFeed(v, archivedRoots, activeChildren)[k] == v[k]
  {
    var gone := EvenerArchived(v, archivedRoots);
    DeleteAllClosed(v, gone);
    var w := DeleteAll(v, gone);
    if BelowAny(v, k, gone) {
      var d :| d in gone && Below(NativeLinks(v), k, d);
      assert FeedRemoves(v, archivedRoots, activeChildren, k);
    } else {
      if activeChildren.Some? && BelowAny(w, k, EvenerVanished(w, activeChildren.value)) {
        var d :| d in EvenerVanished(w, activeChildren.value) && Below(NativeLinks(w), k, d);
        SurvivorBelow(v, w, k, d);
        assert FeedRemoves(v, archivedRoots, activeChildren, k);
      }
      if FeedRemoves(v, archivedRoots, activeChildren, k) {
        VanishedAbove(v, archivedRoots, activeChildren, k);
      }
    }
  }

  /** A removed row with no archived root above it has a vanished child above it, itself still there. */
  lemma VanishedAbove(v: Table, archivedRoots: set<string>, activeChildren: Option<set<string>>, k: Id)
    requires WellFormed(v) && k in v && FeedRemoves(v, archivedRoots, activeChildren, k)
    requires !BelowAny(v, k, EvenerArchived(v, archivedRoots))
    ensures var w := DeleteAll(v, EvenerArchived(v, archivedRoots));
            activeChildren.Some? && WellFormed(w) && BelowAny(w, k, EvenerVanished(w, activeChildren.value))
  {
    var gone := EvenerArchived(v, archivedRoots);
    DeleteAllClosed(v, gone);
    var w := DeleteAll(v, gone);
    var d :| d in v && d.provider == Evener && Below(NativeLinks(v), k, d)
             && if v[d].parent.None? then d.session in archivedRoots
                else activeChildren.Some? && d.session !in activeChildren.value;
    assert v[d].parent.None? ==> d in gone;
    SurvivorAbove(v, gone, k, d);
    SurvivorBelow(v, w, k, d);
    assert d in EvenerVanished(w, activeChildren.value);
  }

  lemma SurvivorAbove(v: Table, gone: set<Id>, k: Id, d: Id)
    requires WellFormed(v) && k in v && !BelowAny(v, k, gone) && d in v && Below(NativeLinks(v), k, d)
    ensures !BelowAny(v, d, gone)
  {
    if BelowAny(v, d, gone) {
      var g :| g in gone && Below(NativeLinks(v), d, g);
      BelowTransitive(NativeLinks(v), k, d, g);
    }
  }

  /** One resolved fact: the column it is for, on the row it is for; a Paseo row's title is the overlay's. */
  lemma FactLands(t: Table, f: FactUpdate)
    ensures var u := AfterFact(t, f);
            u.Keys == t.Keys && (forall j :: j in t && j != f.id ==> u[j] == t[j])
            && (f.id in t ==>
                  match f
                  case TitleUpdate(id, title) =>
                    u[id] == if t[id].originKind == Some(Paseo) then t[id] else t[id].(title := Some(title))
                  case ModelUpdate(id, model) => u[id] == t[id].(model := Some(model))
                  case ActivityLineUpdate(id, line) => u[id] == t[id].(activityLine := Some(line)))
  {
  }
}
