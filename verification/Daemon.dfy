/** The daemon's poll over the registry: maintenance, the version fast path, and publication. */
module Daemon {
  import opened Common
  import opened Schema
  import opened RegistrySpec
  import opened RegistryRuns
  import opened ProjectionSpec
  import opened Pipeline
  import R = Registry

  /** What the snapshot file says: a projection, or a fixed health code. */
  datatype Publication = Well(projection: Projected) | Sick(code: string)

  /** The shared database as the daemon's connection sees it. */
  datatype World = World(table: Table, version: int)

  /** The daemon's own writes; a rollout sweep carries the data version it began at. */
  datatype Upkeep =
    | CodexPass(children: seq<CodexChild>, dataVersion: int)
    | FactPass(updates: seq<FactUpdate>)
    | PaseoPass(states: seq<PaseoState>, backgroundCutoff: Option<Instant>)
    | SweepPass(cutoff: Instant, at: Instant)
    | PrunePass(cutoff: Instant, zcodeCutoff: Instant)

  /** A maintenance step of the daemon, or an operation committed by another connection. */
  datatype Commit = Own(step: Upkeep) | External(op: Op)

  /** The daemon between polls. `published` is the file, the last snapshot and the last JSON at once. */
  datatype State = State(connected: bool, healthy: bool, lastVersion: Option<int>, published: Option<Publication>)

  /**
   * Everything one poll may meet. A maintenance step that throws ends its list; a failed read or write is a false
   * flag.
   */
  datatype Poll = Poll(
    between: seq<Op>, reopened: Option<int>, openCode: string, maintenance: seq<Commit>,
    versionRead: bool, late: seq<Op>, projectionRead: bool, code: string, written: bool)

  // ----- commits -----

  function OpOf(step: Upkeep): Op {
    match step
    case CodexPass(children, _) => CodexSync(children)
    case FactPass(updates) => UpdateFacts(updates)
    case PaseoPass(states, backgroundCutoff) => PaseoSync(states, backgroundCutoff)
    case SweepPass(cutoff, at) => Sweep(cutoff, at)
    case PrunePass(cutoff, zcodeCutoff) => Prune(cutoff, zcodeCutoff)
  }

  /** A rollout sweep is dropped when another connection has committed since it began. */
  predicate Applies(w: World, step: Upkeep) {
    step.CodexPass? ==> step.dataVersion == w.version
  }

  /** Own commits leave the version alone; every other connection's bumps it. */
  ghost function Committed(w: World, c: Commit): (u: World)
    requires WellFormed(w.table)
    ensures WellFormed(u.table) && w.version <= u.version
  {
    match c
    case Own(step) => if Applies(w, step) then World(Apply(w.table, OpOf(step)), w.version) else w
    case External(op) => World(Apply(w.table, op), w.version + 1)
  }

  /** Whether a maintenance step reports changed rows. */
  ghost predicate Reports(w: World, c: Commit)
    requires WellFormed(w.table)
  {
    c.Own? && Applies(w, c.step) && Stirs(w.table, OpOf(c.step))
  }

  ghost function Maintained(w: World, commits: seq<Commit>): (u: World)
    requires WellFormed(w.table)
    ensures WellFormed(u.table) && w.version <= u.version
  {
    if commits == [] then w else Committed(Maintained(w, commits[..|commits| - 1]), commits[|commits| - 1])
  }

  ghost predicate ReportsChange(w: World, commits: seq<Commit>)
    requires WellFormed(w.table)
  {
    commits != []
    && (ReportsChange(w, commits[..|commits| - 1])
        || Reports(Maintained(w, commits[..|commits| - 1]), commits[|commits| - 1]))
  }

  function Outside(ops: seq<Op>): seq<Commit> {
    seq(|ops|, i requires 0 <= i < |ops| => External(ops[i]))
  }

  /** The table each maintenance step leaves, by the registry method it calls. */
  ghost function StepTable(t: Table, version: int, step: Upkeep): Table
    requires WellFormed(t)
  {
    match step
    case CodexPass(children, dataVersion) => if version == dataVersion then AfterCodexSync(t, children) else t
    case FactPass(updates) => AfterFacts(t, updates)
    case PaseoPass(states, backgroundCutoff) => AfterPaseoStates(t, states, states, backgroundCutoff)
    case SweepPass(cutoff, at) => AfterSweep(t, cutoff, at)
    case PrunePass(cutoff, zcodeCutoff) => AfterPrune(t, cutoff, zcodeCutoff)
  }

  ghost predicate StepStirs(t: Table, version: int, step: Upkeep)
    requires WellFormed(t)
  {
    match step
    case CodexPass(children, dataVersion) => version == dataVersion && CodexSyncStirs(t, children)
    case FactPass(updates) => FactsStir(t, updates)
    case PaseoPass(states, backgroundCutoff) => PaseoStirs(t, states, states, backgroundCutoff)
    case SweepPass(cutoff, at) => AfterSweep(t, cutoff, at) != t
    case PrunePass(cutoff, zcodeCutoff) => AfterPrune(t, cutoff, zcodeCutoff) != t
  }

  lemma {:induction false} StepLeaves(t: Table, version: int, step: Upkeep)
    requires WellFormed(t)
    ensures StepTable(t, version, step) == if Applies(World(t, version), step) then Apply(t, OpOf(step)) else t
  {
    match step
    case CodexPass(children, _) => ApplyCodex(t, OpOf(step));
    case FactPass(updates) => ApplyFacts(t, updates);
    case PaseoPass(states, backgroundCutoff) => ApplyPaseo(t, states, backgroundCutoff);
    case SweepPass(cutoff, at) => ApplySweep(t, cutoff, at);
    case PrunePass(cutoff, zcodeCutoff) => ApplyPrune(t, cutoff, zcodeCutoff);
  }

  lemma {:induction false} ApplyCodex(t: Table, op: Op)
    requires WellFormed(t) && op.CodexSync?
    ensures Apply(t, op) == AfterCodexSync(t, op.children)
  {
  }

  lemma {:induction false} ApplyFacts(t: Table, updates: seq<FactUpdate>)
    requires WellFormed(t)
    ensures Apply(t, UpdateFacts(updates)) == AfterFacts(t, updates)
  {
  }

  lemma {:induction false} ApplyPaseo(t: Table, states: seq<PaseoState>, backgroundCutoff: Option<Instant>)
    requires WellFormed(t)
    ensures Apply(t, PaseoSync(states, backgroundCutoff)) == AfterPaseoStates(t, states, states, backgroundCutoff)
  {
  }

  lemma {:induction false} ApplySweep(t: Table, cutoff: Instant, at: Instant)
    requires WellFormed(t)
    ensures Apply(t, Sweep(cutoff, at)) == AfterSweep(t, cutoff, at)
  {
  }

  lemma {:induction false} ApplyPrune(t: Table, cutoff: Instant, zcodeCutoff: Instant)
    requires WellFormed(t)
    ensures Apply(t, Prune(cutoff, zcodeCutoff)) == AfterPrune(t, cutoff, zcodeCutoff)
  {
  }

  lemma {:induction false} StepReports(t: Table, version: int, step: Upkeep)
    requires WellFormed(t)
    ensures StepStirs(t, version, step) <==> Applies(World(t, version), step) && Stirs(t, OpOf(step))
  {
  }

  lemma {:induction false} StepIs(w: World, step: Upkeep)
    requires WellFormed(w.table)
    ensures Committed(w, Own(step)) == World(StepTable(w.table, w.version, step), w.version)
    ensures Reports(w, Own(step)) <==> StepStirs(w.table, w.version, step)
  {
    StepLeaves(w.table, w.version, step);
    StepReports(w.table, w.version, step);
  }

  /** A rollout sweep that began before another connection's commit is dropped whole. */
  lemma {:induction false} StaleSweepDropped(w: World, children: seq<CodexChild>, dataVersion: int)
    requires WellFormed(w.table) && dataVersion != w.version
    ensures Committed(w, Own(CodexPass(children, dataVersion))) == w
    ensures !Reports(w, Own(CodexPass(children, dataVersion)))
  {
  }

  // ----- publication -----

  function PublishUnhealthy(s: State, code: string, written: bool): State {
    if s.published == Some(Sick(code)) || !written then s.(healthy := false)
    else s.(healthy := false, published := Some(Sick(code)))
  }

  function PublishHealthy(s: State, projection: Projected, version: int, written: bool): State {
    if s.published == Some(Well(projection)) then s.(lastVersion := Some(version), healthy := true)
    else if !written then s
    else State(s.connected, true, Some(version), Some(Well(projection)))
  }

  /** Nothing to do: no maintenance step reported a change and the version has not moved since a healthy publication. */
  predicate Skips(s: State, version: int, changed: bool) {
    !changed && s.healthy && s.lastVersion == Some(version)
  }

  /** The poll proper, once connected and maintained. */
  ghost function ReadAndPublish(s: State, w: World, changed: bool, p: Poll): (r: (State, World))
    requires WellFormed(w.table)
    ensures WellFormed(r.1.table)
  {
    if !p.versionRead then (PublishUnhealthy(s.(connected := false), p.code, p.written), w)
    else if Skips(s, w.version, changed) then (s, w)
    else
      var v := Maintained(w, Outside(p.late));
      if !p.projectionRead then (PublishUnhealthy(s, p.code, p.written), v)
      else (PublishHealthy(s, SnapshotOf(v.table), w.version, p.written), v)
  }

  /** The world maintenance starts from: a kept connection's, or a fresh connection's with a version of its own. */
  ghost function Start(s: State, w: World, p: Poll): (u: World)
    requires WellFormed(w.table)
    ensures WellFormed(u.table)
  {
    var before := Maintained(w, Outside(p.between));
    if s.connected || p.reopened.None? then before else World(before.table, p.reopened.value)
  }

  ghost function Polled(s: State, w: World, p: Poll): (r: (State, World))
    requires WellFormed(w.table)
    ensures WellFormed(r.1.table)
  {
    var start := Start(s, w, p);
    if !s.connected && p.reopened.None? then (PublishUnhealthy(s, p.openCode, p.written), start)
    else ReadAndPublish(s.(connected := true), Maintained(start, p.maintenance), ReportsChange(start, p.maintenance), p)
  }

  // ----- the daemon -----

  class ProjectionDaemon {
    const registry: R.Registry
    var version: int
    var state: State

    constructor (registry: R.Registry, version: int)
      ensures this.registry == registry && this.version == version && state == State(false, false, None, None)
    {
      this.registry, this.version, state := registry, version, State(false, false, None, None);
    }

    ghost function Sees(): World
      reads this, registry
    {
      World(registry.table, version)
    }

    /** One of the daemon's own writes; says whether it reported changed rows. */
    method RunStep(step: Upkeep) returns (changed: nat)
      requires WellFormed(registry.table)
      modifies registry
      ensures Sees() == Committed(old(Sees()), Own(step))
      ensures changed > 0 <==> Reports(old(Sees()), Own(step))
    {
      StepIs(Sees(), step);
      changed := CallStep(step);
    }

    method CallStep(step: Upkeep) returns (changed: nat)
      requires WellFormed(registry.table)
      modifies registry
      ensures registry.table == StepTable(old(registry.table), version, step)
      ensures changed > 0 <==> StepStirs(old(registry.table), version, step)
    {
      match step
      case CodexPass(children, dataVersion) => changed := registry.SyncCodexSubagents(children, dataVersion, version);
      case FactPass(updates) => changed := registry.UpdateSessionFacts(updates);
      case PaseoPass(states, backgroundCutoff) => changed := registry.SyncPaseoStates(states, backgroundCutoff);
      case SweepPass(cutoff, at) => changed := registry.SweepExpiredResults(cutoff, at);
      case PrunePass(cutoff, zcodeCutoff) => changed := registry.PruneStaleSessions(cutoff, zcodeCutoff);
    }

    /**
     * Time-based upkeep, with other connections' commits falling between; each step's change is noted as it
     * commits.
     */
    method Maintain(commits: seq<Commit>) returns (changed: bool)
      requires WellFormed(registry.table)
      modifies this`version, registry
      ensures Sees() == Maintained(old(Sees()), commits) && changed == ReportsChange(old(Sees()), commits)
    {
      changed := false;
      for n := 0 to |commits|
        invariant Sees() == Maintained(old(Sees()), commits[..n])
        invariant changed == ReportsChange(old(Sees()), commits[..n])
      {
        CommitsStep(old(Sees()), commits, n);
        match commits[n]
        case Own(step) =>
          var count := RunStep(step);
          if count > 0 {
            changed := true;
          }
        case External(op) =>
          registry.Perform(op);
          version := version + 1;
      }
      TakeAll(commits);
    }

    /** One read transaction: every row, in whatever order, projected. */
    method ReadProjection() returns (p: Projected)
      requires WellFormed(registry.table)
      ensures p == SnapshotOf(registry.table)
    {
      var scan := registry.SelectIds();
      var table := registry.table;
      assert forall i :: 0 <= i < |scan| ==> scan[i] in scan;
      var rows := seq(|scan|, i requires 0 <= i < |scan| && scan[i] in table => Entry(scan[i], table[scan[i]]));
      RowsEnumerate(table, scan, rows);
      p := ProjectTable(table, rows);
    }

    /** Connect if need be, maintain, and then skip, project or report the failure. */
    method PollOnce(p: Poll)
      requires WellFormed(registry.table)
      modifies this`version, this`state, registry
      ensures (state, Sees()) == Polled(old(state), old(Sees()), p)
    {
      var _ := Maintain(Outside(p.between));
      if !state.connected {
        if p.reopened.None? {
          state := PublishUnhealthy(state, p.openCode, p.written);
          return;
        }
        version := p.reopened.value;
        state := state.(connected := true);
      }
      var changed := Maintain(p.maintenance);
      Finish(p, changed);
    }

    /** The rest of a poll: the version check, the fast path, and publication. */
    method Finish(p: Poll, changed: bool)
      requires WellFormed(registry.table)
      modifies this`version, this`state, registry
      ensures (state, Sees()) == ReadAndPublish(old(state), old(Sees()), changed, p)
    {
      if !p.versionRead {
        state := PublishUnhealthy(state.(connected := false), p.code, p.written);
        return;
      }
      var dataVersion := version;
      if Skips(state, dataVersion, changed) {
        return;
      }
      var _ := Maintain(Outside(p.late));
      if !p.projectionRead {
        state := PublishUnhealthy(state, p.code, p.written);
        return;
      }
      var snapshot := ReadProjection();
      state := PublishHealthy(state, snapshot, dataVersion, p.written);
    }
  }

  lemma CommitsStep(w: World, commits: seq<Commit>, n: nat)
    requires WellFormed(w.table) && n < |commits|
    ensures Maintained(w, commits[..n + 1]) == Committed(Maintained(w, commits[..n]), commits[n])
    ensures ReportsChange(w, commits[..n + 1])
            <==> ReportsChange(w, commits[..n]) || Reports(Maintained(w, commits[..n]), commits[n])
  {
    assert commits[..n + 1][..n] == commits[..n];
  }

  lemma RowsEnumerate(t: Table, scan: seq<Id>, rows: seq<Entry>)
    requires Lists(scan, t.Keys) && |rows| == |scan|
    requires forall i :: 0 <= i < |scan| ==> scan[i] in t && rows[i] == Entry(scan[i], t[scan[i]])
    ensures Enumerates(rows, t)
  {
    forall k | k in t ensures HasEntry(rows, k) {
      assert k in scan;
      var i :| 0 <= i < |scan| && scan[i] == k;
      assert rows[i].id == k;
    }
  }

  // ----- soundness of the fast path -----

  /** The file shows the table. */
  ghost predicate Shows(s: State, t: Table)
    requires WellFormed(t)
  {
    s.published == Some(Well(SnapshotOf(t)))
  }

  /** While healthy, an unchanged version means the file still shows the table. */
  ghost predicate Sound(s: State, w: World)
    requires WellFormed(w.table)
  {
    s.healthy ==>
      s.connected && s.lastVersion.Some? && s.lastVersion.value <= w.version
      && (s.lastVersion.value == w.version ==> Shows(s, w.table))
  }

  /** Maintenance that reports no change, with no commit from outside, changed nothing. */
  lemma {:induction false} QuietMaintenance(w: World, commits: seq<Commit>)
    requires WellFormed(w.table) && !ReportsChange(w, commits) && Maintained(w, commits).version == w.version
    ensures Maintained(w, commits).table == w.table
  {
    if commits != [] {
      var init, last := commits[..|commits| - 1], commits[|commits| - 1];
      QuietMaintenance(w, init);
      var v := Maintained(w, init);
      if last.Own? && Applies(v, last.step) {
        UnreportedUnchanged(v.table, OpOf(last.step));
      }
    }
  }

  lemma {:induction false} OutsideBumps(w: World, ops: seq<Op>)
    requires WellFormed(w.table)
    ensures Maintained(w, Outside(ops)).version == w.version + |ops|
  {
    if ops != [] {
      assert Outside(ops)[..|ops| - 1] == Outside(ops[..|ops| - 1]);
      OutsideBumps(w, ops[..|ops| - 1]);
    }
  }

  lemma {:induction false} OutsideKeepsSound(s: State, w: World, ops: seq<Op>)
    requires WellFormed(w.table) && Sound(s, w)
    ensures Sound(s, Maintained(w, Outside(ops)))
  {
    OutsideBumps(w, ops);
  }

  /** The poll reached the database: it connected, read the version, and either skipped or read the rows. */
  ghost predicate ReadsDatabase(s: State, w: World, p: Poll)
    requires WellFormed(w.table)
  {
    (s.connected || p.reopened.Some?) && p.versionRead && (p.projectionRead || Polled(s, w, p).0.healthy)
  }

  /** A version that has not moved, after maintenance without a change, means the table has not either. */
  lemma {:induction false} SkipSound(s: State, w: World, v: World)
    requires WellFormed(w.table) && WellFormed(v.table) && s.connected && Sound(s, w)
    requires v.version >= w.version && (v.version == w.version ==> v.table == w.table) && Skips(s, v.version, false)
    ensures Sound(s, v) && s.healthy && Shows(s, v.table)
  {
  }

  lemma {:induction false} PublishSound(s: State, v: World, p: Poll)
    requires WellFormed(v.table) && s.connected && p.written
    ensures var u := Maintained(v, Outside(p.late));
            var r := PublishHealthy(s, SnapshotOf(u.table), v.version, p.written);
            Sound(r, u) && r.healthy && Shows(r, u.table)
  {
    OutsideBumps(v, p.late);
  }

  /** What a connected, maintained poll leaves behind. */
  lemma {:induction false} ReadSound(s: State, w: World, v: World, changed: bool, p: Poll)
    requires WellFormed(w.table) && WellFormed(v.table) && s.connected && Sound(s, w) && p.written
    requires v.version >= w.version && (!changed && v.version == w.version ==> v.table == w.table)
    ensures var (r, u) := ReadAndPublish(s, v, changed, p);
            Sound(r, u) && (p.versionRead && (p.projectionRead || r.healthy) ==> r.healthy && Shows(r, u.table))
  {
    if p.versionRead {
      if Skips(s, v.version, changed) {
        SkipSound(s, w, v);
      } else if p.projectionRead {
        PublishSound(s, v, p);
      }
    }
  }

  /**
   * With writes succeeding, a poll keeps the fast path sound, and every poll
   * that reaches the database ends with the file showing the table: by a fresh
   * projection, or by skipping one that would have shown the same.
   */
  lemma {:induction false} PollAgrees(s: State, w: World, p: Poll)
    requires WellFormed(w.table) && Sound(s, w) && p.written
    ensures var (r, u) := Polled(s, w, p);
            Sound(r, u) && (ReadsDatabase(s, w, p) ==> r.healthy && Shows(r, u.table))
  {
    OutsideKeepsSound(s, w, p.between);
    if s.connected || p.reopened.Some? {
      var start := Start(s, w, p);
      if Maintained(start, p.maintenance).version == start.version && !ReportsChange(start, p.maintenance) {
        QuietMaintenance(start, p.maintenance);
      }
      ReadSound(s.(connected := true), start, Maintained(start, p.maintenance), ReportsChange(start, p.maintenance), p);
    }
  }

  /** Why a poll could not look at the rows. */
  ghost predicate Fails(s: State, p: Poll) {
    (!s.connected && p.reopened.None?) || !p.versionRead
  }

  function FailureCode(s: State, p: Poll): string {
    if !s.connected && p.reopened.None? then p.openCode else p.code
  }

  lemma {:induction false} FailurePublished(s: State, w: World, p: Poll)
    requires WellFormed(w.table) && p.written && Fails(s, p)
    ensures var r := Polled(s, w, p).0;
            !r.healthy && !r.connected && r.published == Some(Sick(FailureCode(s, p)))
  {
  }

  /** A poll that is not healthy after looking at the version could not read the rows. */
  lemma {:induction false} UnreadPublished(s: State, w: World, p: Poll)
    requires WellFormed(w.table) && p.written && !Fails(s, p)
    ensures var r := Polled(s, w, p).0;
            r.connected && (!r.healthy ==> !p.projectionRead && r.published == Some(Sick(p.code)))
  {
  }

  /**
   * What the file says after a poll whose writes succeed: a fixed code after a
   * failure to open or to read the version, which also drop the connection;
   * otherwise the table, or the code of a read that failed when something may
   * have changed.
   */
  lemma {:induction false} PollPublishes(s: State, w: World, p: Poll)
    requires WellFormed(w.table) && Sound(s, w) && p.written
    ensures var (r, u) := Polled(s, w, p);
            if Fails(s, p) then !r.healthy && !r.connected && r.published == Some(Sick(FailureCode(s, p)))
            else r.connected && if r.healthy then Shows(r, u.table)
                                else !p.projectionRead && r.published == Some(Sick(p.code))
  {
    PollAgrees(s, w, p);
    if Fails(s, p) {
      FailurePublished(s, w, p);
    } else {
      UnreadPublished(s, w, p);
    }
  }

  /** A poll whose write fails leaves the file alone, and is healthy only if the file was right or nothing was due. */
  lemma {:induction false} UnwrittenPoll(s: State, w: World, p: Poll)
    requires WellFormed(w.table) && !p.written
    ensures var (r, u) := Polled(s, w, p);
            r.published == s.published && (Fails(s, p) ==> !r.healthy)
            && (r.healthy && !s.healthy ==> Shows(r, u.table))
  {
  }

  /** With nothing committed since a healthy poll, the next one neither reads nor writes. */
  lemma {:induction false} QuietPollRests(s: State, w: World, p: Poll, q: Poll)
    requires WellFormed(w.table) && Sound(s, w) && p.written && p.late == [] && q.between == [] && q.maintenance == []
    requires Polled(s, w, p).0.healthy && q.versionRead
    ensures Polled(Polled(s, w, p).0, Polled(s, w, p).1, q) == Polled(s, w, p)
  {
    PollAgrees(s, w, p);
    assert Outside([]) == [];
    HealthyVersion(s, w, p);
  }

  lemma {:induction false} HealthyVersion(s: State, w: World, p: Poll)
    requires WellFormed(w.table) && p.late == [] && Polled(s, w, p).0.healthy
    ensures Polled(s, w, p).0.connected
    ensures p.written ==> Polled(s, w, p).0.lastVersion == Some(Polled(s, w, p).1.version)
  {
    assert Outside([]) == [];
  }

  // ----- whole runs -----

  ghost function AfterPolls(w: World, polls: seq<Poll>): (r: (State, World))
    requires WellFormed(w.table)
    ensures WellFormed(r.1.table)
  {
    if polls == [] then (State(false, false, None, None), w)
    else
      var (s, v) := AfterPolls(w, polls[..|polls| - 1]);
      Polled(s, v, polls[|polls| - 1])
  }

  /**
   * From a fresh daemon, over any mix of other connections' operations, its own
   * maintenance, throwing steps, failed reads and reconnections, with writes
   * succeeding: the fast path stays sound, and a last poll that reaches the
   * database leaves the file showing it.
   */
  lemma {:induction false} RunAgrees(w: World, polls: seq<Poll>)
    requires WellFormed(w.table) && forall n :: 0 <= n < |polls| ==> polls[n].written
    ensures Sound(AfterPolls(w, polls).0, AfterPolls(w, polls).1)
    ensures polls != [] ==>
              var (s, v) := AfterPolls(w, polls[..|polls| - 1]);
              ReadsDatabase(s, v, polls[|polls| - 1]) ==> Shows(AfterPolls(w, polls).0, AfterPolls(w, polls).1.table)
  {
    if polls != [] {
      var init := polls[..|polls| - 1];
      RunAgrees(w, init);
      PollAgrees(AfterPolls(w, init).0, AfterPolls(w, init).1, polls[|polls| - 1]);
    }
  }

  // ----- when a write fails -----

  /** A poll that connects, reads the version, and does not take the fast path. */
  ghost predicate Projects(s: State, w: World, p: Poll)
    requires WellFormed(w.table)
  {
    && (s.connected || p.reopened.Some?) && p.versionRead && p.projectionRead
    && !Skips(s, Maintained(Start(s, w, p), p.maintenance).version, ReportsChange(Start(s, w, p), p.maintenance))
  }

  /**
   * A poll reads fresh rows and cannot write them; the next one succeeds in
   * everything. It makes up for the failure exactly when it does not take the
   * fast path, or the file already showed what it would have written.
   */
  lemma {:induction false} FailedWriteExactly(s: State, w: World, p: Poll, q: Poll)
    requires WellFormed(w.table) && Projects(s, w, p) && !p.written
    requires q.versionRead && q.projectionRead && q.written
    ensures var (r, u) := Polled(s, w, p);
            var (t, x) := Polled(r, u, q);
            Shows(t, x.table) <==> Projects(r, u, q) || Shows(s, x.table)
  {
    UnwrittenStays(s, w, p);
    var (r, u) := Polled(s, w, p);
    GoodPollShows(r, u, q);
  }

  /** A projection that cannot be written leaves the file as it was, and the daemon connected. */
  lemma {:induction false} UnwrittenStays(s: State, w: World, p: Poll)
    requires WellFormed(w.table) && Projects(s, w, p) && !p.written
    ensures Polled(s, w, p).0.connected && Polled(s, w, p).0.published == s.published
  {
  }

  lemma {:induction false} GoodPollShows(s: State, w: World, q: Poll)
    requires WellFormed(w.table) && s.connected && q.versionRead && q.projectionRead && q.written
    ensures var (t, x) := Polled(s, w, q); Shows(t, x.table) <==> Projects(s, w, q) || Shows(s, x.table)
  {
  }

  /** A poll in which nothing goes wrong but, perhaps, the write. */
  function OwnPoll(steps: seq<Upkeep>, written: bool): Poll {
    Poll([], None, "", seq(|steps|, i requires 0 <= i < |steps| => Own(steps[i])), true, [], true, "", written)
  }

  lemma OneStep(w: World, step: Upkeep)
    requires WellFormed(w.table)
    ensures Maintained(w, OwnPoll([step], false).maintenance) == Committed(w, Own(step))
    ensures ReportsChange(w, OwnPoll([step], false).maintenance) <==> Reports(w, Own(step))
  {
    var commits := OwnPoll([step], false).maintenance;
    assert commits == [Own(step)] && commits[..0] == [];
  }

  /** An own change whose publication fails is passed over by a quiet poll: the version has not moved. */
  lemma UnwrittenMissed(s: State, w: World, step: Upkeep)
    requires WellFormed(w.table) && s.connected && s.healthy && s.lastVersion == Some(w.version)
    requires Reports(w, Own(step)) && s.published != Some(Well(SnapshotOf(Committed(w, Own(step)).table)))
    ensures Polled(s, w, OwnPoll([step], false)) == (s, Committed(w, Own(step)))
    ensures Polled(s, Committed(w, Own(step)), OwnPoll([], true)) == (s, Committed(w, Own(step)))
  {
    OneStep(w, step);
    assert Outside([]) == [];
  }

  /** A session starts and turns active. */
  function ActiveSession(): seq<Event> {
    var a := Id(Claude, "a");
    [SessionStart(a, None, None, None, None, None, None, 1), StatusEvent(a, Activity, 2)]
  }

  lemma SessionActive()
    ensures WellFormed(map[])
    ensures var t, a := AfterEvents(map[], ActiveSession()), Id(Claude, "a");
            IsRoot(t, a) && t[a].status == Working && t[a].title.None? && t[a].originKind.None?
  {
    FirstEvents([]);
    var e := ActiveSession();
    EventsSnoc(map[], [], e[0]);
    EventsSnoc(map[], [e[0]], e[1]);
    assert e == [e[0]] + [e[1]];
  }

  /** The first poll of a daemon finds the session and publishes it. */
  function FirstPoll(): Poll {
    Poll([Hooks(ActiveSession())], Some(1), "", [], true, [], true, "", true)
  }

  lemma FirstStart(w: World)
    requires w == World(map[], 0) && WellFormed(w.table)
    ensures Start(State(false, false, None, None), w, FirstPoll())
            == World(AfterEvents(map[], ActiveSession()), 1)
  {
    var op := Hooks(ActiveSession());
    assert Outside([op]) == [External(op)] && Outside([op])[..0] == [];
  }

  lemma FirstPolled(w: World)
    requires w == World(map[], 0) && WellFormed(w.table)
    ensures var t := AfterEvents(map[], ActiveSession());
            Polled(State(false, false, None, None), w, FirstPoll())
            == (State(true, true, Some(1), Some(Well(SnapshotOf(t)))), World(t, 1))
  {
    FirstStart(w);
    FirstPublished(World(AfterEvents(map[], ActiveSession()), 1));
  }

  lemma FirstPublished(w: World)
    requires WellFormed(w.table)
    ensures Maintained(w, []) == w && !ReportsChange(w, [])
    ensures ReadAndPublish(State(true, false, None, None), w, false, FirstPoll())
            == (State(true, true, Some(w.version), Some(Well(SnapshotOf(w.table)))), w)
  {
    assert Outside([]) == [];
  }

  lemma RetitleStirs(t: Table, id: Id, title: string)
    requires WellFormed(t) && IsRoot(t, id) && t[id].status != Idle
    requires t[id].title != Some(title) && t[id].originKind != Some(Paseo)
    ensures var w, step := World(t, 1), FactPass([TitleUpdate(id, title)]);
            Reports(w, Own(step)) && SnapshotOf(Committed(w, Own(step)).table) != SnapshotOf(t)
  {
    var updates := [TitleUpdate(id, title)];
    assert updates[..0] == [];
    assert AfterFacts(t, updates) == AfterFact(t, updates[0]);
    StepIs(World(t, 1), FactPass(updates));
    TitleShows(t, AfterFacts(t, updates), id);
  }

  /** One more poll at the end of a run. */
  lemma OneMorePoll(w: World, polls: seq<Poll>, p: Poll) returns (more: seq<Poll>)
    requires WellFormed(w.table)
    ensures more == polls + [p] && AfterPolls(w, more) == Polled(AfterPolls(w, polls).0, AfterPolls(w, polls).1, p)
  {
    more := polls + [p];
    DropLast(polls, p);
  }

  /** Three polls from a fresh daemon, the last two leaving its state alone. */
  lemma ThreePolls(w: World, p: Poll, q: Poll, r: Poll, s: State, v: World, u: World) returns (polls: seq<Poll>)
    requires WellFormed(w.table) && WellFormed(v.table) && WellFormed(u.table)
    requires Polled(State(false, false, None, None), w, p) == (s, v)
    requires Polled(s, v, q) == (s, u) && Polled(s, u, r) == (s, u)
    ensures polls == [p] + [q] + [r] && AfterPolls(w, polls) == (s, u)
  {
    var none: seq<Poll> := [];
    polls := OneMorePoll(w, none, p);
    polls := OneMorePoll(w, polls, q);
    polls := OneMorePoll(w, polls, r);
  }

  /** A fresh daemon's file, healthy and wrong, after a failed write among polls that otherwise succeed. */
  ghost predicate Misled(w: World, polls: seq<Poll>)
    requires WellFormed(w.table)
  {
    var (s, u) := AfterPolls(w, polls);
    s.healthy && s.connected && !Shows(s, u.table)
  }

  predicate ReadsWell(p: Poll) {
    p.versionRead && p.projectionRead
  }

  /**
   * The failing case comes about in three polls: publish a session, fail to publish its new title, find nothing to
   * do.
   */
  lemma FailedWriteSkipped() returns (w: World, polls: seq<Poll>)
    ensures WellFormed(w.table) && |polls| == 3 && polls[0].written && !polls[1].written && polls[2].written
    ensures ReadsWell(polls[0]) && ReadsWell(polls[1]) && ReadsWell(polls[2])
    ensures Misled(w, polls)
  {
    SessionActive();
    var t, step := AfterEvents(map[], ActiveSession()), FactPass([TitleUpdate(Id(Claude, "a"), "x")]);
    w := World(map[], 0);
    var s := State(true, true, Some(1), Some(Well(SnapshotOf(t))));
    FirstPolled(w);
    RetitleStirs(t, Id(Claude, "a"), "x");
    UnwrittenMissed(s, World(t, 1), step);
    polls := ThreePolls(w, FirstPoll(), OwnPoll([step], false), OwnPoll([], true),
                        s, World(t, 1), Committed(World(t, 1), Own(step)));
  }
}
