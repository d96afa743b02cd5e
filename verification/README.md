# Dealerboard, verified

Dealerboard watches coding-agent sessions. Hook events, a Paseo overlay, Codex
rollouts and an Evener feed write one table of sessions; a daemon projects the
table to a snapshot file; the strip app validates the snapshot, groups and packs
it into pages of cards, and lets a user view, dismiss and page through them.
This project models that path in Dafny and proves what it promises.

## What is modelled

Two graphs live in the table. Native parentage (`parent_session_id`) is a
foreign key that cascades on delete. Paseo lineage is derived: a top-level row
marked as a subagent points at the one row carrying the ref it names, and rows
on a cycle of such links lose theirs. Results live in ledgers (unread, done,
viewed and acknowledged stamps) on the rows.

- **Graphs.** `Forest`, `Cycles`, `Walks` and `Preorder` hold the theory of
  finite functional graphs: well-foundedness, subtrees, cycle cutting, stack
  walks, worklist fixpoints, and preorders over sorted children.
- **Registry.** `Schema` and `Lineage` give the table and its lineage,
  `RegistrySpec` each mutation as a function of the table (an UPDATE reads the
  old row), `Registry` the mutating class proved against it, and `RegistryRuns`
  what every mutation and every run keeps. `ResultLaws`, `LedgerLaws` and
  `UpkeepLaws` say what the mutations mean for a result, column by column.
- **Projection.** `NativePass`, `Projection`, `ProjectionOutput` and `Snapshot`
  are the passes of `projectSnapshotRows`, loops and in-place maps included,
  against the declarative `ProjectionSpec`; `ProjectionLaws` proves that
  specification's laws, and `PublishedLaws` and `AgentLaws` read the snapshot off
  the rows again, without it. A `throw` the source keeps for corrupt state is an
  `assert false` in the branch where it stands.
- **Gestures on cards.** `CardGestures`, `Hide`, `Dismissals` and `Flick` relate
  what a view or a dismissal does to the registry with what the board shows.
- **Reader and board.** `Protocol` is the snapshot validator, `Pipeline` joins
  registry, projection and validator, `Board` and `Packing` order and place the
  cards, and `PackingLaws` counts them where they stand.
- **Daemon.** `Daemon` is the poll loop: maintenance through the registry's own
  methods, the version fast path, and publication of the projected rows.
- **Beside the path.** `Rollout` is the chunked, resumable rollout reader and
  `RolloutLaws` what its lines say, `Curves` the day-curve collector and its
  reader, `Activity` the hourly chart, `Gestures` and `Paging` the pointer
  machine, the paging session and the deferral latch, composed in
  `Paging.Strip`.

Identities are (provider, session id) pairs. Canonical UTC strings compare as
instants, so instants are integers (section 5.1 of RFC 3339). Token totals and
pixels are reals, and rounding plays no part.

## Main results

1. From an empty registry, whatever is done to it and in whatever order its rows
   are read back, the projection succeeds and the reader accepts the snapshot
   (`Pipeline.EveryRunPublishes`).
2. A snapshot is determined by its rows alone: which cards there are, their
   statuses, stamps and columns, and the agents and their order
   (`PublishedLaws.StatusesPublished`, `CardsExactly` and `StampsPublished`,
   `AgentLaws.AgentsExactly`, `NodesPublished` and `OrderPublished`).
3. A turn that ends, or whose end an overlay pass makes up for, leaves its result
   on exactly one card (`ResultLaws.TurnEndShows`, `ResultLaws.PassShows`), and
   over any run only the listed gestures, restarts and expiry take it away
   (`LedgerLaws.RunAccountedFor`).
4. Every unviewed result is carried by exactly one card
   (`ProjectionLaws.UnreadConserved`), and upkeep never loses one
   (`RegistryRuns.UpkeepKeepsUnread`). A row keeps its slot over any run, for as
   long as it lives (`RegistryRuns.RunKeepsSlot`).
5. The optimistic hide of an idle card shows exactly what the registry will
   publish (`Dismissals.HideMatchesAuthority`).
6. The passes of the projection equal a declarative snapshot, with every
   internal error unreachable (`Snapshot.ProjectSnapshotRows`).
7. The prune keeps exactly the components that hold something worth keeping
   (`RegistryRuns.PruneExactly`), the least set that holds the live rows and
   leaves no relative out (`UpkeepLaws.PruneKeepsLeast`); a rollout sweep removes
   exactly the subtrees whose stops are on record
   (`UpkeepLaws.SweepRemovesExactly`).
8. Over whole runs of the daemon on that registry, whatever other connections
   do meanwhile, a poll that reaches the database leaves the file showing the
   table, so skipping a projection is as good as making one
   (`Daemon.RunAgrees`).
9. The rollout reader agrees with a plain fold over lines
   (`Rollout.RolloutReader.ReadTurn`), whose turn is the one its lines call for
   (`RolloutLaws.TurnFolded`), recovered curves keep every accepted total
   (`Curves.AuthorityKept`), and hourly activity telescopes
   (`Activity.TodayTelescopes`, `Activity.YesterdayTelescopes`).

Two promises of the source are false as written, and the model keeps the code:

- The eligibility test says a dismissal takes an eligible card off the board. A
  session that starts a subagent and fails stays (`Flick.ErrorFlickMayStay`);
  `Flick.DismissalExactly` gives the condition.
- The daemon says a failed publication is retried. After an own-connection change
  whose write fails, the next poll can skip it (`Daemon.FailedWriteSkipped`
  gives three polls of a fresh daemon); `Daemon.FailedWriteExactly` says when.

`!visited.add(..)` in the prospective-parent walk never fires, because adding to
a set returns the set; the walk terminates because native parentage is a forest.

## Model

| member | source | states |
|---|---|---|
| `Registry.Registry.AllocateLowestFreeSlot` | src/core/registry.ts:152-164 | the slot handed out is the least positive slot no row holds |
| `Registry.Registry.IsValidProspectiveParent` | src/core/registry.ts:173-201 | on a forest the upward walk terminates and accepts exactly an existing same-provider row that is neither the child nor below it; neither walk guard ever decides |
| `Registry.Registry.ApplySessionStart` | src/core/registry.ts:203-277 | the whole new table: reuse of a root, refusal for a child, or a new root in the least free slot |
| `Registry.Registry.ApplySubagentStart` | src/core/registry.ts:402-458 | the whole new table: refusal of roots, of missing or descendant parents, reparenting, or a new slotless child |
| `Registry.Registry.ApplyEvent` | src/core/registry.ts:544-576 | the whole new table and the result for each of the hook events |
| `Registry.Registry.ApplyRegistryEvents` | src/core/registry.ts:578-587 | one result per event, each judged against the table its predecessors left |
| `Registry.Registry.PaseoSubtreeIdentities` | src/core/registry.ts:709-786 | lists exactly the rows below an identity in the resolved lineage, each once, hints overriding stored facts |
| `Registry.Registry.DeletePaseoSubtree` | src/core/registry.ts:788-806 | deletes the lineage subtree and every native descendant of its members, and reports zero only when nothing changed |
| `Registry.Registry.ClearSession` | src/core/registry.ts:672-707 | a clear takes the whole lineage with it, or is ignored for an unknown identity |
| `Registry.Registry.ViewSession` | src/core/registry.ts:827-897 | the causal view over the whole lineage subtree, row by row |
| `Registry.Registry.AcknowledgeSession` | src/core/registry.ts:899-936 | the causal dismissal over the whole lineage subtree, retiring errors, row by row |
| `Registry.Registry.UpdateSessionFacts` | src/core/registry.ts:982-1000 | title, model and activity writes in order; a change is reported exactly when some write changed a row |
| `Registry.Registry.SweepExpiredResults` | src/core/registry.ts:1463-1478 | exactly the viewed, read, finished rows past the cutoff are retired; a change is reported exactly when there was one |
| `Registry.Registry.SyncPaseoStates` | src/core/registry.ts:1082-1275 | every record of the overlay pass in order: title, attention, settlement, rotation, archive; a change is reported exactly when some record changed the table |
| `Registry.Registry.KeepSet` | src/core/registry.ts:1372-1434 | the worklist fixpoint is exactly the union of the components that hold a row worth keeping |
| `Registry.Registry.PruneStaleSessions` | src/core/registry.ts:1343-1446 | exactly the legacy ended roots and the roots of components nothing keeps alive are deleted; a change is reported exactly when there was one |
| `Registry.Registry.RemoveStopped` | src/core/registry.ts:1546-1564 | the leaf loop terminates and removes exactly the rows whose whole native subtree is confirmed stopped |
| `Registry.Registry.SyncCodexSubagents` | src/core/registry.ts:1481-1564 | the whole new table of a rollout sweep; skipped when another connection has committed since it began; a change is reported exactly when a record or a removal made one |
| `Registry.Registry.ApplyEvenerCollectorUpdate` | src/core/registry.ts:588-620 | events, then archived roots, then vanished children, all in one step |
| `Registry.LeafDelete` | src/core/schema.ts:504-505 | deleting a leaf fires no cascade |
| `Registry.PeeledOut` | src/core/registry.ts:1546-1564 | when no stopped leaf is left, what remains is exactly the rows with a live or unknown row in their subtree |
| `Registry.ClosedKeepsComponents` | src/core/registry.ts:1395-1435 | a set closed under native and lineage edges that holds the seeds holds their whole components |
| `RegistrySpec.FreeSlot` | src/core/registry.ts:152-164 | a least free slot always exists and is unique |
| `RegistrySpec.PaseoRowsSuffice` | src/core/registry.ts:715-735 | leaving rows of other origins out of the resolution changes no link |
| `RegistryRuns.EventKeeps` | src/core/registry.ts:544-576 | every hook event keeps the acyclic, closed, slot-unique table and the ledger discipline; survivors keep their slot and new roots get the least free one |
| `RegistryRuns.StartKeeps` | src/core/registry.ts:203-277 | a start keeps the invariant and every surviving slot |
| `RegistryRuns.SubagentStartKeeps` | src/core/registry.ts:402-458 | hanging or rehanging a child keeps the forest, touches no root and gives no slot |
| `RegistryRuns.ViewKeeps` | src/core/registry.ts:827-897 | a view keeps the invariant and every slot |
| `RegistryRuns.AckKeeps` | src/core/registry.ts:899-936 | a dismissal keeps the invariant and every slot |
| `RegistryRuns.SweepKeeps` | src/core/registry.ts:1463-1478 | expiry keeps the invariant and no unread root is deleted, cleared or moved back |
| `RegistryRuns.SweepGuardRedundant` | src/core/registry.ts:1466-1473 | on every reachable table the unread guard of the sweep never decides |
| `RegistryRuns.FactsKeep` | src/core/registry.ts:982-1000 | fact updates keep the invariant, all rows and every unread result |
| `RegistryRuns.PruneKeeps` | src/core/registry.ts:1343-1446 | a prune leaves a closed forest and loses no unread result |
| `RegistryRuns.PruneExactly` | src/core/registry.ts:1395-1446 | on every reachable table the kept rows are exactly the components with a leased, unread or live-clock row, and no such row is deleted |
| `RegistryRuns.PaseoStateKeeps` | src/core/registry.ts:1112-1275 | a record keeps the invariant; unless archived it deletes nothing and loses no unread result |
| `RegistryRuns.LivePassKeepsUnread` | src/core/registry.ts:1112-1275 | an overlay pass without archived records deletes nothing and loses no unread result |
| `RegistryRuns.CodexChildKeeps` | src/core/registry.ts:1487-1545 | a recorded child keeps the invariant and leaves every root untouched |
| `RegistryRuns.CodexSyncKeeps` | src/core/registry.ts:1481-1564 | a rollout sweep leaves every root exactly as it was: no confirmed stop names one |
| `RegistryRuns.WithoutStoppedClosed` | src/core/registry.ts:1546-1564 | removing fully stopped subtrees orphans nobody |
| `RegistryRuns.Run` | src/core/registry.ts:135-149 | after any sequence of operations from an empty registry the invariant holds |
| `RegistryRuns.UpkeepKeepsUnread` | src/core/registry.ts:1343-1564 | after any run, any further upkeep (fact updates, sweeps, prunes, rollout sweeps, overlay passes without archives) keeps every unread root, its stamp never moving back |
| `RegistryRuns.UnreportedUnchanged` | src/core/daemon.ts:303-390 | an operation that reports no change left the table as it was |
| `RegistryRuns.OpKeepsSlot` | src/core/registry.ts:18-20 | every operation leaves the slot of a row that lives through it alone |
| `RegistryRuns.RunKeepsSlot` | src/core/registry.ts:18-20 | over any run a row keeps its slot for as long as it lives |
| `ResultLaws.StatusHook` | src/core/registry.ts:460-522 | what each status hook makes of the row it names, column by column, and that it touches no other: a Stop lands a result unless background work is out, a failure lands an unread error, and the status clock moves only with the status |
| `ResultLaws.StartHook` | src/core/registry.ts:203-277 | a start leaves a root idle with nothing owed; a reused one keeps slot, age, last acknowledgement and, without new evidence, origin; a child refuses it |
| `ResultLaws.SubagentHook` | src/core/registry.ts:402-458 | a subagent start is taken exactly from an existing parent outside its subtree and never by a root, and what it makes of the row |
| `ResultLaws.EndHooks` | src/core/registry.ts:524-542 | an ended root takes exactly the native subtrees of its lineage, a stopped subagent exactly its own, and the rest is as it was |
| `ResultLaws.RecordReaches` | src/core/registry.ts:1101-1250 | a live overlay record and the root it names: when its flag lands and when it ends a missed turn, and the title, origin, status and ledgers that leaves |
| `ResultLaws.RecordElsewhere` | src/core/registry.ts:1260-1275 | a record leaves every other row alone, except that it rests a root left behind by its agent, ledgers kept, when the pass knows one session for the agent |
| `ResultLaws.RecordArchives` | src/core/registry.ts:1098-1101 | an archived record removes exactly what hangs below its identity, by the pass's own routing facts |
| `ResultLaws.PassReaches` | src/core/registry.ts:1082-1275 | over a whole pass, archived records included, a root named once ends as its record leaves it, met as it was unless its former agent's record has rested it |
| `ResultLaws.UnreadOnOneCard` | src/core/projection.ts:330-435 | an unread root is on exactly one published card, which shows a stamp at least as new and counts it unless it is its own |
| `ResultLaws.TurnEndShows` | src/core/registry.ts:480-510 | a turn that ends leaves its result on exactly one card of the next snapshot |
| `ResultLaws.PassShows` | src/core/registry.ts:1112-1249 | so does a missed turn end or a landing flag found by an overlay pass |
| `LedgerLaws.ViewReachesExactly` | src/core/registry.ts:827-897 | which rows a view reads and what that does to each column, the acknowledgement advancing only where something was read |
| `LedgerLaws.DismissalReachesExactly` | src/core/registry.ts:899-936 | which rows a dismissal settles and what that does to each column, every one of them acknowledged at the gesture |
| `LedgerLaws.SweepExactly` | src/core/registry.ts:1463-1478 | on every reachable table, expiry settles exactly the finished rows read by the cutoff, acknowledging nothing |
| `LedgerLaws.StalePassInert` | src/core/registry.ts:1112-1249 | overlay records no newer than a row's last acknowledgement leave its ledgers alone, however many a pass holds |
| `LedgerLaws.DismissedStaysBare` | src/core/registry.ts:874-880 | a flag or settlement trailing the result does not revive a dismissed row |
| `LedgerLaws.LedgersAccountedFor` | src/core/registry.ts:22-48 | for every operation: unread goes only by view, dismissal or reused start, a hold only by dismissal, reused start or expiry, the view clock starts only by a view, acknowledgements move only by gestures, and results land only by a turn's end or a record naming the row |
| `LedgerLaws.RunAccountedFor` | src/core/registry.ts:22-48 | over any run, a result gone from a row that lived on was taken by one of those operations |
| `UpkeepLaws.PruneKeepsLive` | src/core/registry.ts:1343-1446 | on every reachable table a prune keeps the leased, unread and live-clock rows and every relative of a kept row, changing none |
| `UpkeepLaws.PruneKeepsLeast` | src/core/registry.ts:1343-1446 | and it keeps no more: its survivors lie in every relative-closed set that holds those rows |
| `UpkeepLaws.KnownChild` | src/core/registry.ts:1499-1544 | what a rollout does to a registered child: facts filled in, and a turn that counts only against older hooks |
| `UpkeepLaws.NewChild` | src/core/registry.ts:1487-1512 | a rollout registers an unknown child exactly when it works under a known parent since that parent opened |
| `UpkeepLaws.SweepRemovesExactly` | src/core/registry.ts:1481-1564 | a sweep removes a row exactly when it has the stop of the row and of everything below it on record |
| `UpkeepLaws.FeedRemovesExactly` | src/core/registry.ts:588-617 | an Evener update removes exactly what lies at or below its archived roots and the children it no longer lists |
| `UpkeepLaws.FactLands` | src/core/registry.ts:982-1000 | a resolved fact sets its own column of its own row, a Paseo row's title excepted |
| `Cycles.CycleMembers` | src/core/projection.ts:163-189 | the path walk finds exactly the nodes that lie on a cycle |
| `Cycles.ForestIffAcyclic` | src/core/projection.ts:163-189 | a finite parent relation is well-founded exactly when no node lies on a cycle |
| `Cycles.CutCyclesForest` | src/core/projection.ts:186-190 | cutting the parent edges of cycle members leaves a forest |
| `Lineage.ResolvePaseoParentLinks` | src/core/projection.ts:137-191 | the resolved links are exactly the unique-ref links minus those leaving a cycle member, and form a forest |
| `Lineage.ResolvedExactly` | src/core/projection.ts:126-135 | a link is resolved exactly when its row is marked, names a ref carried by one row, and lies on no cycle |
| `Lineage.RowOrderIrrelevant` | src/core/projection.ts:137-191 | the links do not depend on row order |
| `NativePass.IndexRows` | src/core/projection.ts:199-206 | the index is the table of the rows, and a duplicate is reported exactly when there is one |
| `NativePass.ClassifyRows` | src/core/projection.ts:208-240 | the first offending row's verdict, or the roots and exact children lists |
| `NativePass.NativeOrder` | src/core/projection.ts:243-268 | from the roots every grounded row is visited once, parents first; no revisit and no traversal bound is ever met |
| `NativePass.AllVisitedIffForest` | src/core/projection.ts:270-272 | the visited count equals the row count exactly when native parentage is acyclic |
| `NativePass.NativeResults` | src/core/projection.ts:274-288 | each row's status is the maximum over its native subtree and its count the size of that subtree below it |
| `Projection.CarryStatuses` | src/core/projection.ts:313-328 | the in-place climb ends, in any order of roots, with each root at the maximum over itself and its lineage descendants |
| `Projection.DescendantLedgers` | src/core/projection.ts:337-356 | exactly the strict lineage ancestors of ledger-holding roots are marked |
| `Projection.RollUp` | src/core/projection.ts:382-417 | one card's pending count and latest stamps over exactly the roots that roll up to it |
| `ProjectionOutput.VisibleInOrder` | src/core/projection.ts:419-435 | exactly the roots with a card of their own, in slot order |
| `ProjectionOutput.PublishNativeNodes` | src/core/projection.ts:509-529 | exactly the native rows below visible roots join the graph, as specified |
| `ProjectionOutput.AppendSubtree` | src/core/projection.ts:552-568 | appends the depth-first preorder of a subtree; the duplicate and missing-node throws are unreachable |
| `Snapshot.NativeHalf` | src/core/projection.ts:198-301 | fails exactly on tables with a wrong row or a cycle, with the verdict they deserve |
| `Snapshot.ViewFrom` | src/core/projection.ts:303-328 | the resolved lineage and carried statuses of the whole table |
| `Snapshot.RootsInOrder` | src/core/projection.ts:570-586 | visible primaries by slot, then unlinked subagents by age |
| `Snapshot.ProjectSnapshotRows` | src/core/projection.ts:198-591 | succeeds exactly on accepted rows and then returns the declarative snapshot; the traversal bound and each internal consistency throw stand as branches proved dead |
| `Snapshot.RowOrderIrrelevant` | src/core/projection.ts:242 | two sequences of the same rows are accepted together and, with unique slots, have one root order and one snapshot |
| `ProjectionLaws.ViewOfOk` | src/core/projection.ts:313-328 | along lineage published statuses only grow towards ancestors, and an idle root is childless |
| `ProjectionLaws.CarriedIsMaximum` | src/core/projection.ts:313-328 | a published status bounds every native status below it and is attained by one of them |
| `ProjectionLaws.NativeIsMaximum` | src/core/projection.ts:274-288 | a native status bounds and is attained by a row of the subtree |
| `ProjectionLaws.PublishedGraph` | src/core/projection.ts:531-540 | a published node's parent is published and the published links form a forest |
| `ProjectionLaws.AgentsListPublished` | src/core/projection.ts:550-591 | the agent list shows every published node exactly once, after its parent |
| `ProjectionLaws.UnreadConserved` | src/core/projection.ts:337-434 | pending counts of published roots plus published roots unread in their own right equal the top-level rows holding an unread result |
| `ProjectionLaws.VisibleIdsExactly` | src/core/projection.ts:419-435 | the sessions are exactly the visible roots, sorted by slot |
| `PublishedLaws.StatusesPublished` | src/core/projection.ts:274-328 | every published status, read off the rows: error if any row of a native subtree at or below is in error, else waiting, else working if any works or is a child, else idle |
| `PublishedLaws.CardsExactly` | src/core/projection.ts:419-435 | the cards are the roots with somebody at work and the unlinked roots keeping a result at or below them, each once, by slot |
| `PublishedLaws.StampsPublished` | src/core/projection.ts:358-417 | each card shows the newest unread and done stamps of the roots it is the nearest card of, and counts those unread besides itself |
| `PublishedLaws.ResultOnOneCard` | src/core/projection.ts:330-435 | a root that keeps a result has exactly one nearest card |
| `PublishedLaws.ColumnsPublished` | src/core/projection.ts:436-470 | a card copies its own row and counts the native rows below it |
| `AgentLaws.AgentsExactly` | src/core/projection.ts:509-530 | the agents are the cards and the native rows below them, each once |
| `AgentLaws.NodesPublished` | src/core/projection.ts:471-529 | a root's node repeats its card with its role and resolved parent; a native node shows its row and nothing of a card's |
| `AgentLaws.OrderPublished` | src/core/projection.ts:550-589 | the agents are listed depth first, siblings by age, provider name and id, primaries first and by slot, orphans after them by age |
| `Preorder.GroveShape` | src/core/projection.ts:555-568 | a listed forest is depth first with siblings in their parent's order |
| `CardGestures.CascadeIsLineage` | src/core/registry.ts:709-758 | the gesture cascade is exactly the lineage subtree the projection publishes |
| `CardGestures.NewerResultUntouched` | src/core/registry.ts:834-936 | whatever happened in between, a row whose result is newer than the gesture's watermark is left entirely unchanged by a view or a dismissal |
| `CardGestures.ViewClearsCard` | src/core/registry.ts:827-897 | on an unchanged registry, a view with the published watermark leaves the card without unread and without pending results |
| `CardGestures.ViewedCardStays` | src/core/projection.ts:419-434 | a viewed card stays published exactly when it is active or publishes a done stamp |
| `CardGestures.IdleDismissal` | src/core/registry.ts:899-936 | dismissing an idle card with its published watermark leaves no ledger in its cascade and touches nothing else |
| `Hide.DismissalRemovesCard` | src/core/registry.ts:899-936 | dismissing an idle card and projecting again gives the earlier snapshot with exactly that card removed |
| `Flick.DismissalExactly` | app/src/dismissals.ts:16-28 | a dismissal takes a root off the board exactly when its whole cascade is idle or a shown error without native children and, unless the root is linked, holds no ledger newer than the watermark |
| `Flick.IdleFlickRemoves` | app/src/dismissals.ts:25-28 | every idle card on the board is eligible and a dismissal as shown removes it |
| `Flick.ErrorFlickMayStay` | app/src/dismissals.ts:25-28 | a run of the registry leaves an eligible failed card with a subagent that survives its dismissal, so the promise fails for errors |
| `Protocol.ParseAgents` | src/protocol.ts:406-458 | accepts exactly the graphs with sound roles, unique identities and slots, present parents and a well-founded parent relation; otherwise names a rule that is broken |
| `Protocol.RejectCycles` | src/protocol.ts:436-456 | rejects exactly the parent relations that are not well-founded |
| `Protocol.FaultsRejected` | src/protocol.ts:406-458 | every reported fault rules the graph out |
| `Protocol.RolesSay` | src/protocol.ts:343-373 | what the role checks admit, by column |
| `Protocol.ParentsSay` | src/protocol.ts:420-434 | what the parent checks admit |
| `Protocol.ParseSessionSnapshot` | src/protocol.ts:579-610 | accepts exactly snapshots with positive, unique session slots and an accepted agent graph |
| `Pipeline.WellFormedAccepted` | src/core/projection.ts:198-301 | the rows of any well-formed table are projected, in whatever order they are read |
| `Pipeline.ProjectionParses` | src/protocol.ts:343-458 | the reader accepts every snapshot projected from a table with unique slots |
| `Pipeline.EveryRunPublishes` | src/core/projection.ts:749-769 | after any run of the registry the projection succeeds, its root order is determined, and the reader accepts the snapshot |
| `Pipeline.PublishRun` | src/core/projection.ts:749-769 | projecting and parsing the rows of any reachable registry never fails |
| `Pipeline.ProjectTable` | src/core/projection.ts:749-769 | reading the rows of a well-formed table back in any order and projecting them gives the one snapshot the table has |
| `Pipeline.TitleShows` | src/core/projection.ts:437-470 | retitling an active root changes the snapshot |
| `Board.ChildrenByParent` | app/src/board.ts:153-161 | children lists hold exactly each node's children |
| `Board.AppendChildren` | app/src/board.ts:176-181 | appends the depth-first preorder of what hangs below a node |
| `Board.GroupedAgentOrder` | app/src/board.ts:144-199 | terminates on every accepted graph with one group per primary by slot and one tail of orphans, each card as specified |
| `Board.EveryAgentOnce` | app/src/board.ts:144-199 | every agent is in exactly one group, exactly once |
| `Board.PrimaryGroupOrder` | app/src/board.ts:183-187 | a primary leads its group and every other card follows its own parent |
| `Board.TailGroupOrder` | app/src/board.ts:189-197 | in the tail block every card but an orphan follows its own parent |
| `Board.CardsShowAgents` | app/src/board.ts:163-197 | every card shows its agent; display-only are the native children, and only a primary's family carries its project |
| `Board.WithSpines` | app/src/board.ts:222-231 | indentation exactly for subagents of a primary's group; the end spine only on the group's last card |
| `Board.ReduceBoard` | app/src/board.ts:297-308 | as many pages as the agents need, at least one, and the stored page clamped into them |
| `Board.JumpBoard` | app/src/board.ts:316-323 | a jump reduces the view as it stands, lands on the clamped target, and is dirty exactly when the reduction was or the page moves |
| `Packing.PackBoard` | app/src/board.ts:244-288 | every card of every group in its contractual cell: first fitting column, else the first free row, page after page |
| `PackingLaws.FittingGroupWhole` | app/src/board.ts:261-268 | counted on the pages: a group with room in a column of its page stands whole and unmarked in the first such column |
| `PackingLaws.OtherGroupPoured` | app/src/board.ts:269-285 | every card of any other group takes the first column of its page with a free row |
| `Packing.PlaceFitting` | app/src/board.ts:261-268 | a fitting group goes to one column of one page, unmarked |
| `Packing.Pour` | app/src/board.ts:269-285 | a pouring group takes the first free row each time and is marked exactly at page breaks |
| `Packing.EveryCardOnce` | app/src/board.ts:233-243 | exactly ceil(cards / 12) pages, all but the last full, showing every card once in order |
| `Packing.PageCells` | app/src/board.ts:254-257 | cells are in range, distinct, and leave no gap above a card |
| `Packing.GroupOrderKept` | app/src/board.ts:233-243 | within a group, page, column, row order is the group's order |
| `Packing.ContinuationExactly` | app/src/board.ts:280-284 | the marker sits exactly on a page's first card whose group began on an earlier page |
| `Dismissals.HiddenCards.ActiveKeys` | app/src/dismissals.ts:58-69 | exactly the unexpired, unrefuted dismissals stay, and the others are forgotten |
| `Dismissals.HiddenCards.FilterSnapshot` | app/src/dismissals.ts:75-103 | the snapshot with the active cards hidden, the same snapshot when none is |
| `Dismissals.PassExactly` | app/src/dismissals.ts:80-95 | on a parents-first list one pass drops exactly the active cards and their descendants |
| `Dismissals.HiddenExactly` | app/src/dismissals.ts:42-69 | a dismissed card stays hidden until its time is up or the snapshot shows a later unread stamp |
| `Dismissals.HidingExactly` | app/src/dismissals.ts:75-103 | of an accepted graph, the agents and sessions left are those without a hidden card at or above them |
| `Dismissals.HiddenStillAccepted` | app/src/dismissals.ts:75-103 | hiding cards from an accepted graph leaves an accepted graph |
| `Dismissals.ProjectedGraph` | app/src/dismissals.ts:80-81 | the projection's agent list is parents-first, as the filter relies on |
| `Dismissals.OwnStampNotNewer` | app/src/dismissals.ts:42-53 | the snapshot that showed a card never refutes the stamp it showed |
| `Dismissals.HideMatchesAuthority` | app/src/dismissals.ts:75-103 | for an idle card, the locally filtered snapshot equals the one the registry publishes after the dismissal |
| `Rollout.SplitExact` | src/core/codex-subagents.ts:77-81 | the reference splitting loses no byte and its lines hold no line feed |
| `Rollout.FinishLine` | src/core/codex-subagents.ts:119-131 | a line that ends within the cap is consumed whole, a longer one passed over |
| `Rollout.CarryLine` | src/core/codex-subagents.ts:132-139 | an unfinished line is carried, or skipped from here on once too long |
| `Rollout.ScanChunk` | src/core/codex-subagents.ts:118-139 | taking in a chunk keeps the facts equal to the fold over complete lines |
| `Rollout.ReadPass` | src/core/codex-subagents.ts:110-140 | whatever the reads return, the state accounts for the text up to its offset; a flowing pass advances by the budget minus the line cap at least, and reaches a finished end when it can |
| `Rollout.RolloutReader.ReadTurn` | src/core/codex-subagents.ts:87-160 | over any number of passes on a growing file the cache agrees with the fold, and a reported turn is the fold's turn of the whole, finished file, which kept its size and time while it was read |
| `Rollout.TurnWitness` | src/core/codex-subagents.ts:37-75 | the folded turn is the latest started one, and stopped only by a later record of its own |
| `RolloutLaws.SessionIsLast` | src/core/codex-subagents.ts:46-50 | the session is the one the last opening line names |
| `RolloutLaws.TurnKnownExactly` | src/core/codex-subagents.ts:46-68 | there is a turn exactly when the last session has started one |
| `RolloutLaws.TurnFolded` | src/core/codex-subagents.ts:51-75 | the turn is the last of the session to start at the latest time; it is stopped exactly when a later line ends it at or after its start and the responses between, and observed at the latest of its ends from then on, else at the latest of its start and responses |
| `Curves.ParseDayCurve` | src/token-usage-snapshot.ts:104-126 | comparing neighbours accepts exactly the bounded curves strictly rising in time and never falling in total |
| `Curves.ParseTokenUsageSnapshot` | src/token-usage-snapshot.ts:144-177 | accepts exactly bounded samples and valid curves |
| `Curves.RetainLatestHalfHourPoints` | src/core/token-usage.ts:171-183 | the loop keeps the points whose successor falls in another half hour, and the last 96 of those |
| `Curves.ThinnedExactly` | src/core/token-usage.ts:171-183 | on a rising curve that is exactly the latest point of every half hour |
| `Curves.SampleFits` | src/core/token-usage.ts:200-210 | a sample is used exactly when it is of the day, before the endpoint, and beneath the next authoritative total |
| `Curves.RunningMaximum` | src/core/token-usage.ts:213-223 | one point per observed instant at the highest total observed by then |
| `Curves.AuthorityKept` | src/core/token-usage.ts:194-223 | before thinning the recovered curve passes through every authoritative point and ends where the authority ends |
| `Curves.RecoveredOk` | src/core/token-usage.ts:224-227 | after thinning it keeps the endpoint and is a curve the reader accepts |
| `Curves.RecoveredPoints` | src/core/token-usage.ts:194-223 | a recovered point is of an instant the day observed and lies between the authoritative totals around it |
| `Curves.RecoverActiveDayCurve` | src/core/token-usage.ts:185-228 | recovery is the thinned envelope of the authority and the fitting samples, and touches only the active day |
| `Curves.AppendKeeps` | src/core/token-usage.ts:231-256 | appending keeps valid curves and the endpoint never moves back or down |
| `Curves.ReconcileSeededDayCurves` | src/core/token-usage.ts:259-273 | a seeded curve is passed, rotated by exactly one day, or dropped, and stays valid |
| `Curves.TokenUsageCollector.PollNow` | src/core/token-usage.ts:362-425 | every poll sequence leaves a state and a file the reader accepts; a successful write leaves the file equal to the state |
| `Curves.EndpointAdvances` | src/core/token-usage.ts:383-407 | an accepted observation becomes the curve's end at the running maximum, a clock-regressing one changes no end |
| `Curves.ObservationLands` | src/core/token-usage.ts:231-256 | one observation: yesterday is the day before as it ended or nothing, today ends at the running maximum, and the samples gain it unless the clock regressed |
| `Daemon.ProjectionDaemon.PollOnce` | src/core/daemon.ts:247-287 | one poll over the registry, its maintenance run by the registry's own methods and its snapshot read from the rows, as a step of the specification |
| `Daemon.ProjectionDaemon.Maintain` | src/core/daemon.ts:303-390 | the table and version after maintenance interleaved with other connections' commits; a change is reported exactly when some step reported one |
| `Daemon.PollAgrees` | src/core/daemon.ts:263-287 | with writes succeeding, a poll keeps the fast path sound, and one that reaches the database, by reading or by skipping, leaves the file showing the table's snapshot |
| `Daemon.RunAgrees` | src/core/daemon.ts:247-466 | the same over whole runs from a fresh daemon: any operations of other connections, any maintenance, throwing steps, failed reads and reconnections |
| `Daemon.QuietMaintenance` | src/core/daemon.ts:303-390 | registry maintenance that reports no change and met no external commit left the table as it was |
| `Daemon.StaleSweepDropped` | src/core/daemon.ts:306-312 | a rollout sweep begun before another connection's commit is dropped whole and reports nothing |
| `Daemon.PollPublishes` | src/core/daemon.ts:247-287 | with writes succeeding, the file says the fixed code of a failure to open or read the version, which drops the connection, else the table, else the code of a failed read |
| `Daemon.UnwrittenPoll` | src/core/daemon.ts:437-466 | a failed write leaves the file as it was and never turns the daemon healthy over a wrong file |
| `Daemon.QuietPollRests` | src/core/daemon.ts:270-277 | with nothing committed since a healthy poll the next one neither reads nor writes |
| `Daemon.FailedWriteExactly` | src/core/daemon.ts:437-447 | after a failed write, any next poll that reads and writes without failing makes up for it exactly when it does not take the fast path or the file already showed the table |
| `Daemon.FailedWriteSkipped` | src/core/daemon.ts:270-277 | three polls of a fresh daemon, one failed write: healthy, connected, and the file does not show the table |
| `Gestures.GestureRecognizer.Feed` | app/src/gestures.ts:106-223 | the stroke and the intents after every input |
| `Gestures.GestureRecognizer.LongPressDueAt` | app/src/gestures.ts:99-104 | a deadline is advertised exactly when a tick at or after it would fire |
| `Gestures.StepLaws` | app/src/gestures.ts:106-223 | a stroke has one owner, and its drag starts once before it moves or ends |
| `Gestures.OutcomesSpent` | app/src/gestures.ts:106-223 | a stroke yields at most one long press, drag settle or flick |
| `Gestures.LongPressAlone` | app/src/gestures.ts:144-156 | a long press comes alone and never from or into a drag |
| `Gestures.TraceReads` | app/src/gestures.ts:106-160 | after any path of moves the stroke has moved exactly if a waypoint left the slop circle, and is owned by the axis that led at the first waypoint far enough along either |
| `Gestures.ReleaseReads` | app/src/gestures.ts:161-215 | what a release after any path means: drag end, drag from the release, flick with its direction, swallowed click, or tap |
| `Gestures.AnchorIsOldest` | app/src/gestures.ts:81-87 | the velocity anchor is the oldest sample inside the window |
| `Gestures.ScrollRecognizer.Feed` | app/src/gestures.ts:238-272 | a burst acts once, at the first sample where its travel reaches the threshold, along the longer axis |
| `Paging.DragOffset` | app/src/paging.ts:32-35 | never past one page of travel, on the finger's side, one to one toward an existing page |
| `Paging.SettleDrag` | app/src/paging.ts:41-54 | commits exactly when far enough or flung the same way toward an existing page, and then names the adjacent page |
| `Paging.PagingSession.Release` | app/src/paging.ts:92-98 | a verdict exactly for a live drag, which then settles |
| `Paging.Strip.Feed` | app/src/main.ts:892-948 | every pointer input keeps the composed invariant: dragging only under a live locked stroke, one outcome per stroke, the board unchanged meanwhile |
| `Paging.Strip.SettleDone` | app/src/main.ts:869-885 | a commit lands on the existing neighbour it named, then the newest payload is applied and the page kept if it still exists |
| `Paging.Strip.Submit` | app/src/paging.ts:126-134 | applied at rest with the page kept if it still exists, deferred otherwise with the board untouched, always in submission order |
| `Paging.Strip.ResubmitLatest` | app/src/paging.ts:144-148 | the newest payload, and no older one, is reduced again at rest or left waiting while a gesture owns the board; nothing happens before the first payload |
| `Activity.TotalAtBoundary` | app/src/token-usage.ts:187-199 | zero at midnight, else the newest reading by the boundary unless it is too old |
| `Activity.TotalKnownExactly` | app/src/token-usage.ts:187-199 | away from midnight the total is known exactly when a reading lies in the half hour up to the boundary, and is the last one's |
| `Activity.MeasureInterval` | app/src/token-usage.ts:207-224 | each hour-long interval as specified |
| `Activity.ReduceCurveActivity` | app/src/token-usage.ts:201-235 | the 24 buckets of the intervals by clock hour |
| `Activity.ClampIdle` | app/src/token-usage.ts:219-223 | the clamp at zero never changes a measured interval |
| `Activity.Telescopes` | app/src/token-usage.ts:207-224 | measured intervals sum to the total at the end of the last one |
| `Activity.TodayTelescopes` | app/src/token-usage.ts:201-235 | when no elapsed bucket is unmeasured, today's buckets sum to the latest total, taken after midnight |
| `Activity.YesterdayTelescopes` | app/src/token-usage.ts:178-185 | when no bucket of the kept curve's day is unmeasured, its buckets sum to the total published for yesterday, and none is published unless that day is the one before today's |
| `Activity.CurveDay` | app/src/token-usage.ts:166-169 | any valid curve yields a valid day |

## Left out

- Board.ReduceBoard: takes the agent graph, so the legacy `groupedOrder` (`app/src/board.ts:45-135`) is left out; it serves only snapshots without a graph and need not terminate when refs repeat.
- Board.JumpBoard: the same, as it reduces the view first.
- The Evener WebSocket client (`src/core/evener.ts`): the model starts at the update it hands to the registry.
- Schema migrations: the final table's constraints are the registry's starting point.
- Provider hook decoding, title scraping and the Paseo file loader: the model starts at events and overlay records.
- Quota collection and display, DOM rendering, the native host, installers, extensions and the command line.
- Card labels, the degraded flag and status icons: copied per card and easy.
- String shape: length bounds, non-emptiness of ids and terminal ids, JSON text, and the parser's field-type checks. Only the structural checks of the validator are modelled.
- String order is by code point, not by UTF-16 unit, in the projection's comparator; the board's locale comparison is an arbitrary total order.
- Row order of an unordered SELECT is arbitrary; rows are assumed distinct by their primary key.
- Ties: a JavaScript sort is stable; equal slots cannot occur in a well-formed table, so ties are not modelled.
- Time zones: the chart's clock hours are an arbitrary map from instants to hours, and day bounds are parameters.
- The rates and trend arrows of the rail, and chart geometry.
- Idempotence of the prune, which is false: deleting a duplicate ref can create new links.
- Rollout resolution around the reader (the thread index query, evicting vanished paths): the cache is keyed by path and only the path being read changes. File bytes are integers from 0 to 255, line decoding is an arbitrary function, and a resumed file is assumed to have grown only by appending.
- Restarting a stopped daemon object, whose new connection could repeat the old version number; heartbeats, which rewrite the same snapshot; the timing of maintenance passes; and diagnostics.
- Reentrancy of polls: each poll is one step; the in-flight guards and promises are not modelled, so what a settled sweep hands to maintenance is arbitrary.
- The one-shot click suppression, keyboard and wheel wiring, the action sheet's settlement bookkeeping, and animation timing. `Paging.Strip` covers the recognizer, the session, the deferral latch and the settle.
- Projection.CarryStatuses: the order of roots is any listing of them; the source's slot order is one.
- Paging.Strip.ResubmitLatest: what the reduction of a payload yields (a page count, or the board held as it is by the wake grace) is a parameter of the moment it is applied.
- UpkeepLaws.SweepRemovesExactly: for a sweep with one rollout for each child, as the thread index lists them; what a repeated child's records do one after another is `UpkeepLaws.KnownChild`.
- ResultLaws.PassReaches: for a root that one record of the pass names; where several do, each is `ResultLaws.RecordReaches` on what the one before it left.
