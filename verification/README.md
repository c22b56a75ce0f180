# Verification models of the agent platform

This project models eight parts of the repository in Dafny and proves what they promise.

* **MCP server lifecycle** (`id_mapping.dfy`, `mcp_slot.dfy`, `mcp_catalog.dfy`,
  `mcp_lifecycle.dfy`, `mcp_invariants.dfy`, `mcp_theorems.dfy`, `mcp_saturation.dfy`,
  `mcp_tasks.dfy`, `mcp_registry.dfy`, `mcp_offers.dfy`). A slot is a class whose methods are the write-lock
  sections of `manager.rs`. Their effects on slot values are the steps of a transition system: the
  task that holds the server's lifecycle lock has a program counter; leased operations and the
  closes owed by `close_all` interleave with it freely. Invariants are proved for every step, hence
  every run of any length. The tasks themselves (reconnect, refresh, toggle, failure recording) are
  also written as straight-line code over the slot class and proved to be runs of that system. The
  registry is then rebuilt over any number of such servers, and what each of them offers to it is
  followed over the runs.
* **Eval-run store** (`calendar.dfy`, `eval_store.dfy`, `eval_files.dfy`). The write-once protocol
  with every file-system call an atomic event of any number of writers and pruners, which may fail
  or die between calls; the same store as one caller sees it; and the closed-form month
  computation against a calendar defined month by month and year by year.
* **JSON Render patches** (`json_value.dfy`, `json_pointer.dfy`, `json_patch.dfy`,
  `json_walk.dfy`, `json_render.dfy`). Pointer parsing against the printing rule of section 3 of
  RFC 6901, the edits by pointer and their read-back, frame, undo and move laws, the loops that
  walk down to the edited place, and the compilation of a patch stream.
* **Baseline diff** (`ordering.dfy`, `report_diff.dfy`), **judge and revise loop**
  (`revise_loop.dfy`), **discounted Beta estimates** (`disc_beta.dfy`), **batching sink**
  (`batching.dfy`) and **tool-call matching** (`matching.dfy`). `wrappers.dfy` and
  `saturating.dfy` hold what they share.

What the environment decides is a parameter or part of an event: whether a connect, listing, close
or file-system call succeeds and what it answers, how a line parses, what the agent runtime and the
judge reply.

## Findings

* A prune can remove a run that is newer than its cut-off. It does so exactly when, since it read
  the old file, another run that is not old was committed at the same path and has stayed
  (`EvalStore.PruneRemovesNewIff`); that takes a second pruner that removed the file it had read
  (`EvalStore.NewRunNeedsAnotherPruner`), and from every state in which two pruners are about to
  remove one file the store can go on to such a removal
  (`EvalStore.TwoRemoversReachANewRun`). Prunes that never reach for one file together remove only
  old runs, however they overlap (`EvalStore.OneRemoverRemovesOnlyOld`).
* The generation guard separates runtimes for every lease below the last value of the 64-bit
  counter. At that value a stale result is recorded exactly when the present runtime carries it too
  and the slot is connected (`McpTheorems.StaleLeaseActsIff`); a constructed server reaches such a
  state after as many reconnects as the counter has values
  (`McpSaturation.SaturatedGenerationConfusesLeases`).
* Replace does not always read back and remove does not always undo add; the exact conditions and
  inputs outside them are in `JsonPatch`. When a missing parent is created its kind is chosen by the
  next *parent* segment alone, so the last segment never makes an array.
* Duplicate keys can make the diff depend on the order of the items. It does not exactly when all
  pairings of items that share a key read the same (`ReportDiff.DiffOrderFreeIff`), which the
  validation of the checked entry points guarantees.
* Concurrent flushes of the batching sink can deliver events out of order. The inner sink has seen
  the first accepted events, in order, exactly when no event was forwarded while an earlier batch
  had events left (`Batching.DeliveredInOrderIff`).
* `StillFailing` is documented in `report.rs` as a failure whose set of failures changed; the code
  reports every key that fails on both sides, with equal failures too
  (`ReportDiff.StillFailingIff`, `ReportDiff.SameFailuresStillFailing`). The model follows the code.

## Model

| member | source | states |
|---|---|---|
| IdMapping.SanitizeComponent | crates/remo-ext-mcp/src/id_mapping.rs:9-33 | the loop with its trim joins the alphanumeric runs by single underscores; the result has no "__" and no underscore at either end |
| IdMapping.LoopShapeStep | crates/remo-ext-mcp/src/id_mapping.rs:10-22 | one character of the loop keeps `out` a separator-trimmed join of the words read so far |
| IdMapping.TrimOfLoopShape | crates/remo-ext-mcp/src/id_mapping.rs:24-24 | trimming underscores from the loop's output leaves exactly the joined words |
| IdMapping.JoinIsClean | crates/remo-ext-mcp/src/id_mapping.rs:9-33 | joined words are clean and split back into the same words |
| IdMapping.CleanIsItsWords | crates/remo-ext-mcp/src/id_mapping.rs:9-33 | a clean string, one underscore at its end allowed, is the join of its words |
| IdMapping.FixedIffClean | crates/remo-ext-mcp/src/id_mapping.rs:9-33 | the fixed points of the sanitiser are exactly the clean strings |
| IdMapping.SanitizeIdempotent | crates/remo-ext-mcp/src/id_mapping.rs:9-33 | sanitising is idempotent, what it gives is clean, and every clean string is given |
| IdMapping.WordsSplit | crates/remo-ext-mcp/src/id_mapping.rs:9-22 | any other character separates the words around it and takes no part in them |
| IdMapping.SanitizedAgreeIff | crates/remo-ext-mcp/src/id_mapping.rs:9-33 | two names sanitise alike exactly when they have the same words |
| IdMapping.RejectedIffNoAlnum | crates/remo-ext-mcp/src/id_mapping.rs:25-32 | the error is returned exactly for names with no ASCII alphanumeric |
| IdMapping.FormatDecodable | crates/remo-ext-mcp/src/id_mapping.rs:35-39 | the "mcp__server__tool" form determines both components when the servers are clean |
| IdMapping.ToolIdAgreesIff | crates/remo-ext-mcp/src/id_mapping.rs:35-39 | tool ids agree exactly when both sanitised components agree |
| IdMapping.ToolIdShape | crates/remo-ext-mcp/src/id_mapping.rs:35-39 | an id is "mcp", the server's words and the tool's, kept apart by double underscores, and there is one exactly when both names have a word |
| McpCatalog.BuildPublishedTools | crates/remo-ext-mcp/src/manager.rs:830-856 | the loop returns the catalogue of the definitions or the first definition that cannot be published |
| McpCatalog.PublishedIff | crates/remo-ext-mcp/src/manager.rs:830-856 | it succeeds exactly when every name sanitises and no two share an id |
| McpCatalog.PublishedHolds | crates/remo-ext-mcp/src/manager.rs:830-856 | the catalogue maps each definition's id to that definition and holds nothing else |
| McpCatalog.DiscoverTools | crates/remo-ext-mcp/src/manager.rs:798-828 | a tool is found under an id exactly when some slot publishes it there and is connecting, connected, reconnecting or disconnected; else the nested loops name an id that two such slots publish |
| McpCatalog.UnionComesFrom | crates/remo-ext-mcp/src/manager.rs:798-828 | an id is in the union exactly when some eligible slot serves it |
| McpCatalog.UnionFailsIff | crates/remo-ext-mcp/src/manager.rs:798-828 | discovery fails exactly when two eligible slots publish one id |
| McpCatalog.UnionIsDisjointUnion | crates/remo-ext-mcp/src/manager.rs:798-828 | each id carries the tool of the one eligible slot that serves it |
| McpCatalog.UnionIsWhatIsPublished | crates/remo-ext-mcp/src/manager.rs:798-828 | the union holds a tool under an id exactly when a server neither turned off nor given up publishes it there |
| McpCatalog.DistinctServersNeverConflict | crates/remo-ext-mcp/src/manager.rs:798-828 | servers whose names sanitise apart can never collide |
| McpInvariants.InitInv | crates/remo-ext-mcp/src/manager.rs:2102-2161 | a constructed server satisfies the whole invariant |
| McpInvariants.ReconnectLedger | crates/remo-ext-mcp/src/manager.rs:1368-1451 | every section of a reconnect keeps each transport in exactly one place |
| McpInvariants.ReconnectGeneration | crates/remo-ext-mcp/src/manager.rs:1368-1451 | every section of a reconnect keeps the installed generations increasing |
| McpInvariants.ToggleLedger | crates/remo-ext-mcp/src/manager.rs:1340-1366 | disabling and enabling neither lose nor double-close a transport |
| McpInvariants.CloseAllLedger | crates/remo-ext-mcp/src/manager.rs:2193-2227 | `close_all` owes exactly one close for each runtime it took, and pays it once |
| McpInvariants.StepLifecycle | crates/remo-ext-mcp/src/manager.rs:1233-1366 | every event, lock-free ones included, keeps the state machine's shape |
| McpInvariants.StepLedger | crates/remo-ext-mcp/src/manager.rs:1368-1451 | every event keeps each transport in exactly one place |
| McpInvariants.StepHealth | crates/remo-ext-mcp/src/manager.rs:1025-1105 | every event keeps the budgets equal to the trailing failures of their kind |
| McpInvariants.StepThreshold | crates/remo-ext-mcp/src/manager.rs:1498-1547 | every event keeps a connected slot below the threshold outside the failure section |
| McpInvariants.StepGeneration | crates/remo-ext-mcp/src/manager.rs:1137-1231 | every event keeps generations increasing and every lease on an installed runtime |
| McpInvariants.StepPublished | crates/remo-ext-mcp/src/manager.rs:1183-1205 | every event keeps published catalogues built from the server's own name |
| McpTheorems.StepInv | crates/remo-ext-mcp/src/manager.rs:1183-1451 | the six invariants together survive every event |
| McpTheorems.RunInv | crates/remo-ext-mcp/src/manager.rs:1183-1451 | they survive every interleaving of any length |
| McpTheorems.TransportsConserved | crates/remo-ext-mcp/src/manager.rs:1107-1451 | each opened transport is in the slot, in flight, owed a close or closed once, never two; at rest all but the slot's are closed |
| McpTheorems.InstallNeverOverwrites | crates/remo-ext-mcp/src/manager.rs:1274-1299 | no assignment to the runtime field ever drops a live runtime, and a closed one is never installed |
| McpTheorems.ClosedStaysClosed | crates/remo-ext-mcp/src/manager.rs:858-861 | no event takes a close back |
| McpTheorems.SlotShape | crates/remo-ext-mcp/src/manager.rs:1060-1366 | in every reachable state the fields fit the lifecycle: runtime, catalogue generation, attempts and their bound |
| McpTheorems.CyclesShow | crates/remo-ext-mcp/src/manager.rs:1233-1272 | the slot is flagged as reconnecting exactly during a cycle, and reads so while the old runtime is being closed |
| McpTheorems.QuietWhenUnlocked | crates/remo-ext-mcp/src/manager.rs:1498-1547 | with the lock free there is no transient state, a runtime means connected, and both budgets are below the threshold |
| McpTheorems.BudgetsCountFailures | crates/remo-ext-mcp/src/manager.rs:1025-1105 | each budget is the number of failures of its kind since its last success or reset; the report is the larger |
| McpTheorems.StaleLeaseActsIff | crates/remo-ext-mcp/src/manager.rs:1183-1231 | a stale result or catalogue is recorded exactly when lease and present runtime both carry the last generation and the slot is connected; otherwise the slot keeps its value |
| McpTheorems.StaleLeaseIsInert | crates/remo-ext-mcp/src/manager.rs:1207-1231 | an operation leased below the last generation from an earlier runtime changes nothing in the slot and starts no reconnect |
| McpTheorems.CurrentLeaseActs | crates/remo-ext-mcp/src/manager.rs:1183-1231 | an operation leased from the present runtime of a connected slot does act: on the capabilities, on the budget of its own kind, on the catalogue of that runtime |
| McpTheorems.LeaseIsTheRuntime | crates/remo-ext-mcp/src/manager.rs:461-493 | a well-shaped slot leases exactly the runtime it has |
| McpTheorems.GenerationNamesTransport | crates/remo-ext-mcp/src/manager.rs:1137-1141 | in every reachable state generations never decrease from one installed runtime to the next, and two share one exactly when it is the last value |
| McpTheorems.ReservedGenerationIsFreshIff | crates/remo-ext-mcp/src/manager.rs:1137-1141 | a reserved generation differs from that of every installed runtime exactly while the last installed one is below the last value |
| McpSaturation.Cycles | crates/remo-ext-mcp/src/manager.rs:1368-1451 | after any number of reconnects from construction the server is connected under the generation and transport of that number |
| McpSaturation.SaturatedGenerationConfusesLeases | crates/remo-ext-mcp/src/manager.rs:1207-1231 | a constructed server reaches a state in which the success of an operation leased from a closed transport clears the present runtime's failure |
| McpTheorems.StepPotential | crates/remo-ext-mcp/src/manager.rs:1115-1135 | each failed reconnect cycle strictly uses up budget and no event but a renewal gives any back |
| McpTheorems.RunPotential | crates/remo-ext-mcp/src/manager.rs:1252-1271 | over any run the failed cycles and the slept backoff are paid from the initial budget |
| McpTheorems.ReconnectBudget | crates/remo-ext-mcp/src/manager.rs:963-971 | at most six cycles fail between renewals and they sleep at most 31 units |
| McpTheorems.PermanentFailureSticks | crates/remo-ext-mcp/src/manager.rs:1233-1251 | only a toggle or `close_all` leaves permanent failure, and nothing is opened meanwhile |
| McpTasks.HeldIsRun | crates/remo-ext-mcp/src/manager.rs:1368-1451 | the sections of one task without interruption are a run of the protocol |
| McpTasks.ReconnectServerLocked | crates/remo-ext-mcp/src/manager.rs:1368-1451 | the code over the slot's methods succeeds exactly when slot, close, connect and listing allow it, keeps the slot well shaped, and on success has closed or kept every transport once |
| McpTasks.ReconnectSucceedsIff | crates/remo-ext-mcp/src/manager.rs:1368-1451 | a reconnect succeeds exactly when slot, close, connect and listing allow it; then the new transport is installed under the next generation with the listed catalogue and clean budgets |
| McpTasks.ReconnectFails | crates/remo-ext-mcp/src/manager.rs:1115-1135 | a failed reconnect leaves a disabled slot alone and any other without runtime, one attempt on, unless refused or stopped by the old transport's close |
| McpTasks.ReconnectConserves | crates/remo-ext-mcp/src/manager.rs:1368-1451 | every transport that was live or is opened stays in the slot or is closed once |
| McpTasks.ReconnectKeepsValid | crates/remo-ext-mcp/src/manager.rs:1368-1451 | a reconnect keeps the slot's shape and the law of its budgets |
| McpTasks.ReconnectIsARun | crates/remo-ext-mcp/src/manager.rs:1368-1451 | the code is a run of the protocol with the same slot and the same closes at its end |
| McpTasks.RecordRuntimeOperationFailure | crates/remo-ext-mcp/src/manager.rs:1498-1547 | the code gives a connected slot back below both thresholds, whatever failed |
| McpTasks.FailureKeepsBelowThreshold | crates/remo-ext-mcp/src/manager.rs:1498-1547 | a connected slot is below both thresholds again when the lock is given back; the runtime changes exactly at the third failure in a row of one kind |
| McpTasks.FailureIsARun | crates/remo-ext-mcp/src/manager.rs:1498-1547 | it is a run of the protocol |
| McpTasks.RefreshServer | crates/remo-ext-mcp/src/manager.rs:1725-1813 | the code gives a connected slot back well shaped and below both thresholds |
| McpTasks.RefreshServes | crates/remo-ext-mcp/src/manager.rs:1725-1813 | a connected slot then serves the new listing, or its last good one while fewer than three listings have failed in a row |
| McpTasks.RefreshElsewhere | crates/remo-ext-mcp/src/manager.rs:1725-1813 | a disconnected server, and the third failed listing, lead to a reconnect; in every other state a refresh does nothing |
| McpTasks.RefreshIsARun | crates/remo-ext-mcp/src/manager.rs:1725-1813 | it is a run of the protocol |
| McpTasks.Toggle | crates/remo-ext-mcp/src/manager.rs:2552-2577 | the code keeps the slot well shaped; disabling ends disabled with every live transport closed once |
| McpTasks.ToggleLaw | crates/remo-ext-mcp/src/manager.rs:1462-1476 | enabling gives every server a new budget and succeeds by the environment alone; disabling leaves only closed transports |
| McpTasks.ToggleIsARun | crates/remo-ext-mcp/src/manager.rs:2552-2577 | it is a run of the protocol |
| McpRegistry.RunManagerInv | crates/remo-ext-mcp/src/manager.rs:2193-2227 | every server of every manager run satisfies the single-server invariants |
| McpRegistry.DiscoveryNeverConflicts | crates/remo-ext-mcp/src/manager.rs:922-932 | with server names that sanitise apart every rebuild publishes |
| McpRegistry.RegistryIsOneStatesUnion | crates/remo-ext-mcp/src/manager.rs:922-932 | the registry is the union of the eligible catalogues at one state of the run, and each write adds one to the version |
| McpRegistry.RegistryIdsAreHonest | crates/remo-ext-mcp/src/manager.rs:798-856 | every registry id is the one computed from the tool it leads to |
| McpOffers.UnionByOffers | crates/remo-ext-mcp/src/manager.rs:798-828 | the registry depends only on what each server offers |
| McpOffers.StepKeepsOffer | crates/remo-ext-mcp/src/manager.rs:1107-1366 | only installing or applying a catalogue, turning off, `close_all` and the last failed cycle change what a server offers |
| McpOffers.ReconnectOffers | crates/remo-ext-mcp/src/manager.rs:1368-1451 | a reconnect that fails within its budget keeps the offer, one that succeeds replaces it by the listing, the last failure withdraws it |
| McpOffers.RunKeepsUnion | crates/remo-ext-mcp/src/manager.rs:798-828 | over any manager run without such an event the tools to be published stay what they were |
| McpOffers.OutOfServiceOffersNothing | crates/remo-ext-mcp/src/manager.rs:802-809 | a server turned off or given up offers nothing, nor does one after `close_all`, which hands over its runtime |
| McpOffers.CloseAllEmptiesUnion | crates/remo-ext-mcp/src/manager.rs:2193-2227 | after `close_all` there is nothing to publish |
| Calendar.YearStartClosed | crates/remo-eval/src/eval_run.rs:762-775 | the recursive year starts have the closed form with leap-day counts |
| Calendar.MonthOfDay | crates/remo-eval/src/eval_run.rs:770-774 | the month formula picks the month of the March year that contains the day |
| Calendar.YearOfEra | crates/remo-eval/src/eval_run.rs:766-768 | the correction terms cancel exactly the leap days of the era |
| Calendar.MarchYear | crates/remo-eval/src/eval_run.rs:762-769 | every day number, negative ones included, gets its March year and day |
| Calendar.YearMonthIsGregorian | crates/remo-eval/src/eval_run.rs:762-775 | the result is the proleptic Gregorian year and month, exactly when that year fits 32 bits |
| Calendar.MonthMonotone | crates/remo-eval/src/eval_run.rs:762-775 | a later day is never in an earlier month, so each day is in one month |
| Calendar.YearMonthMonotone | crates/remo-eval/src/eval_run.rs:762-775 | the computed month never goes back in time |
| Calendar.SameShardIffSameMonth | crates/remo-eval/src/eval_run.rs:397-400 | two runs share a shard exactly when they started in the same calendar month |
| EvalStore.ShardIsTheMonth | crates/remo-eval/src/eval_run.rs:397-400 | a run is stored under its id in the directory of the Gregorian month in which it started |
| EvalStore.RefusedIds | crates/remo-eval/src/eval_run.rs:755-760 | which ids are no path component, and no other |
| EvalStore.WriterStepMarkers | crates/remo-eval/src/eval_run.rs:410-440 | every call of a writer keeps markers claimed by at most one owner |
| EvalStore.PrunerStepInv | crates/remo-eval/src/eval_run.rs:697-753 | every call of a pruner keeps both the marker and the file invariant |
| EvalStore.ExecuteInv | crates/remo-eval/src/eval_run.rs:504-581 | every history of concurrent writers and pruners keeps them |
| EvalStore.OneFilePerId | crates/remo-eval/src/eval_run.rs:504-581 | at most one data file per run id across all shards |
| EvalStore.FileHasMarker | crates/remo-eval/src/eval_run.rs:410-440 | a data file exists only while its marker does, in the shard of its own start time |
| EvalStore.MarkerHasOneOwner | crates/remo-eval/src/eval_run.rs:410-440 | a marker is owned by one writer in flight, one file or one pruner |
| EvalStore.NoOrphans | crates/remo-eval/src/eval_run.rs:438-440 | markers without owner arise only from a task that died or a clean-up that failed |
| EvalStore.LinkNeverCollides | crates/remo-eval/src/eval_run.rs:540-581 | the hard link never meets an existing file |
| EvalStore.RemovedBetween | crates/remo-eval/src/eval_run.rs:697-753 | a file that is gone was removed by some event in between |
| EvalStore.CommitNeedsMarker | crates/remo-eval/src/eval_run.rs:504-581 | only the task that reserved the id ever creates its data file |
| EvalStore.CommitNeedsValidRun | crates/remo-eval/src/eval_run.rs:504-516 | each commit follows a check by its own task that found no marker and a well-formed run |
| EvalStore.RewritesNeedAPrune | crates/remo-eval/src/eval_run.rs:504-581 | between two commits of one id a pruner removed the first file |
| EvalStore.CommittedNeverChanges | crates/remo-eval/src/eval_run.rs:540-581 | a committed file holds the same run until some event removes it |
| EvalStore.RemovalIsAPruners | crates/remo-eval/src/eval_run.rs:697-753 | only a pruner that read the path removes a data file |
| EvalStore.ChangedByCommit | crates/remo-eval/src/eval_run.rs:540-581 | what a file holds it got by a commit that nothing has removed since |
| EvalStore.PruneRemovesNewIff | crates/remo-eval/src/eval_run.rs:697-753 | the file about to be removed is not older than the cut-off exactly when a commit since the reading put a newer run there that has stayed |
| EvalStore.NewRunNeedsAnotherPruner | crates/remo-eval/src/eval_run.rs:697-753 | then another pruner removed the file that had been read |
| EvalStore.OneRemoverRemovesOnlyOld | crates/remo-eval/src/eval_run.rs:697-753 | while no two pruners reach for one file, only runs older than the cut-off are removed |
| EvalStore.TwoRemoversReachANewRun | crates/remo-eval/src/eval_run.rs:697-753 | from every reachable state with two pruners at one file the store can go on so that the second removes any new run of that path |
| EvalStore.OverlappingPrunesRemoveANewRun | crates/remo-eval/src/eval_run.rs:697-753 | for any two runs of one path on either side of a cut-off, a history from the empty store that is about to remove the newer one |
| EvalFiles.FileEvalRunStore.Locate | crates/remo-eval/src/eval_run.rs:442-458 | the search over shards finds the id's file exactly when there is one |
| EvalFiles.FileEvalRunStore.Write | crates/remo-eval/src/eval_run.rs:504-581 | which writes succeed and which error the others get; a refused write changes nothing visible |
| EvalFiles.FileEvalRunStore.Read | crates/remo-eval/src/eval_run.rs:583-594 | returns the committed run of that id, or the error of an unusable id, or that of an absent run, each exactly then |
| EvalFiles.FileEvalRunStore.Prune | crates/remo-eval/src/eval_run.rs:697-753 | a file is left exactly when its run did not start before the cut-off, a marker exactly when it belongs to no such run, and the files gone are counted |
| EvalFiles.FileEvalRunStore.PruneShard | crates/remo-eval/src/eval_run.rs:707-745 | of one shard the files from the cut-off on are left, of the others all, and whether the directory is left empty is reported exactly |
| EvalFiles.PruneIsARun | crates/remo-eval/src/eval_run.rs:697-753 | an undisturbed prune is a run of the protocol that leaves the data and markers `Prune` promises |
| EvalFiles.WriteIsARun | crates/remo-eval/src/eval_run.rs:504-581 | so is an undisturbed write |
| EvalFiles.FileEvalRunStore.ListFull | crates/remo-eval/src/eval_run.rs:606-695 | every run of the dataset from the lower bound on and before the upper one, once, newest first, cut to the limit |
| JsonValue.SubsetReflexive | crates/remo-eval/src/expectation.rs:281-291 | every value covers itself |
| JsonValue.SubsetTransitive | crates/remo-eval/src/expectation.rs:281-291 | covering is transitive |
| JsonValue.SubsetAntisymmetric | crates/remo-eval/src/expectation.rs:281-291 | values that cover each other are equal |
| JsonValue.CoversIff | crates/remo-eval/src/expectation.rs:281-291 | a value covers another exactly when every place of that other, named by keys and indices, is there too: leaves equal, arrays as long, objects with at least those keys |
| JsonValue.CoversByKeys | crates/remo-eval/src/expectation.rs:281-291 | a further key keeps the cover, a missing one or an array of another length breaks it |
| JsonPointer.UnescapeEscape | crates/remo-ext-generative-ui/src/json_render.rs:358-367 | the two whole-string passes undo the escaping of section 3 of RFC 6901 |
| JsonPointer.ParsePrint | crates/remo-ext-generative-ui/src/json_render.rs:358-367 | printing any non-empty segment list and parsing gives the list back |
| JsonPointer.PrintParse | crates/remo-ext-generative-ui/src/json_render.rs:358-367 | parsing any well-formed pointer and printing gives the pointer back |
| JsonPointer.OrderOfPassesMatters | crates/remo-ext-generative-ui/src/json_render.rs:358-367 | in the other order of passes "~01" would become "/" |
| JsonPointer.DecimalOfValue | crates/remo-ext-generative-ui/src/json_render.rs:369-371 | a numeral without leading zeros is the decimal form of its value |
| JsonPointer.CanonicalUnique | crates/remo-ext-generative-ui/src/json_render.rs:369-371 | canonical segments that name one element are equal |
| JsonPointer.ParseDecimal | crates/remo-ext-generative-ui/src/json_render.rs:155-174 | a number within 64 bits is read back from its decimal form, with a plus sign or without; a larger one is no index |
| JsonPatch.EditReadsBackIff | crates/remo-ext-generative-ui/src/json_render.rs:193-334 | a replaced or added value reads back exactly when no step meets an array with a non-index, there is a container to write in, and an insertion does not run past the end |
| JsonPatch.ReplaceCanMiss | crates/remo-ext-generative-ui/src/json_render.rs:257-276 | two inputs where it does not read back |
| JsonPatch.DivergeIffIncomparable | crates/remo-ext-generative-ui/src/json_render.rs:358-371 | for canonical paths, parting company is the same as neither being a prefix of the other |
| JsonPatch.ReplaceFrame | crates/remo-ext-generative-ui/src/json_render.rs:278-334 | every resolving path that parts from the replaced one keeps its value, through parent creation, padding and overwriting |
| JsonPatch.EditActsOnParent | crates/remo-ext-generative-ui/src/json_render.rs:193-225 | below an existing parent an edit does to it what its last segment says and nothing else |
| JsonPatch.AddFrame | crates/remo-ext-generative-ui/src/json_render.rs:193-225 | adding below an existing parent leaves paths that part from the parent alone |
| JsonPatch.ElementAt | crates/remo-ext-generative-ui/src/json_render.rs:155-174 | a decimal index resolves in an array exactly below its length, to that element |
| JsonPatch.AddToArray | crates/remo-ext-generative-ui/src/json_render.rs:193-225 | adding to an array makes it longer by one with the value at its index, or at the end; what follows moves up, what precedes stays |
| JsonPatch.ReplaceInArray | crates/remo-ext-generative-ui/src/json_render.rs:257-276 | replacing in an array puts the value at its index, with nulls up to it past the end; everything else stays |
| JsonPatch.MissingParentKind | crates/remo-ext-generative-ui/src/json_render.rs:278-334 | a missing member on the way becomes an array exactly when the next parent segment is made of digits or "-" |
| JsonPatch.RemoveAbsent | crates/remo-ext-generative-ui/src/json_render.rs:227-255 | removing what is not there changes nothing |
| JsonPatch.RemoveUndoesAddIff | crates/remo-ext-generative-ui/src/json_render.rs:193-255 | remove after add restores the document exactly when the parent is an object without the key or an array not shorter than the index |
| JsonPatch.RemoveCanLose | crates/remo-ext-generative-ui/src/json_render.rs:193-255 | two inputs where it does not |
| JsonPatch.AddMemberFrame | crates/remo-ext-generative-ui/src/json_render.rs:193-225 | adding an object member changes no path that parts from it, present or absent |
| JsonPatch.RemoveMemberFrame | crates/remo-ext-generative-ui/src/json_render.rs:227-255 | removing an object member changes no path that parts from it |
| JsonPatch.RemovedIsGone | crates/remo-ext-generative-ui/src/json_render.rs:227-255 | a removed object member no longer resolves |
| JsonPatch.MoveLaw | crates/remo-ext-generative-ui/src/json_render.rs:117-126 | a move between object members leaves the value at the target, nothing at the source, all else as it was (section 4.4 of RFC 6902) |
| JsonWalk.EnsureParentContainer | crates/remo-ext-generative-ui/src/json_render.rs:278-334 | the walk that creates, pads and overwrites reaches the place where the last segment completes the edit of the whole document |
| JsonWalk.GetParentContainer | crates/remo-ext-generative-ui/src/json_render.rs:336-356 | the walk that creates nothing reaches the removal's parent, or fails exactly where a removal changes nothing |
| JsonRender.SpecDocument.GetByPath | crates/remo-ext-generative-ui/src/json_render.rs:155-174 | the loop resolves the pointer segment by segment |
| JsonRender.SpecDocument.SetByPath | crates/remo-ext-generative-ui/src/json_render.rs:176-191 | the in-place write is the replace edit whose laws are proved above |
| JsonRender.SpecDocument.AddByPath | crates/remo-ext-generative-ui/src/json_render.rs:193-225 | the walking write is the add edit whose array, read-back and undo laws are proved above |
| JsonRender.SpecDocument.RemoveByPath | crates/remo-ext-generative-ui/src/json_render.rs:227-255 | the in-place removal is the remove edit |
| JsonRender.SpecDocument.ApplySpecStreamPatch | crates/remo-ext-generative-ui/src/json_render.rs:112-153 | each operation's effect and error; a failing patch leaves the document as it was |
| JsonRender.CompileOutput | crates/remo-ext-generative-ui/src/json_render.rs:53-110 | succeeds exactly when the content denotes a valid specification, and returns that one |
| JsonRender.RootElementResolves | crates/remo-ext-generative-ui/src/json_render.rs:91-110 | in a compiled specification the printed pointer to the root element resolves |
| JsonRender.EditAtReadsBackIff | crates/remo-ext-generative-ui/src/json_render.rs:155-225 | the read-back law on textual pointers, the whole document included |
| JsonRender.MovePatchLaw | crates/remo-ext-generative-ui/src/json_render.rs:117-126 | the move law on textual pointers, as the patch applies it |
| JsonRender.CopyPatchLaw | crates/remo-ext-generative-ui/src/json_render.rs:127-135 | after a copy between object members the value is at both places and nothing else has changed |
| JsonRender.TestPatchLaw | crates/remo-ext-generative-ui/src/json_render.rs:136-150 | a test passes exactly when the place holds the value and changes nothing; a move or copy from nowhere changes nothing; which operations are unsupported |
| JsonRender.RootPatchLaw | crates/remo-ext-generative-ui/src/json_render.rs:176-236 | the whole document is replaced by add and replace, a missing value being null, and never removed |
| JsonRender.ReplayConcat | crates/remo-ext-generative-ui/src/json_render.rs:62-78 | a stream does what its beginning and then its end do |
| JsonRender.DenotedWithoutPatches | crates/remo-ext-generative-ui/src/json_render.rs:80-85 | a content is read as a whole exactly when no line of it carries a patch |
| JsonRender.ValidSpecIff | crates/remo-ext-generative-ui/src/json_render.rs:91-110 | valid exactly when "/root" holds a name that is not blank and "/elements" an object that defines it |
| JsonRender.TrimIs | crates/remo-ext-generative-ui/src/json_render.rs:54-66 | trimming leaves a stretch of the string between white space |
| ReportDiff.KeyOrder | crates/remo-eval/src/report.rs:471-520 | the key triple is strictly and totally ordered |
| ReportDiff.PairedIff | crates/remo-eval/src/report.rs:480-486 | items are paired exactly when fixture, model and sample are the same, no cell counting as the default model |
| Ordering.StringLessIff | crates/remo-eval/src/report.rs:454-456 | a string is less exactly when, after what is shared, it ends first or goes on with a smaller character |
| ReportDiff.EntriesInOrder | crates/remo-eval/src/report.rs:471-520 | entries come by fixture id, then by model with the default cell first, then by sample with the unnumbered first |
| ReportDiff.DiffPassingFields | crates/remo-eval/src/report.rs:251-312 | the drift fields are listed in the code's order |
| ReportDiff.DifferingIs | crates/remo-eval/src/report.rs:251-312 | a field is listed exactly when the observations differ, whichever run comes first |
| ReportDiff.AllFields | crates/remo-eval/src/report.rs:251-312 | no observation is left out of the comparison |
| ReportDiff.DriftIs | crates/remo-eval/src/report.rs:522-545 | two passing reports drift exactly in the observations in which they differ |
| ReportDiff.FailuresAreTheNewRuns | crates/remo-eval/src/report.rs:522-584 | the failures of an entry are the new run's, and each kind of entry says which run passed |
| ReportDiff.ValidateUniqueItemKeys | crates/remo-eval/src/report.rs:381-400 | accepts exactly the lists without a repeated key, and names one that repeats |
| ReportDiff.DiffEvalItems | crates/remo-eval/src/report.rs:471-520 | the map collections and sorted key vector yield the diff of the two runs |
| ReportDiff.DiffCoversUnion | crates/remo-eval/src/report.rs:471-520 | one entry per key of either run, strictly ascending, each the change of that key |
| ReportDiff.DiffPermutes | crates/remo-eval/src/report.rs:416-429 | with validated keys the order of the items does not matter |
| ReportDiff.MapOrderFreeIff | crates/remo-eval/src/report.rs:471-490 | the map is the same for every ordering exactly when items that share a key carry one report |
| ReportDiff.DiffOrderFreeIff | crates/remo-eval/src/report.rs:471-520 | the diff is the same for every ordering of either run exactly when all pairings of items that share a key read the same |
| ReportDiff.DistinctPairingsAgree | crates/remo-eval/src/report.rs:381-400 | validated keys guarantee that |
| ReportDiff.DuplicatesDependOnOrder | crates/remo-eval/src/report.rs:471-520 | without validation the order can matter |
| ReportDiff.ChangeMirrors | crates/remo-eval/src/report.rs:522-584 | exchanging the runs exchanges regression with fix and missing with added |
| ReportDiff.DiffSwaps | crates/remo-eval/src/report.rs:471-584 | exchanging the runs keeps the keys and mirrors every entry |
| ReportDiff.BlocksIff | crates/remo-eval/src/report.rs:236-249 | an entry blocks exactly when its key is gone, regressed, drifted, or new and failing |
| ReportDiff.GateIff | crates/remo-eval/src/report.rs:319-324 | the summary is clean exactly when every baseline key is still there, all that passed still passes unchanged, and all that is new passes |
| ReportDiff.StillFailingIff | crates/remo-eval/src/report.rs:522-584 | a key is still failing exactly when both runs fail on it |
| ReportDiff.SameFailuresStillFailing | crates/remo-eval/src/report.rs:147-156 | it is so with equal failures on both sides |
| ReportDiff.ValidateUniqueReportKeys | crates/remo-eval/src/report.rs:367-379 | accepts exactly the lists without a repeated fixture id, and names one that repeats |
| ReportDiff.DiffAgainstBaseline | crates/remo-eval/src/report.rs:431-469 | the map collections and sorted ids yield the report diff |
| ReportDiff.PlainDiffsAgree | crates/remo-eval/src/report.rs:431-469 | on items without cell or sample the keyed diff is the report diff |
| ReviseLoop.ReplayLive | crates/remo-eval/src/runtime_replayer.rs:578-711 | from the dialogue's last answer on, each text but the last was judged below the threshold and revised by the runtime; where and why the loop ends; which failure is reported |
| ReviseLoop.DialogueIs | crates/remo-eval/src/runtime_replayer.rs:611-640 | the dialogue's text is the answer to its last turn, its error the first one met |
| ReviseLoop.ReplayWent | crates/remo-eval/src/runtime_replayer.rs:649-705 | the texts a replay went through, told by judge and runtime alone |
| ReviseLoop.AcceptedAtOnce | crates/remo-eval/src/runtime_replayer.rs:657-674 | a first verdict that reaches the threshold ends the loop with the dialogue's text; no revision happens exactly then, or when the judge fails or no retry is allowed |
| ReviseLoop.RevisedIsSound | crates/remo-eval/src/runtime_replayer.rs:619-711 | for every judge and runtime: a stored verdict is the answer for the stored text, a low one means the retries are used up, an error leaves neither |
| ReviseLoop.ReplayedIsSound | crates/remo-eval/src/runtime_replayer.rs:578-711 | the same for the whole replay; a failed dialogue is never judged |
| ReviseLoop.JudgedReplay | crates/remo-eval/src/judge.rs:356-391 | replay and scoring together: the verdict that decides is one the judge gave for the reported text, it is asked again only when none was kept, and a kept low verdict means the retries are used up |
| ReviseLoop.CachedVerdictIsForThisText | crates/remo-eval/src/judge.rs:363-386 | a cached verdict is the judge's answer for the reported text |
| DiscBeta.DiscBetaState.InitBatch | crates/remo-ext-deferred-tools/src/state.rs:313-319 | entries already present are kept, others get their first mention |
| DiscBeta.DiscBetaState.ObserveTurn | crates/remo-ext-deferred-tools/src/state.rs:320-338 | every tool is discounted once a turn, called or not |
| DiscBeta.NewEntryIsWeighted | crates/remo-ext-deferred-tools/src/state.rs:242-251 | a new entry has at least 0.01 on either side |
| DiscBeta.NewEntryHasThePrior | crates/remo-ext-deferred-tools/src/state.rs:242-251 | the prior becomes the mean and the strength the sample size |
| DiscBeta.LastUsedIs | crates/remo-ext-deferred-tools/src/state.rs:320-338 | the last used turn is the last one on which the tool was called |
| DiscBeta.StaysWeighted | crates/remo-ext-deferred-tools/src/state.rs:313-338 | over any turns the parameters stay non-negative |
| DiscBeta.EffectiveNClosed | crates/remo-ext-deferred-tools/src/state.rs:281-283 | after k turns the sample size is the geometric closed form, whichever turns called the tool |
| DiscBeta.EffectiveNBounded | crates/remo-ext-deferred-tools/src/state.rs:281-283 | it never exceeds the larger of its start and 1/(1-omega) |
| DiscBeta.MeanInRange | crates/remo-ext-deferred-tools/src/state.rs:253-260 | the mean stays between 0 and 1 |
| DiscBeta.IdleTurnFallsIff | crates/remo-ext-deferred-tools/src/state.rs:313-338 | an idle turn lowers the mean exactly when alpha is positive and the total is above the code's smallest |
| DiscBeta.SupersetHasLargerMean | crates/remo-ext-deferred-tools/src/state.rs:313-338 | a tool called on a superset of turns has at least as large a mean |
| Batching.BatchingSink.Record | crates/remo-ext-observability/src/batching.rs:140-149 | a full buffer drops the event, a full batch wakes the flusher, the buffer stays within its limit |
| Batching.BatchingSink.FlushBuffer | crates/remo-ext-observability/src/batching.rs:123-137 | everything buffered is forwarded once, oldest first |
| Batching.BatchingSink.Shutdown | crates/remo-ext-observability/src/batching.rs:161-166 | the flag is set, the flusher woken and the buffer forwarded |
| Batching.FlushIsTakeThenForwards | crates/remo-ext-observability/src/batching.rs:123-137 | a flush whose steps run together does what the flush of one thread promises |
| Batching.EventsConserved | crates/remo-ext-observability/src/batching.rs:88-137 | in every interleaving accepted = delivered + taken + buffered as multisets, and the buffer keeps its limit |
| Batching.AcceptedIff | crates/remo-ext-observability/src/batching.rs:140-149 | an event is accepted exactly while the buffer is below its limit; the flusher ends exactly when it wakes after the flag |
| Batching.BatchesInOrder | crates/remo-ext-observability/src/batching.rs:123-137 | the batches cut the accepted events into consecutive pieces, each delivered in order |
| Batching.StepLayout | crates/remo-ext-observability/src/batching.rs:123-149 | the batches and the buffer always lie one after the other in the accepted events |
| Batching.OvertakingShows | crates/remo-ext-observability/src/batching.rs:134-136 | an event forwarded while an earlier batch has events left is out of place |
| Batching.DeliveredInOrderIff | crates/remo-ext-observability/src/batching.rs:123-137 | the deliveries are the first accepted events, in order, exactly when no event overtook an earlier batch |
| Batching.NoOvertakingGivesPrefix | crates/remo-ext-observability/src/batching.rs:123-137 | then they are a prefix of the accepted events |
| Batching.OneFlusherNeverOvertakes | crates/remo-ext-observability/src/batching.rs:123-137 | one flusher at a time never overtakes |
| Batching.DeliveredIsAPrefix | crates/remo-ext-observability/src/batching.rs:123-137 | with one flusher at a time the delivered events are a prefix of the accepted ones |
| Batching.TwoFlushersReorder | crates/remo-ext-observability/src/batching.rs:123-137 | two flushers at once can deliver a later event first |
| Batching.BackgroundStops | crates/remo-ext-observability/src/batching.rs:88-109 | after shutdown the background task takes at most one more batch, and none unless past its check |
| Matching.IsOrderedSubseq | crates/remo-eval/src/score.rs:129-140 | the greedy scan is true exactly when a strictly increasing embedding exists |
| Matching.SubsequenceTransitive | crates/remo-eval/src/score.rs:129-140 | dropping expected tools or recording more calls keeps a match |
| Matching.ExactIsLongestSubsequence | crates/remo-eval/src/score.rs:38-52 | the exact mode is the subsequence mode at equal lengths |
| Matching.CountMatchingCalls | crates/remo-eval/src/score.rs:148-169 | the loop counts the calls that pass name and filters, saturating at 32 bits; what a filter asks is `JsonValue.CoversIff` |
| Matching.WeakerCountsMore | crates/remo-eval/src/score.rs:148-169 | weakening the filters never lowers the count |
| Matching.WeakerIff | crates/remo-eval/src/expectation.rs:281-291 | structural weakening is exactly what never loses a match on any run |
| Matching.WeakeningKeepsVerdict | crates/remo-eval/src/score.rs:63-80 | a lower bound survives weakening, an upper bound survives tightening |
| Matching.WithoutCountIsOnce | crates/remo-eval/src/score.rs:63-70 | a matcher without a count asks for one matching call |
| Matching.BoundsMeet | crates/remo-eval/src/expectation.rs:45-50 | lower and upper bounds meet in the exact count and are complementary |

## Left out

- MCP transports, sampling, progress reporting, resource forwarding, prompts and UI hydration: connect, list and close are outcomes carried by events.
- Construction failures of the manager, and cancellation of a task between two sections of a transition.
- Timestamps, error texts, last-error fields, reconnect counters and other diagnostics of a slot.
- The sorted list of tool definitions kept beside a catalogue, and a tool's descriptor.
- That `close_all` is final or that the registry is the newest: neither holds, since `close_all` takes no lifecycle lock and a rebuild reads and writes in two steps.
- The rebuilds of the registry inside the tasks: they read the slots and are events of the manager.
- McpTasks.ReconnectServerLocked: what other tasks do between its sections is in the protocol, not in this method.
- EvalFiles.FileEvalRunStore.Write: one caller and no I/O failure; failures, crashes and concurrency are in EvalStore.
- The clock: a run's start time is the one it is stored with, after a zero has been replaced by the current time.
- Serialisation of runs, the text of shard names, and the loading checks of `read` on foreign files.
- Calendar.YearMonthIsGregorian: outside 32-bit years the release build's wrap-around is modelled, not the debug build's panic.
- `aggregate_samples`, `expand_cells`, `mint_run_id` and the remaining validators: folds and checks of single fields.
- The heap sharing of a JSON tree under `&mut`: a reference is modelled by the value and the holes above it; the memory a huge array index would need is not modelled.
- JSON parsing of stream lines and of whole contents: arbitrary functions.
- ReviseLoop.ReplayLive: scores are reals, the wording of the revise message and the runtime's own bookkeeping are not modelled.
- The other checks of `score` (phrases, forbidden tools, budgets, error type), `metrics_total_tokens` and the scripted replay.
- Rounding, NaN, `upper_ci` and `breakeven_p` of the Beta estimates, and the usage statistics.
- The timer of the background flusher, and `on_run_end`, `flush` and `flush_run` of the inner sink, which only follow a flush.
- The memory, provider, notification, media and vision crates.
