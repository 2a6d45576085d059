# Verification of the MELRA durable core

MELRA runs effects for agents and keeps what it did durable. This project models the parts of it whose
correctness spans many functions and survives crashes, and proves what callers rely on.

- **Event-sourced workflows** (`Protocol`, `WorkflowEvents`, `WorkflowStore`, `WorkflowDrafts`,
  `WorkflowController`): a store of runs, events and snapshots; a controller whose every operation builds a
  draft, emits numbered events, replays them, compares, and commits by compare-and-swap. Which nodes an
  advance takes, and what statuses mean (`WorkflowSelection`, `WorkflowStatus`).
- **Whole runs of the controller** (`WorkflowRuns`, `NodeAdvances`, `WorkflowRows`): any list of its calls, stale
  ones included, and over the task rows on which the nodes run.
- **Scheduling** (`Counting`, `Layering`, `WorkflowGraph`, `NodeSchedulers`, `NodeOutcomes`, `ParallelBranches`):
  Kahn layers, reachability, ready waves, and the resumable sequence, loop and parallel nodes, parallel ones in
  any order.
- **Recovery of workflows** (`NodeRecovery`, `WorkflowRecovery`, `RecoveryCases`): what recovery makes of the
  task rows it finds, against running the node again, and against the order of the graph.
- **Advance across processes** (`AdvanceProtocol`): the in-process queue, the expiring lease and the
  compare-and-swap, for any number of processes under one clock.
- **Tasks under crashes** (`Verifier`, `Policy`, `PolicyTheorems`, `TaskMachine`, `TaskSafety`, `TaskTheorems`,
  `TaskGate`, `TaskRuns`, `TaskController`): every durable write of `execute` and of recovery is a step, a crash may fall between any
  two, and each task keeps a history of adapter calls and verifications that only the specification sees.
- **Both halves together** (`Assurance`): what stands behind a run that reports `verified_complete`, and
  behind a done node of any run.
- **Self-contained algorithms** (`CommandLine`, `CanonicalJson`, `JsonReader`, `Glob`, `Ranking`,
  `RankingTheorems`, `Memory`, `MemoryTheorems`, `MemoryCompaction`, `MemoryEviction`, `CircuitBreaker`), with `Text` for UTF-16 strings and `Wrappers` for
  optional values and results.

Objects that the source updates in place are classes, and loops are loops; each is proved against functions
or state machines about which the properties are then proved. `dafny verify dfyconfig.toml` checks it all.

## Where the code does less than one might expect

The model follows the code. For each of these there is an exact condition among the lemmas below, a concrete
case, or both.

- A run that carries `error` can never be paused or suspended, and an advance of it is refused whenever its
  status would move: the reducer drops the error, the draft keeps it (`WorkflowController.Halt`,
  `DraftAdvance`, `ErrorIsStuck`).
- Recovery marks a node complete from the rows it finds, even if later requests were never planned or a loop's
  predicate said no. It agrees with running the node again exactly as `ConditionRecoveryIff`,
  `ParallelRecoveryIff` and `LoopRecoveryIff` say; `LoopComesBackTooEarly` is a case where it does not. A
  condition that flipped since comes back complete with rows of the other branch (`ChosenBranchIff`,
  `FlippedConditionSkipsItsBranch`).
- Recovery looks up an approval under the key of the operation it approves and takes a finished approval back
  with it, so it need not keep the started nodes closed under `dependsOn` (`RecoveryKeepsWaveIff`,
  `RecoveryTakesBackAnApproval`, `ApprovalIsTakenBack`).
- Two tasks with one key can both succeed, since recovery skips a commit row that exists (`SharedKeyIff`,
  `TwoSuccessesUnderOneKey`). A read that had begun may be attempted again after its key was committed
  (`NoCallAfterCommit`, `KeyTakenIff`, `ReadIsAttemptedAfterTheCommit`).
- Recovery saves a certificate before its row, `execute` a row before its certificate; a crash in between
  leaves a success certificate beside `recovery_required` (`OutlivedIff`, `CertificateOutlives`), or an ended
  task without a certificate for good (`UncertifiedIff`, `CertificateIsLost`, `LostCertificateStaysLost`).
- Compaction without a ceiling is said to change nothing that a caller can observe. Reads and unrelated
  operations cannot tell; a put that names a row that was taken can (`CompactionIsInvisible`,
  `CompactionRefusesIff`, `CompactionAcceptsIff`, `CompactionRewritesIff`, `CompactionShowsInPuts`).
- A refused put with `supersedesId` deletes the row under its own id if there was one
  (`RefusedPutIsHarmless`, `RefusedPutMayDelete`), and compaction by expiry leaves names dangling although
  the comment above `compactMemories` says that it never happens (`NamedRowsGoOnlyByExpiry`,
  `ExpiryMayDangle`).
- A star in a policy pattern does not run across a line terminator (`TranslationIsExact`), and `canonicalJson`
  writes `undefined`, NaN and infinities as `null`, which `CanonicalJson.Same` therefore identifies.

## Model

| member | source | states |
|---|---|---|
| WorkflowControllers.HistoryIsNumbered | packages/storage-sqlite/src/index.ts:624-682 | in every valid store the events of a workflow are numbered 1..n without gap or repeat and the stored run carries version n; every operation of the controller keeps the store valid |
| WorkflowControllers.VersionDeterminesRun | packages/runtime-core/src/workflow-controller.ts:528-561 | two runs recorded at the same version of one workflow are the same run, so comparing versions at commit time is enough |
| WorkflowControllers.RecordedIdentity | packages/storage-sqlite/src/index.ts:653-662 | any run ever recorded has the identity and the nodes of the stored one, so the identity check of a commit never fires |
| WorkflowEvents.ReplayedIsNumbered | packages/runtime-core/src/workflow-events.ts:16-52 | a history that replays from nothing is numbered 1..n and ends in version n |
| WorkflowEvents.SnapshotIsShortcut | packages/runtime-core/src/workflow-events.ts:118-131 | replay from the run at any version plus the rest of the history gives the run of the whole history |
| WorkflowEvents.FoldInParts | packages/runtime-core/src/workflow-events.ts:118-131 | replaying a concatenation is replaying its parts in turn, errors included |
| WorkflowEvents.ReplayKeepsIdentity | packages/runtime-core/src/workflow-events.ts:53-115 | no event changes identity, definition, trace or the set of nodes |
| WorkflowEvents.StampedReplay | packages/runtime-core/src/workflow-controller.ts:540-556 | replaying the stamped events of a transition is reducing their data, whatever the clock said; only version and time differ |
| WorkflowEvents.RebuildWorkflow | packages/runtime-core/src/workflow-events.ts:118-131 | the replay loop computes the fold of the reducer over the events, and fails exactly when it does or when there is nothing to replay |
| WorkflowEvents.AppliesIff | packages/runtime-core/src/workflow-events.ts:41-116 | a run takes an event if and only if it is the next one, names its workflow and trace, and says of the run's or the node's status what is so, with the target its type fixes; and what the run is then |
| WorkflowEvents.FirstAppliesIff | packages/runtime-core/src/workflow-events.ts:21-39 | without a run, only the creation of a run of the event's own identity at version one is taken |
| WorkflowStores.WorkflowStore.CreateWorkflow | packages/storage-sqlite/src/index.ts:442-510 | the definition, the run and the numbered events are all stored, or nothing is; a definition of another id or version, misnumbered or foreign events and a row that exists each give their own error, exactly when the checks before have passed |
| WorkflowStores.WorkflowStore.TransitionWorkflow | packages/storage-sqlite/src/index.ts:624-682 | compare-and-swap on the version together with the event rows: everything or nothing; each error comes if and only if its check is the first to fail |
| WorkflowStores.AssertPassesIff | packages/storage-sqlite/src/index.ts:790-815 | the check on the events of a commit passes if and only if there are some, all of this workflow and trace, numbered on without a gap up to the new version |
| WorkflowStores.WorkflowStore.SaveSnapshot | packages/storage-sqlite/src/index.ts:589-604 | adds one snapshot row under its version, or refuses a second one |
| WorkflowStores.WorkflowStore.SaveVerifiedCertificate | packages/storage-sqlite/src/index.ts:864-880 | adds a task to those with a certificate of success and changes nothing else |
| WorkflowControllers.StoredIsRecorded | packages/runtime-core/src/workflow-controller.ts:121-125 | the run that `status` returns is the run at its version of the recorded history, so an operation on it starts from a recorded run |
| WorkflowStores.WorkflowStore.LatestSnapshot | packages/storage-sqlite/src/index.ts:606-622 | returns the stored snapshot with the highest version, if there is any |
| WorkflowControllers.WorkflowController.MakeEvents | packages/runtime-core/src/workflow-controller.ts:534-547 | the events of a transition are numbered on from the run, in order, whatever the clock says |
| WorkflowControllers.WorkflowController.Transition | packages/runtime-core/src/workflow-controller.ts:528-561 | commits exactly when the draft equals the replay of its events and the version has not moved; then the store is valid again and nothing else changed; otherwise nothing changed |
| WorkflowControllers.WorkflowController.Replay | packages/runtime-core/src/workflow-controller.ts:577-594 | in a valid store replay from the latest snapshot returns the stored run, so recovery's history checks never fire |
| WorkflowControllers.WorkflowController.Plan | packages/runtime-core/src/workflow-controller.ts:72-119 | stores a planned run with every node pending exactly when the definition is valid and no node is denied; otherwise nothing is stored, and a denial names the first node denied |
| WorkflowControllers.WorkflowController.Advance | packages/runtime-core/src/workflow-controller.ts:196-367 | refuses halted runs, leaves terminal runs alone, commits exactly when no node and no compensation threw, the version has not moved and the run carries no error or keeps its status; then the stored run is the settled draft |
| WorkflowSelection.FailedRunRollsBack | packages/runtime-core/src/workflow-controller.ts:212-247 | an advance of a failed run takes a node if and only if it is a compensation, pending or parked for an approval, whose operation is complete; each once, the last of the definition first |
| WorkflowSelection.OtherRunsGoOn | packages/runtime-core/src/workflow-controller.ts:227-247 | any other run goes on with the nodes parked for a person if there are any, and otherwise with every pending node whose dependencies are finished; sorted, each once |
| WorkflowSelection.FailedWaveCompensates | packages/runtime-core/src/workflow-controller.ts:266-312 | after a wave in which a node failed, every pending compensation has a result: its task was run if and only if its operation is complete by then, else it is skipped |
| WorkflowSelection.CleanWaveAddsNothing | packages/runtime-core/src/workflow-controller.ts:266-312 | a wave in which no node failed runs no compensation |
| WorkflowStatuses.AdvancedWeighs | packages/runtime-core/src/workflow-controller.ts:943-993 | the status after an advance, in both directions for every status, from the statuses and certificates of the nodes: a failed node outweighs one to reconcile, that an approval, that an answer, and complete means all of them done and certified |
| WorkflowStatuses.AdvancedNodeIs | packages/runtime-core/src/workflow-controller.ts:314-345 | a node without a result keeps its state in an advance, except that a compensation still pending when the run is complete becomes skipped |
| WorkflowStatuses.AdvancedNodeHasItsResult | packages/runtime-core/src/workflow-controller.ts:314-332 | a node with results has the state of its last one |
| WorkflowControllers.WorkflowController.SaveCheckpoint | packages/runtime-core/src/workflow-controller.ts:347-362 | writes the checkpoint event and a snapshot of the resulting run exactly when the run is still the stored one |
| WorkflowControllers.WorkflowController.Halt | packages/runtime-core/src/workflow-controller.ts:478-495 | pausing or suspending succeeds exactly when the run may be halted and carries no error; a run with an error is always refused by the replay check |
| WorkflowControllers.WorkflowController.Resume | packages/runtime-core/src/workflow-controller.ts:456-476 | succeeds exactly from a halted status and returns to the status the nodes call for |
| WorkflowStatuses.ResumeUndoesHaltIff | packages/runtime-core/src/workflow-controller.ts:448-495 | pausing and resuming gives back the status of a run: always if it waits for an approval, if it waits for an answer or runs exactly when no compensation waits for more, and never otherwise; its nodes are the same |
| WorkflowControllers.WorkflowController.Cancel | packages/runtime-core/src/workflow-controller.ts:497-526 | leaves terminal runs alone, otherwise cancels every pending, ready and approval-awaiting node and names exactly their tasks |
| WorkflowStatuses.CancelTakesIff | packages/runtime-core/src/workflow-controller.ts:497-526 | a node is cancelled with its run if and only if it is pending, ready or awaits approval; every other keeps its state, and the run its nodes |
| WorkflowControllers.WorkflowController.RecoverInterrupted | packages/runtime-core/src/workflow-controller.ts:369-446 | every unfinished run moves once to its recovered and settled nodes, all other runs stay, and no history or projection check fires |
| WorkflowControllers.WorkflowController.RecoverRun | packages/runtime-core/src/workflow-controller.ts:384-437 | recovery of one run always succeeds and stores the recovered and settled nodes |
| WorkflowDrafts.DraftAdvance | packages/runtime-core/src/workflow-controller.ts:314-345 | for any number of node results the draft equals the replay of its events if and only if the run carries no error or its status does not move |
| WorkflowDrafts.DraftRecovery | packages/runtime-core/src/workflow-controller.ts:384-437 | the recovery draft always equals the replay of its events, error included |
| WorkflowDrafts.HaltTracksWithoutError | packages/runtime-core/src/workflow-controller.ts:478-495 | the halt draft equals the replay of its event if and only if the run carries no error |
| WorkflowDrafts.ResumeTracks | packages/runtime-core/src/workflow-controller.ts:456-476 | the resume draft always equals the replay of its event, since a halted run carries no error |
| WorkflowDrafts.DraftCancel | packages/runtime-core/src/workflow-controller.ts:497-526 | the cancel draft equals the replay of its events, for any run that is not terminal |
| WorkflowDrafts.SettledStatus | packages/runtime-core/src/workflow-controller.ts:320-340 | a settled run derives `verified_complete` only with every required node proven done and no compensation pending |
| WorkflowControllers.CompleteIsProven | packages/runtime-core/src/workflow-controller.ts:943-993 | a stored run that reports `verified_complete` carries no error, has every required node finished with a VERIFIED_SUCCESS certificate for every task it lists, and no pending compensation |
| WorkflowControllers.CertificatesKeepRuns | packages/storage-sqlite/src/index.ts:864-880 | new certificates never make the claim of a stored run false |
| WorkflowControllers.AdvanceKeepsFinished | packages/runtime-core/src/workflow-controller.ts:314-332 | no advance changes a finished node |
| WorkflowControllers.AdvanceKeepsWave | packages/runtime-core/src/workflow-graph.ts:109-126 | an advance starts only nodes whose dependencies are finished; plan, pause, suspend, resume and cancel keep this too, recovery only as `WorkflowRecovery.RecoveryKeepsWaveIff` says |
| WorkflowControllers.StartedAreClosed | packages/runtime-core/src/workflow-graph.ts:109-126 | the nodes that have a task or any status past pending, those cancelled after they started included, are closed under `dependsOn`, and what they depend on is finished |
| WorkflowRuns.ServeAll | packages/runtime-core/src/workflow-controller.ts:196-526 | over any list of calls, advances of stale runs, recoveries and new certificates included, a run that reports `verified_complete` or `cancelled` never changes again and the store stays valid; runs in order stay in order over any list without a recovery, and over recoveries whose rows keep the order at their turn |
| WorkflowRuns.FirstBreak | packages/runtime-core/src/workflow-controller.ts:369-441 | over any list of calls the order lasts up to the first recovery whose rows do not keep it, and that recovery breaks it |
| WorkflowRows.AdvanceKeepsBacked | packages/runtime-core/src/workflow-controller.ts:196-367 | an advance whose node states the schedulers computed, each over the rows of some moment of the advance, leaves every node of the run backed by the rows at its end: its tasks have rows, a done node is proved by verified ones, and a loop that is not done can be entered again |
| WorkflowRows.RecoveryKeepsBacked | packages/runtime-core/src/workflow-controller.ts:384-420 | so does a recovery from rows that are there |
| WorkflowRows.EveryRunIsBacked | packages/runtime-core/src/workflow-controller.ts:132-526 | over any list of calls whose answers come from the schedulers and the rows, every node of every stored run, complete or not, is backed by the rows after each call |
| WorkflowRows.DoneIsVerified | packages/runtime-core/src/workflow-controller.ts:974-984 | in every such run a done operation, compensation or parallel node lists only verified tasks, the first two at least one |
| WorkflowRecovery.RecoveredCompleteIff | packages/runtime-core/src/workflow-controller.ts:404-420 | recovery reports a run `verified_complete` if and only if every required node has only verified rows, or no rows and was finished, with a certificate for every task it lists |
| WorkflowRecovery.RecoveredStatusIff | packages/runtime-core/src/workflow-controller.ts:404-436 | a recovered run is failed if and only if some required node has rows that say so, or none and had failed; to reconcile, awaiting approval or awaiting input likewise, each unless one before it is; and it carries an error exactly when it is to reconcile |
| WorkflowStatuses.RecoveredWeighs | packages/runtime-core/src/workflow-controller.ts:404-426 | and its status weighs its nodes as that of an advance does |
| WorkflowRecovery.RecoveryKeepsWaveIff | packages/runtime-core/src/workflow-controller.ts:384-420 | recovery leaves the started nodes of a run behind finished dependencies if and only if every node that has rows, or had started, depends only on nodes that come back finished by their rows; nothing is asked of the run before |
| WorkflowRecovery.RecoveryKeepsWavesIff | packages/runtime-core/src/workflow-controller.ts:369-441 | the same for all runs at once after `recoverInterrupted` |
| WorkflowRecovery.RecoveredAsRowsSay | packages/runtime-core/src/workflow-controller.ts:384-420 | for every node of a run: whether recovery leaves it started, and whether it leaves it finished |
| RecoveryCases.RecoveryTakesBackAnApproval | packages/runtime-core/src/workflow-controller.ts:1119-1126 | the run that a crash leaves after its approval node found its task planned and while the operation is begun is in order, and its recovery is not, for any status of the shared task but success |
| RecoveryCases.ApprovalIsTakenBack | packages/runtime-core/src/workflow-controller.ts:369-441 | the same by real calls from an empty store: plan, one advance, recovery |
| RecoveryCases.ErrorIsStuck | packages/runtime-core/src/workflow-controller.ts:422-426 | by real calls from an empty store: a recovered run carries an error, can be neither paused nor suspended, and an advance of it is refused although its node has run |
| NodeRecovery.FinishedIff | packages/runtime-core/src/workflow-controller.ts:1175-1239 | recovery leaves a node finished if and only if it found no row and the node was finished, or it found rows and all are verified |
| NodeRecovery.PendingIff | packages/runtime-core/src/workflow-controller.ts:1217-1225 | and pending if and only if it found no row and the node was pending, or some row is only planned and none failed, awaits approval or needs recovery |
| NodeRecovery.OtherStatusesIff | packages/runtime-core/src/workflow-controller.ts:1182-1239 | from rows, recovery leaves a node to reconcile if and only if some row is; awaiting approval if and only if none is and some row awaits; failed if and only if neither and some row failed, is partial, blocked or exhausted; cancelled if and only if none of these, none is planned and not all are verified |
| NodeRecovery.ReasonIsTheFirst | packages/runtime-core/src/workflow-controller.ts:1188-1216 | the error or approval it then shows is that of the first row of that kind |
| NodeRecovery.PendingErrorIsTheFirst | packages/runtime-core/src/workflow-controller.ts:1217-1225 | a node that comes back pending shows the error of the first row that has one |
| Assurance.CompleteRunIsProvenToTheCall | packages/runtime-core/src/workflow-controller.ts:974-984 | behind every task a complete run lists there is an adapter call that passed the gate and, after it, a verification in which every required predicate passed; for a mutation it was the only call |
| Assurance.AgreementIsKept | packages/storage-sqlite/src/index.ts:864-880 | no later step, crash or recovery takes back a certificate that a workflow relied on |
| Assurance.TaskStepsFollow | packages/runtime-core/src/task-controller.ts:209-520 | no step of any task, crash or recovery takes a task row away or a verified one back, so what backs the nodes of a run goes on backing them |
| Assurance.DoneNodeIsProvenToTheCall | packages/runtime-core/src/task-controller.ts:302-361 | a node that is done in any run, complete or not, lists only tasks with an adapter call and, after it, a full verification; for a mutation it was the only call |
| AdvanceProtocol.LeaseTable.Acquire | packages/storage-sqlite/src/index.ts:688-724 | granted exactly when there is no row, the row is the caller's own or it has expired; the whole table after it |
| AdvanceProtocol.LeaseTable.Renew | packages/storage-sqlite/src/index.ts:726-738 | moves the expiry only of the caller's own row, expired or not |
| AdvanceProtocol.LeaseTable.Release | packages/storage-sqlite/src/index.ts:740-746 | removes only the caller's own row |
| AdvanceProtocol.EveryRunKeepsInv | packages/runtime-core/src/workflow-controller.ts:132-194 | over every interleaving of ticks, boots, crashes, calls, renewals, commits and cleanups: calls of a process are in order, whoever reckons to hold the lease owns the row with that expiry, and versions rise with one commit from each |
| AdvanceProtocol.MutualExclusion | packages/runtime-core/src/workflow-controller.ts:161-194 | at any moment of any run at most one call of one process is inside an advance body under an unexpired lease |
| AdvanceProtocol.CallOrder | packages/runtime-core/src/workflow-controller.ts:132-156 | a call leaves the waiting line only when all earlier calls of its process have settled |
| AdvanceProtocol.RowIsTheOwnersUntilItExpires | packages/storage-sqlite/src/index.ts:688-746 | while a row is unexpired, no step of another process changes it: a holder that was taken over can neither renew nor release it |
| AdvanceProtocol.TakenOverKnowsIt | packages/runtime-core/src/workflow-controller.ts:173-186 | a process that is inside the body without owning the row reckons its own lease expired |
| AdvanceProtocol.AtMostOneCommitPerVersion | packages/storage-sqlite/src/index.ts:641-682 | over every run, with or without the lease, at most one commit starts from any version |
| AdvanceProtocol.ExpiredLeaseIsTakenOver | packages/storage-sqlite/src/index.ts:703-709 | an expired lease never keeps a waiting call out |
| AdvanceProtocol.BeginIsExact | packages/runtime-core/src/workflow-controller.ts:158-172 | a call whose turn it is gets in if and only if there is no row, the row is its own process's or it has expired; otherwise it is over at once and the row stays |
| AdvanceProtocol.FinishLetsTheNextIn | packages/runtime-core/src/workflow-controller.ts:187-194 | a call that ends gives its row back, and the next call whose turn it is gets in, of whatever process |
| AdvanceProtocol.CommitsIffUnmoved | packages/storage-sqlite/src/index.ts:641-682 | a call commits if and only if the version is the one it read |
| AdvanceProtocol.ReadThenCommit | packages/runtime-core/src/workflow-controller.ts:528-561 | a call that reads and commits with nobody in between does commit |
| AdvanceProtocol.RenewalExtends | packages/storage-sqlite/src/index.ts:726-738 | a renewal by the owner of the row moves its expiry, in the row and in what the call reckons |
| AdvanceProtocol.WhoChangesWhat | packages/runtime-core/src/workflow-controller.ts:158-194 | only beginning, renewing and ending an advance touch the row, so that of a crashed process stays until it expires; only commits move the version |
| Layering.KahnLayers | packages/runtime-core/src/workflow-graph.ts:65-95 | the layering loop processes every node if and only if the graph has no cycle, and then the layers are sorted, disjoint and numbered by longest dependency chain, also with repeated `dependsOn` entries |
| WorkflowGraph.ValidateWorkflow | packages/runtime-core/src/workflow-graph.ts:16-107 | accepts exactly the definitions whose nodes pass every check, whose graph is acyclic and whose approvals precede their targets; a cycle is reported exactly when there is one; the layers are the dependency depths |
| WorkflowGraph.CheckNodes | packages/runtime-core/src/workflow-graph.ts:24-63 | reports the failure of the first node that fails its checks, in the order of the source |
| WorkflowStatuses.NodesPassIff | packages/runtime-core/src/workflow-graph.ts:29-63 | the checks on the nodes pass if and only if every dependency is the id of another node, an approval is for some node, and compensations and conditions are about operations |
| WorkflowGraph.HasDependency | packages/runtime-core/src/workflow-graph.ts:128-143 | equals reachability in one or more steps; terminates by unvisited nodes and the worklist |
| WorkflowGraph.ReadyNodeIds | packages/runtime-core/src/workflow-graph.ts:109-126 | sorted, without repetition, and exactly the pending nodes that are no compensation and whose dependencies are finished |
| WorkflowGraph.DepthIsUnique | packages/runtime-core/src/workflow-graph.ts:65-95 | a node has one depth only, so its layer is determined by the graph |
| NodeSchedulers.RunSequential | packages/runtime-core/src/workflow-controller.ts:821-850 | one pass over the requests: complete exactly when every slot is verified, otherwise the state of the request that stopped it |
| NodeSchedulers.RunLoop | packages/runtime-core/src/workflow-controller.ts:887-941 | the loop computes the specified rounds from the recorded count, or from zero if the count was forgotten |
| NodeSchedulers.LoopStopsRestartable | packages/runtime-core/src/workflow-controller.ts:887-941 | however a loop stops, every slot below its count times the body length is verified and the count is within the maximum |
| NodeSchedulers.LoopRestart | packages/runtime-core/src/workflow-controller.ts:887-941 | re-entered with its task ids at any earlier count, a loop ends with the same node state, task rows and executions as if it had continued |
| NodeSchedulers.ForgettingIterationsIsHarmless | packages/runtime-core/src/workflow-controller.ts:887-941 | however often a loop node has been interrupted, losing `iterations` at the next restart changes nothing and starts no verified slot again, and the state it stops in is again such a state |
| NodeSchedulers.PassOverVerified | packages/runtime-core/src/workflow-controller.ts:781-819 | running slots that are already verified changes nothing and starts nothing |
| NodeSchedulers.ParallelRunsAll | packages/runtime-core/src/workflow-controller.ts:852-885 | every request of a parallel node runs, whatever becomes of the others, and what was verified stays so |
| NodeSchedulers.ParallelComplete | packages/runtime-core/src/workflow-controller.ts:1078-1092 | a parallel node is complete if and only if every one of its states is, and then every listed task is verified |
| NodeOutcomes.AggregateIsExact | packages/runtime-core/src/workflow-controller.ts:1078-1092 | a parallel node is failed if and only if a branch is, to reconcile if and only if one is and none failed, and so on for approvals and cancellations |
| NodeAdvances.AdvanceRanWell | packages/runtime-core/src/workflow-controller.ts:596-779 | for every kind of node: the state that `advanceNode` reports is backed by the rows it leaves, and those lose no row and no verified task |
| NodeOutcomes.RunTaskIsExact | packages/runtime-core/src/workflow-controller.ts:781-819 | one task of a node: planned only if there is none, executed if and only if it is planned and may run or awaits an approval that is in hand; the rows, the executions and the next id after it, and for every status of the row the state the node reports |
| NodeOutcomes.ApprovedTaskIsTheOneRun | packages/runtime-core/src/workflow-controller.ts:605-627 | an operation goes on with the task its approval node planned and plans no other |
| NodeOutcomes.ApprovalOnlyAsks | packages/runtime-core/src/workflow-controller.ts:628-647 | an approval node never executes a planned task, and one that awaits approval only with the approval in hand |
| NodeOutcomes.OnlyTheChosenBranchRuns | packages/runtime-core/src/workflow-controller.ts:648-667 | what a condition does is the same whatever its other branch holds, and when it is complete the requests of the chosen branch are verified |
| NodeOutcomes.CompensatedIff | packages/runtime-core/src/workflow-controller.ts:678-698 | a compensation that ran is compensated if and only if its task is verified |
| NodeOutcomes.GoesOnWithItsTask | packages/runtime-core/src/workflow-controller.ts:605-697 | a node that has a task goes on with it and plans no other |
| NodeOutcomes.LoopEndsByItsLastTask | packages/runtime-core/src/workflow-controller.ts:926-941 | a loop complete before its maximum was ended by its predicate, which was asked about the last task of its last iteration |
| NodeOutcomes.OnlyCheckpointsAskForASnapshot | packages/runtime-core/src/workflow-controller.ts:699-704 | a checkpoint runs nothing, is complete at once, and it alone asks for a snapshot |
| ParallelBranches.AnyOrderIsInTurn | packages/runtime-core/src/workflow-controller.ts:866-880 | the requests start in turn and their executions end in any order: task rows, started executions and node states are those of running the requests one after the other |
| NodeRecovery.ConditionRecoveryIff | packages/runtime-core/src/workflow-controller.ts:1127-1135 | with rows in either branch, all verified, the complete state that recovery writes for a condition is what running the chosen branch over those rows gives, with nothing planned or executed, if and only if the rows of both branches together are as many as its requests |
| NodeRecovery.ChosenBranchIff | packages/runtime-core/src/workflow-controller.ts:1127-1135 | and that run has the chosen branch's own requests behind it if and only if all its rows are there and, for the second branch, none of the first |
| NodeRecovery.OneBranchRecoveryIff | packages/runtime-core/src/workflow-controller.ts:1127-1135 | with rows of the chosen branch only, recovery agrees with running it again if and only if every request has its row |
| NodeRecovery.FlippedConditionSkipsItsBranch | packages/runtime-core/src/workflow-controller.ts:1127-1135 | a condition whose branch has flipped since its first branch ran comes back complete, and running it again would not run the new branch either |
| NodeRecovery.SequenceRecoveryIff | packages/runtime-core/src/workflow-controller.ts:821-850 | for any sequence of requests and any verified rows: recovery agrees with running it again over them if and only if there are as many rows as requests |
| NodeRecovery.ParallelRecoveryIff | packages/runtime-core/src/workflow-controller.ts:1136-1141 | a parallel node with verified rows only: recovery agrees with running it again, with nothing planned or executed, if and only if every request has its row |
| NodeRecovery.LoopRecoveryIff | packages/runtime-core/src/workflow-controller.ts:1226-1237 | the state recovery writes for a loop with only verified rows, iterations included, is what running it again from the start over those rows gives, with nothing planned or executed, if and only if the rows are whole iterations and the last one reached the maximum or met the predicate |
| NodeRecovery.LoopPlansSo | packages/runtime-core/src/workflow-controller.ts:887-941 | however a loop ends or is interrupted, its task ids are as `LoopRecoveryIff` asks of them, and those of a complete loop end it |
| NodeRecovery.LoopComesBackTooEarly | packages/runtime-core/src/workflow-controller.ts:1226-1237 | a loop of two iterations whose predicate says no to its one row comes back complete after one iteration, although running it would plan the second |
| NodeRecovery.LoopComesBackInTime | packages/runtime-core/src/workflow-controller.ts:1226-1237 | the same row under a predicate that says yes: recovery is right with half of the expected rows missing |
| Verifier.Verify | packages/verifier-core/src/index.ts:80-195 | one evidence item per predicate in order, each judged at its own moment; verified exactly when every predicate passed |
| Verifier.FilePredicatesMean | packages/verifier-core/src/index.ts:141-187 | a file predicate passes if and only if a file or directory is seen there, nothing is, or a file of that content is |
| Verifier.ResultPredicatesMean | packages/verifier-core/src/index.ts:109-140 | the predicates on exit code, address and page text pass if and only if the result has the property of that name, of the right kind, and it is equal, matches or includes the text |
| Verifier.OwnPropertyPredicatesMean | packages/verifier-core/src/index.ts:88-108 | a result predicate on a path without dots is about that property of the result alone |
| Verifier.IncludesIff | packages/verifier-core/src/index.ts:101-101 | a text includes a part if and only if the part stands at some position in it |
| Verifier.ReadInParts | packages/verifier-core/src/index.ts:15-23 | reading a path is reading its parts in turn |
| Verifier.SegmentsAreThePath | packages/verifier-core/src/index.ts:19-19 | a path is cut at every dot and nowhere else |
| Verifier.CodePointsOfUtf16 | packages/verifier-core/src/index.ts:25-30 | round trip: matching by code points reads the characters a text was encoded from |
| Verifier.FileEvidenceIgnoresTheResult | packages/runtime-core/src/task-controller.ts:455-468 | verification of file evidence against the empty result of recovery gives the verdict that the interrupted verification would have given from the same sights |
| Verifier.EmptyResultProvesNothing | packages/verifier-core/src/index.ts:15-23 | no predicate about an own property of a result can pass on the empty result, unless it asks for an absent value |
| Policy.OutcomesAreExact | packages/policy-core/src/index.ts:731-828 | `allow` and `confirm` happen exactly under conditions stated without the order of the checks |
| PolicyTheorems.HostsAreWithinDomains | packages/policy-core/src/index.ts:666-683 | a page is let through if and only if it is http, and local where that is allowed, or its host is a listed domain or has more labels in front of one |
| PolicyTheorems.ValidExactlyIfAnswered | packages/policy-core/src/index.ts:846-863 | a response is accepted if and only if there are both challenge and response, identifier and phrase are the challenge's, and its time is not over; when each error comes |
| PolicyTheorems.ChallengeIsForThisOperation | packages/policy-core/src/index.ts:813-827 | what a person is asked is about this task and this operation, and the responses that answer it are those that echo it before `approvalTtlMs` have passed |
| Policy.RefusedUnlessGranted | packages/policy-core/src/index.ts:698-729 | no refusal exactly when no grants are issued or some grant covers the effect and is neither expired nor of another policy version |
| PolicyTheorems.AuthorityIsAGrant | packages/policy-core/src/index.ts:698-722 | no refusal if and only if no grants are issued, or one covers the effect by its globs, is in time, and is of this policy version or of none |
| PolicyTheorems.EveryReasonIsSo | packages/policy-core/src/index.ts:731-828 | whatever reason a decision gives is so, and it is given for the operation's effect under the policy's version |
| PolicyTheorems.RefusalNamesTheFault | packages/policy-core/src/index.ts:712-728 | a refusal tells the truth: nothing covers the effect, or the grant it names covers it and has the very fault named, another version or its time over |
| Policy.CoverageIsGlobbing | packages/policy-core/src/index.ts:705-711 | what a grant covers, as three globs and a list of effects |
| Policy.MutationsNeedApprovalAndEvidence | packages/policy-core/src/index.ts:803-828 | with guardrails on, a mutation is denied or sent to approval with evidence to check and a challenge about that very operation |
| Policy.DigestIdentifies | packages/policy-core/src/index.ts:830-834 | two digests agree exactly when task and operation do, up to the order of keys |
| Policy.DerivedEvidence | packages/policy-core/src/index.ts:593-644 | derived evidence never replaces the caller's, never burdens a read, and for file operations is of the kind recovery can look at again |
| PolicyTheorems.DerivedEvidenceShowsTheEffect | packages/policy-core/src/index.ts:593-644 | for every mutation planned without evidence: what it is held to passes over a result and sights if and only if they show its effect (the written path or new directory is there, the deleted path is gone, the moved file is gone there and there here, the adapter's own flag for memory, browser, computer and terminal input is true); there is no evidence exactly where that cannot be told |
| TaskSafety.RunKeepsInv | packages/runtime-core/src/task-controller.ts:209-409 | the invariant of all tasks holds after every interleaving of plans, executions, cancels, timeouts, crashes at any durable write, restarts under any policy and recoveries |
| TaskTheorems.MutationRunsAtMostOnce | packages/runtime-core/src/task-controller.ts:599-630 | in every reachable state a task whose effect is not a read has called the adapter at most once, and after the call it is never executable again |
| TaskTheorems.InterruptedMutationIsSettled | packages/runtime-core/src/task-controller.ts:450-520 | whatever crash caught it, once the next process serves, the task is `verified_success` by file evidence seen again as the last thing, or `recovery_required` |
| TaskTheorems.SuccessIsProven | packages/runtime-core/src/task-controller.ts:302-361 | `verified_success`, and every certificate of success, stands on a verification made after the adapter call in which every required predicate passed, and names a stored receipt of success |
| TaskTheorems.CommitRowsNeverChange | packages/storage-sqlite/src/index.ts:761-776 | no step changes a commit row |
| TaskTheorems.KeyedSuccessHasARow | packages/runtime-core/src/task-controller.ts:325-337 | every keyed success has a row for its key, and one that succeeded through `execute` owns it |
| TaskTheorems.ExecutedKeysAreDistinct | packages/runtime-core/src/task-controller.ts:325-337 | two tasks that succeeded through `execute` never share a key |
| TaskTheorems.NoCallAfterCommit | packages/runtime-core/src/task-controller.ts:220-235 | after a key is committed, no task with that key starts an adapter call, except a further attempt of a read that had begun before |
| TaskTheorems.EveryCallPassedTheGate | packages/runtime-core/src/task-controller.ts:236-265 | with guardrails on every call of a mutation had evidence to check, was within every limit, and had an unexpired response to the stored challenge for exactly this operation; the request's own `forbiddenEffects` and constraints hold in every mode |
| TaskGates.EveryCallStaysInBounds | packages/policy-core/src/index.ts:646-683 | over every run with guardrails on: every command an adapter was called with is listed and no shell or privilege command, every page within the listed domains, every action on a job names one |
| TaskGates.SuccessShowsTheEffect | packages/policy-core/src/index.ts:575-644 | over every run: a mutation planned without evidence is `verified_success` only if its effect was the last thing seen |
| TaskGates.BeginIsExact | packages/runtime-core/src/task-controller.ts:209-275 | a waiting task enters its first attempt if and only if its key is free and the policy allows it, or asks for consent and the response answers, in time, the stored challenge about this very operation; it is cancelled, blocked or left alone, each under its own if and only if |
| TaskGates.ConsentIsEchoInTime | packages/runtime-core/src/task-controller.ts:256-265 | from plan to execution: consent is to echo the identifier and phrase of the plan before the time the policy gave is over |
| TaskGates.ThrowIsExact | packages/runtime-core/src/task-controller.ts:599-630 | a call that throws ends exhausted, cancelled or failed, or is tried again, by what happened during it and the attempts left |
| TaskGates.AbortedCallEnds | packages/runtime-core/src/task-controller.ts:362-381 | a timeout during a call ends the task as exhausted, a cancellation as cancelled |
| TaskGates.CallIsExact | packages/runtime-core/src/task-controller.ts:606-613 | a call is made under its number, which the row keeps, and not at all once aborted |
| TaskGates.CommitIsExact | packages/runtime-core/src/task-controller.ts:320-357 | a verified result is a success if and only if its key is still free, and then the key is claimed; taken meanwhile, the end is a cancellation; unverified, it is partial or failed as the result says |
| TaskGates.ReceiptRepeatsTheResult | packages/runtime-core/src/task-controller.ts:338-349 | the receipt of a verified execution says what its result says of itself, and the next identifier is added to the row's |
| TaskGates.ReceiptOfAThrow | packages/runtime-core/src/task-controller.ts:383-405 | the receipt of a call that threw says that it failed |
| TaskTheorems.GateIsCurrent | packages/runtime-core/src/task-controller.ts:238-265 | the policy a call was judged under is the one in force when the call is made |
| TaskTheorems.EndingsAreFinal | packages/runtime-core/src/task-controller.ts:209-219 | no step, crash or recovery changes a status a task ended in, or takes a certificate of success back |
| TaskTheorems.LostCertificateStaysLost | packages/runtime-core/src/task-controller.ts:359-361 | and no later step writes it |
| TaskRuns.UncertifiedIff | packages/runtime-core/src/task-controller.ts:359-361 | in every run: an ended task that is at rest has no certificate if and only if the policy denied its plan, it was cancelled before it began, a crash fell between its terminal row and its certificate, or a recovery gave it up uncertified |
| TaskRuns.CertificateIsLost | packages/runtime-core/src/task-controller.ts:359-361 | a whole run from a fresh installation that loses the certificate of a success to a crash |
| TaskRuns.OutlivedIff | packages/runtime-core/src/task-controller.ts:499-506 | in every run: a certificate of success stands beside `recovery_required` if and only if a crash fell between the certificate and the row of a recovery and a later look at the evidence failed |
| TaskRuns.CertificateOutlives | packages/runtime-core/src/task-controller.ts:499-506 | a whole run from a fresh installation that ends so |
| TaskRuns.SharedKeyIff | packages/runtime-core/src/task-controller.ts:470-481 | in every run: a keyed success leaves the row of its key to another task if and only if it came through a recovery that found the key with another task |
| TaskRuns.SecondSuccessIsRecovered | packages/runtime-core/src/task-controller.ts:470-481 | in every run: of two successes under one key at least one came through such a recovery |
| TaskRuns.TwoSuccessesUnderOneKey | packages/runtime-core/src/task-controller.ts:470-481 | a whole run from a fresh installation that ends with two mutations of one key in `verified_success` |
| TaskRuns.RecoveryOwnsIff | packages/runtime-core/src/task-controller.ts:470-481 | a task that recovery commits again owns the row of its key, then and for good, if and only if the key was free at that moment or its own |
| TaskRuns.KeyTakenIff | packages/runtime-core/src/task-controller.ts:220-235 | from the first attempt of an execution on, its key is taken if and only if some step has claimed it since |
| TaskRuns.ReadIsAttemptedAfterTheCommit | packages/runtime-core/src/task-controller.ts:599-630 | a whole run from a fresh installation in which a read is about to make its second attempt under a key that another task has committed |
| TaskControllers.TaskController.PlanTask | packages/runtime-core/src/task-controller.ts:125-183 | a new task is planned, or awaits approval, exactly under the conditions stated for `allow` and `confirm`, and is blocked and left unsealed otherwise; its evidence is the caller's or the derived one, whose meaning `DerivedEvidenceShowsTheEffect` gives, and its challenge the one `ConsentIsEchoInTime` speaks of |
| TaskControllers.ExpectedIsExact | packages/runtime-core/src/task-controller.ts:209-409 | for every status an undisturbed execution can end in, the condition on consent, adapter answers and sights under which it does: success if and only if the task is admitted, the adapter answered within its attempts without saying it failed, and every predicate passed at its own look |
| TaskControllers.TaskController.ExecuteWithRetries | packages/runtime-core/src/task-controller.ts:599-630 | terminates, with one attempt for a mutation and a bounded number for a read; undisturbed, with the first answer among the attempts allowed or else the catch branch |
| TaskControllers.TaskController.Execute | packages/runtime-core/src/task-controller.ts:209-409 | under any interleaving at its awaits: refuses without a trace, or ends the task and certifies it with the result of its status; undisturbed, an approved task with an answering adapter and good sights ends in success, and every other status comes if and only if `ExpectedIsExact` says so |
| TaskControllers.TaskController.CancelTask | packages/runtime-core/src/task-controller.ts:411-424 | cancels a task that has not begun, raises the abort flag of one that is being executed, and changes nothing else |
| TaskControllers.TaskController.RecoverInterrupted | packages/runtime-core/src/task-controller.ts:450-520 | every interrupted task is reconciled by its own sights, the rest is untouched, nothing is left under way, and service begins |
| CommandLine.RoundTrip | packages/terminal-runtime/src/resolve-command.ts:60-66 | for every list of arguments free of `%`, `!`, CR and LF, splitting the joined line by the CommandLineToArgvW rules gives back the arguments |
| CommandLine.CommandRoundTrip | packages/terminal-runtime/src/resolve-command.ts:145-161 | the line built for a batch file, program name first, is read back as that name and those arguments |
| CommandLine.QuoteLineDefined | packages/terminal-runtime/src/resolve-command.ts:60-66 | a line is produced exactly when every argument can be quoted |
| CommandLine.LinesAreInert | packages/terminal-runtime/src/resolve-command.ts:60-66 | a line is produced if and only if no argument holds `%`, `!`, CR or LF, and then the whole line holds none |
| CommandLine.QuotingIsInjective | packages/terminal-runtime/src/resolve-command.ts:154-161 | two different argument lists never give the same line |
| CommandLine.ReadBack | packages/terminal-runtime/src/resolve-command.ts:64-65 | inside the quotes the reader takes exactly the value, for every run of backslashes, and stops at the closing quote |
| CanonicalJson.CanonicalIdentifies | packages/receipt-schema/src/index.ts:136-148 | two values have the same text exactly when they are equal up to the order of keys at every depth |
| JsonReader.CanonicalIsJson | packages/receipt-schema/src/index.ts:136-148 | round trip: the text of a value is one JSON text by RFC 8259, and reading it gives the value back up to the order of keys |
| JsonReader.ReadsBack | packages/receipt-schema/src/index.ts:136-148 | the same with any text behind it that may follow a value |
| JsonReader.NamesStandInOrder | packages/receipt-schema/src/index.ts:143-147 | read back, an object has the same keys, in the order of their code units |
| JsonReader.HexIsLowerCase | packages/receipt-schema/src/index.ts:137-140 | escapes in hex use the small letters, as `JSON.stringify` does |
| CanonicalJson.SameGivesText | packages/receipt-schema/src/index.ts:136-148 | equal values give equal text |
| CanonicalJson.TextGivesSame | packages/receipt-schema/src/index.ts:136-148 | equal text, even followed by more text, comes from equal values and leaves equal rests |
| CanonicalJson.ReadsChars | packages/receipt-schema/src/index.ts:137-140 | a string escaped by section 7 of RFC 8259 is read back unit by unit |
| Text.SortedIsUnique | packages/receipt-schema/src/index.ts:143-147 | keys sorted by UTF-16 code unit have one order only |
| Glob.ParseTranslated | packages/policy-core/src/index.ts:685-691 | the regex text of a pattern parses back to the pattern's own characters, stars as runs, backslashes included |
| Glob.TranslationIsExact | packages/policy-core/src/index.ts:685-691 | for every pattern and value, the regex matches exactly when the value is the pattern with each star replaced by a run without line terminators |
| Glob.MeansTheGlob | packages/verifier-core/src/index.ts:25-30 | for values without line terminators both matchers are the plain glob |
| Ranking.Diversify | packages/memory/src/index.ts:177-231 | the loop with carried similarities selects exactly what naive greedy selection selects when it recomputes the largest similarity at every pick, with the same order and the scores of each moment |
| Ranking.PickIsBest | packages/memory/src/index.ts:186-205 | a pick of naive greedy selection is the best of all that remain, newest among equals, first among equals of one age |
| Ranking.PicksTradeOff | packages/memory/src/index.ts:192-205 | of two candidates the one with more relevance wins unless it is likelier by more than 22 to 3 to what is chosen; of equally relevant ones the one less like it; in a tie the newer |
| Ranking.MaxSimilarityIsLargest | packages/memory/src/index.ts:225-230 | the similarity compared at a pick bounds every similarity to a selected record and is attained |
| Ranking.JaccardBounds | packages/memory/src/index.ts:81-88 | between 0 and 1, symmetric, and 1 exactly for equal token sets |
| Ranking.UnionBySizes | packages/memory/src/index.ts:87-87 | the denominator of the source is the size of the union |
| Ranking.JaccardIsTheShare | packages/memory/src/index.ts:81-88 | the similarity times the size of the union, counted as the source counts it, is the number of common tokens |
| Ranking.SortOrders | packages/memory/src/index.ts:171-175 | the sort puts records in order and neither loses nor repeats one |
| RankingTheorems.BestComesFirst | packages/memory/src/index.ts:171-175 | after the sort the better scored comes first, and of two with one score the newer |
| RankingTheorems.CandidatesAreAllTheMatches | packages/memory/src/index.ts:167-175 | what enters the selection is exactly the records that match |
| RankingTheorems.CandidatesComeInOrder | packages/memory/src/index.ts:171-175 | and it enters by relevance, the newer first of two equally relevant |
| Ranking.SortIsStable | packages/memory/src/index.ts:171-175 | equals keep the order they came in |
| Ranking.GreedyConserves | packages/memory/src/index.ts:186-231 | what is picked and what remains is together what there was |
| Ranking.Select | packages/memory/src/index.ts:185-254 | the picks of naive greedy selection with the scores of their moments, then the rest in their first order without a penalty, without repetition, as many as the limit allows |
| Ranking.IndexEpisodes | packages/memory/src/index.ts:258-267 | the index holds the records of every place of every episode in their order |
| Ranking.Spread | packages/memory/src/index.ts:255-305 | the context pass over the indexed episodes is the pulls of the first twenty anchors on their neighbours, one place back and forth, then two, each with the score its anchor has by then |
| Ranking.SpreadKeeps | packages/memory/src/index.ts:268-305 | the context pass loses no entry and lowers no score, and each new entry stands within two places of a match in its episode |
| Ranking.NeighboursAreLifted | packages/memory/src/index.ts:268-305 | every record one or two places beside an anchor is in the ranking afterwards, with at least the anchor's score decayed once or twice if that is positive |
| RankingTheorems.NeighboursAreNear | packages/memory/src/index.ts:268-305 | with nine tenths of the anchor's score beside it, eighty-one hundredths two places away, for each of the first twenty |
| RankingTheorems.ContextNeverTops | packages/memory/src/index.ts:278-301 | the context pass lifts nothing above the best score there was |
| RankingTheorems.SpeakersGainATenth | packages/memory/src/index.ts:306-314 | a record of the speaker that the query names gains one tenth, and no other changes |
| Ranking.SelectionIsCovered | packages/memory/src/index.ts:209-253 | what is selected enters the context pass without context |
| Ranking.RankMemories | packages/memory/src/index.ts:104-322 | the result is the boosted, sorted and cut context pass over the selection: in order, within the limit, without repeated ids, drawn from the input, each a match or the neighbour of one, and not shorter than the limit while that many match |
| MemoryTheorems.SupersessionIsAcyclic | packages/memory/src/index.ts:332-434 | under any sequence of put, delete, clear and compaction the `superseded_by` relation stays acyclic |
| MemoryCompaction.CompactionIsInvisible | packages/memory/src/index.ts:18-31 | with `maxPerScope` 0, compacting a scope changes no answer of any list of later operations and no read after them that leaves superseded rows out, in any scope, as long as no put and no delete names a row that was taken |
| MemoryCompaction.CompactionRefusesIff | packages/memory/src/index.ts:367-379 | a put is accepted without and refused after compaction if and only if it is acceptable and supersedes a row that was taken; such a row had expired |
| MemoryCompaction.CompactionAcceptsIff | packages/memory/src/index.ts:357-363 | a put is refused without and accepted after compaction if and only if the row under its own id refused it and was taken |
| MemoryCompaction.CompactionRewritesIff | packages/memory/src/index.ts:403-405 | what a put writes is the same without and after compaction if and only if it names no taken id, or one created at that very moment |
| MemoryCompaction.CompactionShowsInPuts | packages/memory/src/index.ts:18-31 | a table, reached by four puts, on which all three happen |
| MemoryTheorems.NamedRowsGoOnlyByExpiry | packages/storage-sqlite/src/index.ts:1066-1079 | a row that a live row names is taken away if and only if it had expired in that scope |
| MemoryTheorems.ExpiryMayDangle | packages/storage-sqlite/src/index.ts:1059-1065 | such a row exists, so `supersedes_id` can dangle |
| MemoryTheorems.RefusedPutIsHarmless | packages/memory/src/index.ts:394-405 | a refused put leaves the rows as they were if and only if a check refused it or its id was not stored before |
| MemoryTheorems.RefusedPutMayDelete | packages/memory/src/index.ts:395-405 | a refused put that deletes a stored row |
| MemoryTheorems.PutReplaces | packages/memory/src/index.ts:394-413 | what a caller sees after an accepted put: the new row in the place of the one it supersedes, nothing else changed |
| MemoryTheorems.PutIsStored | packages/storage-sqlite/src/index.ts:934-946 | round trip: after an accepted put its id gives the row that was written, unless it was written already expired |
| MemoryEviction.AcceptedIff | packages/memory/src/index.ts:346-405 | a put is accepted if and only if its own id is new or a row of the scope that nothing supersedes, and its target another such row |
| MemoryEviction.PutKeepsItsRowIff | packages/memory/src/index.ts:394-413 | under a ceiling an accepted put keeps its row if and only if it is not already expired and fewer current rows than the ceiling are in front of it, not counting the one it supersedes |
| MemoryEviction.NewestPutIsKept | packages/memory/src/index.ts:394-413 | in particular when every current row of the scope is older |
| MemoryTheorems.ClearingEmptiesOneScope | packages/storage-sqlite/src/index.ts:1026-1031 | clearing empties every read of the scope and changes no read of another, superseded rows included |
| MemoryTheorems.EvictionTakesTheOldest | packages/storage-sqlite/src/index.ts:1080-1095 | under a ceiling every row kept comes before every row dropped |
| MemoryTheorems.CeilingHolds | packages/storage-sqlite/src/index.ts:1080-1095 | no more live rows than the ceiling are left |
| MemoryEviction.EvictionLeavesExactly | packages/storage-sqlite/src/index.ts:1080-1095 | the live rows left are as many as there were, or the ceiling if there were more: not one too few |
| MemoryEviction.CompactionIsExact | packages/storage-sqlite/src/index.ts:1050-1095 | which rows of a scope a compaction takes, in both directions: the expired; of the superseded those older than the age limit that no current row names; of the current those with as many newer ones as the ceiling |
| MemoryEviction.CompactionStaysInScope | packages/storage-sqlite/src/index.ts:1050-1095 | no row of another scope is taken and no row is changed |
| MemoryEviction.CompactionLeavesExactly | packages/storage-sqlite/src/index.ts:1050-1095 | a compaction under a ceiling leaves the smaller of the ceiling and the number of current rows |
| MemoryEviction.CompactionLeavesTheNewest | packages/storage-sqlite/src/index.ts:1080-1095 | and those it leaves are newer than those it takes, the greater id among equals |
| Memories.MemoryStore.ListMemories | packages/storage-sqlite/src/index.ts:948-974 | newest first, without repetition, within the limit, and nothing left out that is newer than what was listed |
| Memories.MemoryStore.SupersedeMemory | packages/storage-sqlite/src/index.ts:1004-1017 | changes a row only if it is in the scope and nothing supersedes it yet |
| Memories.MemoryStore.DeleteMemory | packages/storage-sqlite/src/index.ts:1019-1024 | removes a row exactly if it is in the scope |
| Memories.LocalMemory.Put | packages/memory/src/index.ts:332-434 | the rows after a put and whether it was accepted are those of the specification, on every path |
| CircuitBreakers.CircuitBreaker.Check | packages/runtime-core/src/circuit-breaker.ts:38-49 | refuses exactly when the latest `threshold` outcomes of the target are all failures and the newest is younger than the cooldown |
| CircuitBreakers.CircuitBreaker.RecordFailure | packages/runtime-core/src/circuit-breaker.ts:51-55 | the map keeps agreeing with the full history, for every target |
| CircuitBreakers.CircuitBreaker.RecordSuccess | packages/runtime-core/src/circuit-breaker.ts:57-59 | the map keeps agreeing with the full history, for every target |
| CircuitBreakers.TrailingCounts | packages/runtime-core/src/circuit-breaker.ts:38-55 | the count reaches the threshold exactly when that many latest outcomes are failures |
| CircuitBreakers.FailedTrialReopens | packages/runtime-core/src/circuit-breaker.ts:44-49 | after a cooldown one failed trial closes the gate again |
| CircuitBreakers.SuccessCloses | packages/runtime-core/src/circuit-breaker.ts:57-59 | a success clears the count |
| CircuitBreakers.TargetsAreIndependent | packages/runtime-core/src/circuit-breaker.ts:29-60 | whatever is recorded for other targets never changes the answer for this one |

## Left out

- Browser, computer, terminal and file adapters; MCP, HTTP, console, CLI and the SDKs; the Python benchmark.
- SQL text, migrations and schema parsing: tables are maps, parsed values are datatypes, a failing store write
  is not modelled. Objects shared between a run and the data of its events are values here.
- AES-GCM, SHA-256 and UUIDs: a payload opens to what was sealed, digests are injective, ids are new. The
  approval phrase carries the whole digest instead of twelve hexadecimal digits of it; no claim needs either
  to be unguessable.
- `classifyOperation` and `classifyCommand`: an operation carries its classification.
- Path confinement and links: a look at a path is an oracle that may also report a refusal. Properties that
  JavaScript objects inherit, and those of arrays, are not read by result paths.
- `cmd.exe` has its own pass over a line before the program sees it; only the program's reading is modelled.
- `preflight` refuses an operation no adapter offers before anything is stored; the machine starts after it.
- Redaction of secrets, receipts' texts, messages of errors and most timestamps of task rows.
- Timeouts and cancellation signals reach a task as steps of the environment; the circuit breaker's answer to
  an execution is one too, and the breaker itself is proved on its own.
- Ranking: BM25, phrase, confidence and freshness are one exact number per record; the rounding of `toFixed` is not modelled.
- The work between reading a run and committing an advance is one call with its node results as input; what
  other processes commit meanwhile is covered by starting from any recorded run.
- Looking up tasks by idempotency key and the choice between several rows of one key are inputs of recovery.
- A rollback batch that holds two results for one compensation is allowed for: the later one wins.
- `retry-guard.ts` and `verification-gate.ts`: small flag machines.
- WorkflowControllers.WorkflowController.SaveCheckpoint: the checkpoint of an advance follows its transition without another process in between; a process that commits there makes the checkpoint fail, which the contract states for any recorded run.
- NodeSchedulers.ParallelRunsAll: the requests of a parallel node run in turn here; `ParallelBranches.AnyOrderIsInTurn` shows that the order in which executions end makes no difference while the slots hold different tasks, which the source's keys see to.
- WorkflowStores.WorkflowStore.SaveVerifiedCertificate: a later certificate of the same task with another result is not modelled here; `TaskTheorems.EndingsAreFinal` shows that the task controller never writes one over a success.
- Verifier.EmptyResultProvesNothing: speaks of own properties; a path such as `constructor.name` reads what every JavaScript object inherits, and no result here has that.
- WorkflowRows.AdvanceKeepsBacked: the advance of one node is one step over the rows of its moment; other nodes and tasks come before or after it, though the source may run them in between. A loop's predicate gives one answer per task; that of a condition may change.
- MemoryCompaction.CompactionIsInvisible: the counts that put, clear and compaction report are not modelled; a count of cleared rows does tell.
- TaskTheorems.InterruptedMutationIsSettled: says nothing about when the next process comes to serve.
