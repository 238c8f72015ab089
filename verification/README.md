# Verified models of the agent loop and the bridge protocols

This project models the crash-recoverable agent loop and the authority protocols of the coding-agent control plane, and
proves what they promise over every input, every interleaving and every sequence of failures. `dafny verify dfyconfig.toml`
checks everything.

- **Agent loop** (`Checkpoints`, `LogReading`, `AgentLoop`, `CrashResume`, `AgentBudget`, `Endings`). A live run and a resume append to one durable
  log; replay folds the log back into a session. A crash is a process whose appends run out. The model, the tools and the
  lines an executor logs are the environment (`World`), deterministic as the refinement demands. Every log that any number of
  attempts can leave behind replays to a point of one path of conversations; from there follow the refinement, the budget
  over all attempts together, and exactly when a resume answers.
- **Executor leases** (`LeaseProtocol`, `LeaseStore`, `LeaseCodec`). One step per system call, any number of processes, short writes,
  failed calls, crashes. The class runs the real control flow and proves that what it did is a run of the protocol.
- **Authority** (`Authority`, `HotHandoff`, `PreStartRollback`). Two-phase updates with compensation over lease slot,
  authorization record and state file; every save may fail before or after its effect.
- **Integration lane** (`CapabilityBatch`, `IntegrationLane`), **proof reuse** (`FixReview`), **certification and merge**
  (`CertificationJobs`, `Certification`), **one-shot spend** (`OneShotSpend`), **idempotency log** (`IdempotencyLog`), **Git
  path evidence and scope gate** (`NameStatus`, `ScopeGate`), **marker scanners and RESULT evidence** (`Fences`,
  `ResultEvidence`, `JsonPrinter`). `Text`, `SortedStrings` and `Options` are shared.

Foreign code enters as a parameter with its law stated: hashes and fingerprints are injective functions, JSON is an inverse
print/parse pair in which no proper beginning of an object reads as one, UTF-8 decoding is a partial function, clocks and
operating-system answers are inputs. `LeaseCodec` and `JsonPrinter` construct a codec and a printer that meet these laws.

Some promises do not hold of the code as it stands. Each has a concrete witness, and a proof of exactly when it does hold:

- Resuming a completed run returns the latest *non-empty* assistant text, so an empty final answer is not returned
  (`EmptyAnswerNotCached`, exact in `CachedResumeExactly`).
- A crash between a request and its response costs an iteration, so the same policy may halt where the uninterrupted run
  answers (`LostRequestHalts`); and a resume yields to a tool whose idempotency key another worker holds, where the run
  records that answer and goes on, so no resume of such a log ever answers (`BusyToolStopsResume`). Exactly when a resume
  answers is `ResumeAnswersExactly`.
- Two leases with one id released in the same second share a history file (`SharedIdLosesHistory`, `LossIsReal`, exact in
  `KeptExactly`; `AcquiredIsKept` holds when ids determine leases).
- An activation whose acquire fails and cannot clean up leaves the lease slot occupied and records nothing (`DebrisExists`,
  exact in `ActivateAtomicExactly`, and `DebrisStays` shows that no later handoff command removes it).
- A handoff command that dies after its first write leaves a task that no handoff command will ever touch again: the lease
  is released under an ACTIVE record, or taken under a prepared one (`FirstWriteSticks`, `StuckStays`). Which deaths are
  harmless is exact in `PrepareCutSettled` and `ActivateCutSettled`; none puts the wrong executor in charge (`CutCharge`,
  `SourceStaysOut`).
- The pipeline-mode scanner closes a fence on any run of its character, so a shorter fence inside a longer one lets markers
  out (`NestedFenceLeaks`, exact in `TransparentExactly` and, line by line, in `TransparentByLines`).
- Evidence text may hold a Unicode line separator, which breaks the one-line RESULT marker (`LegalTextMayBreakLines`,
  `ValidRecordIsLost`, exact in `PublishedRoundTripExactly`); a schema-1 record keeps its two head fields only if they are
  the defaults (`SchemaOneForgetsRole`, exact in `DictRoundTripExactly`).
- A Git listing cut inside a change's last path is accepted with a shortened path, as long as that is still UTF-8
  (`ByteCutAccepted`, `CutInsideCharacter`); every other cut inside a change is rejected (`CutCollectsExactly`).

## Model

| member | source | states |
|---|---|---|
| `Checkpoints.ReconstructSession` | src/agent/replay_engine.py:94-182 | The one-pass replay loop gives the fold of the log, and fails exactly when some event is an illegal transition |
| `Checkpoints.ReconstructUsage` | src/core/run_budget.py:77-126 | Usage read back from a log is the highest iteration and the set of all logical call ids |
| `LogReading.Admits` | src/core/checkpoint_contract.py:243-354 | The state machine event by event: the states each may come in, and the one it leads to |
| `LogReading.EndIsFinal` | src/core/checkpoint_contract.py:256-274 | A run that has ended continues legally with closing events of its kind and no others, and replay gives the same for ever |
| `LogReading.ResultReplays` | src/agent/replay_engine.py:143-182 | A logged result is replayed as one more tool message with its status, data, error and tool, under the call's id |
| `LogReading.BareResultReplays` | src/agent/replay_engine.py:154-182 | A result line without the result is replayed from its own status and tool name |
| `LogReading.OthersReplay` | src/agent/replay_engine.py:99-141 | A start gives both prompts, a response one assistant message with its text and calls, and no other event says anything |
| `LogReading.PendingExactly` | src/agent/replay_engine.py:110-149 | In every legal log the pending calls are exactly those asked for and neither answered nor asked for again since |
| `LogReading.IterationsExactly` | src/core/run_budget.py:92-98 | The iterations charged are the highest number any request or response carries |
| `LogReading.IdsExactly` | src/core/run_budget.py:100-116 | An id is charged if and only if some response, attempt or result mentions it |
| `AgentLoop.ResultAgrees` | src/agent/loop.py:211-240 | After a result and its message, replay gives the live messages and exactly the rest of the batch as pending, in order |
| `AgentLoop.ResponseAgrees` | src/agent/loop.py:135-166 | After a response, replay gives the live messages and the whole batch as pending; without calls the run is complete |
| `AgentLoop.Agent.Append` | src/core/checkpoint.py:255-293 | A legal event is appended, or the process is dead and the log unchanged |
| `AgentLoop.Agent.Execute` | src/agent/loop.py:204-212 | Executor lines extend the log and leave replay's messages and pending calls as they were, up to any crash |
| `AgentLoop.Agent.CallTool` | src/agent/loop.py:174-240 | One call: charged once, within the limit, log as specified or the exact cut of that at a crash; an answered call leaves one more message and one more line, with the result's own status, data and error, the call's id and the tool's name |
| `AgentLoop.Agent.RunBatch` | src/agent/loop.py:331-404 | The batch loop keeps charged == seen within the limit, executed ids seen, and refines the rest of the run |
| `AgentLoop.Agent.AskModel` | src/agent/loop.py:98-166 | One iteration: never beyond the limit, request before response, replay agrees with memory afterwards |
| `AgentLoop.Agent.Finish` | src/agent/loop.py:168-172 | Both closing events, or the exact cut |
| `AgentLoop.Agent.MainLoop` | src/agent/loop.py:92-240 | Terminates on iterations left; ends with exactly the uninterrupted log and outcome, cut where the process died |
| `AgentLoop.Agent.RunInternal` | src/agent/loop.py:73-240 | A run ends with the specified log and outcome cut at its lifetime, within the policy, and has handed the executor exactly the specified ids |
| `AgentLoop.Agent.ResumeInternal` | src/agent/loop.py:247-555 | A resume of any log these methods wrote does the same from the replayed session; completed, terminal and corrupt logs end as specified |
| `AgentLoop.Agent.Continue` | src/agent/loop.py:297-404 | The recoverable case: what the log shows is charged, a spent budget halts, otherwise pending calls and main loop end as specified |
| `CrashResume.ExecutedWereSeen` | src/core/run_budget.py:100-116 | Every id handed to the executor is in the seen set read back from the log |
| `CrashResume.ExecutedExactly` | src/core/run_budget.py:108-116 | The executed ids of a log are those of its attempts and results |
| `CrashResume.FinalUnique` | src/agent/loop.py:92-240 | A deterministic environment allows one conversation: two points agree as far as the shorter goes and it ends in one way |
| `CrashResume.AfterKeeps` | src/agent/loop.py:247-555 | What no legal append breaks holds of the log after a run and any number of resumes, each cut anywhere |
| `CrashResume.AfterFaithful` | src/agent/replay_engine.py:94-182 | After any such history replay gives a point of the path with exactly that point's unanswered calls pending, in order |
| `CrashResume.AfterResumable` | src/agent/loop.py:297-301 | Every such log meets what the resume method asks of it |
| `CrashResume.CrashResumeRefines` | src/agent/loop.py:247-555 | After any crashes, a resume that answers ends with the uninterrupted run's history, and its answer unless that came from the cache |
| `AgentBudget.AfterSound` | src/agent/loop.py:303-362 | Every log of every history of attempts is faithful, its accounts in order, and shows at most max_iterations requests and max_tool_calls executed ids in all |
| `AgentBudget.HandedWithinBudget` | src/agent/loop.py:174-212 | Over all attempts together, logged or not, the executor was handed at most max_tool_calls different ids, all of them in the log |
| `AgentBudget.RunExactly` | src/agent/loop.py:98-202 | A run answers if and only if the path ends within max_iterations turns and max_tool_calls ids |
| `AgentBudget.ResumeAnswersExactly` | src/agent/loop.py:303-404 | A resume answers if and only if the whole run would on the policy less the lost requests and meets no busy tool from the replayed point on |
| `AgentBudget.ResumeEqualsRun` | src/agent/loop.py:297-555 | Granted one iteration per lost response, and with no busy tool left on the way, a resume gives the uninterrupted run's history and answer |
| `AgentBudget.CachedResumeExactly` | src/agent/loop.py:270-276 | A resume of a completed log appends nothing and returns the run's answer if and only if the cache condition holds |
| `AgentBudget.LostRequestHalts` | src/agent/loop.py:118-124 | Witness: a response lost under a limit of one iteration makes the resume halt |
| `AgentBudget.BusyToolStopsResume` | src/agent/loop.py:366-371 | Witness: the run answers, and no resume of its cut log does, whatever the policy |
| `AgentBudget.EmptyAnswerNotCached` | src/agent/loop.py:270-276 | Witness: an empty final answer is not what the resume returns |
| `AgentBudget.CachedIsLatest` | src/agent/loop.py:270-276 | The cached answer is the text of the last assistant message that has any, and there is none if and only if nobody said anything |
| `Endings.RunEnds` | src/agent/loop.py:98-240 | A run closes its log with what it answers, or with why it stops: a provider or executor failure, or a limit that the log shows to be reached |
| `Endings.ResumeEnds` | src/agent/loop.py:262-404 | A resume refuses empty, illegal, failed and halted logs as they are, answers a completed one as it is, records a spent budget, and closes any other like a run, but for a busy tool |
| `LeaseProtocol.InvStep` | src/aios_bridge/runtime_lease.py:205-299 | Every step of every process keeps lock discipline, a complete file for a held lease, and an orderly history of acquires and releases |
| `LeaseProtocol.MutualExclusion` | src/aios_bridge/runtime_lease.py:39-77 | Over every interleaving with failures and crashes, two successful acquires have a release of the first between them |
| `LeaseProtocol.OnlyOwnLeases` | src/aios_bridge/runtime_lease.py:136-147 | Over every interleaving nobody acquires, releases or finds a lease of another task or workspace, or an oversized one |
| `LeaseProtocol.LeftoverOnlyBlocks` | src/aios_bridge/runtime_lease.py:232-254 | A leftover partial file stays for ever, nothing is acquired or released over it, and readers report it corrupt |
| `LeaseProtocol.RemovalIsExact` | src/aios_bridge/runtime_lease.py:277-299 | A file disappears only by a release of exactly the lease it holds, or by the cleanup of the call that created it and nobody holds |
| `LeaseProtocol.ReadersSeeWhole` | src/aios_bridge/runtime_lease.py:102-147 | An unlocked read returns only complete leases, and the held one while one is held |
| `LeaseProtocol.KeptExactly` | src/aios_bridge/runtime_lease.py:277-299 | Over every run a lease is active or in the history if and only if it is unreleased or some release of it was not followed by a different lease with its id in the same second |
| `LeaseProtocol.AcquiredIsKept` | src/aios_bridge/runtime_lease.py:277-299 | If lease ids determine leases among the releases, every lease ever acquired is active or in the history |
| `LeaseStore.SharedIdLosesHistory` | src/aios_bridge/runtime_lease.py:286-293 | Witness: two leases with one id released at one time leave the first neither active nor archived |
| `LeaseCodec.SampleIsLawful` | src/aios_bridge/continuity/lease.py:148-163 | The law the lease theorems ask of the codec is met by a concrete one, for every task and workspace |
| `LeaseCodec.LossIsReal` | src/aios_bridge/runtime_lease.py:286-293 | Under that codec an acquired lease is neither active nor archived at the end of some run |
| `LeaseStore.Store.LoadActive` | src/aios_bridge/runtime_lease.py:102-147 | Absent if and only if there is no file; a lease if and only if 1 to 16384 bytes decode to it and it is of this task and workspace |
| `LeaseStore.Store.RequireActive` | src/aios_bridge/runtime_lease.py:149-183 | Passes if and only if the file shows exactly the expected lease, of this task and workspace |
| `LeaseStore.Store.Acquire` | src/aios_bridge/runtime_lease.py:185-257 | A run of the protocol; success means a lease of this workspace, an absent file that is now complete, and no failed call; failure leaves the old file or an unremovable part of this lease |
| `LeaseStore.Store.WriteAll` | src/aios_bridge/runtime_lease.py:213-227 | The write loop ends with every byte written and synced, or cleaned up |
| `LeaseStore.Store.Release` | src/aios_bridge/runtime_lease.py:259-299 | Succeeds if and only if the file shows exactly this lease and the calls succeed; then it is in the history, else nothing changed |
| `Authority.StoreBacksSlot` | src/aios_bridge/runtime_lease.py:102-147 | What the store's methods leave in the file is what the handoff commands see in the slot |
| `Authority.StoreAcquireGrabs` | src/aios_bridge/runtime_lease.py:185-257 | Whatever the store's acquire does to the file is one of the slot's moves |
| `Authority.StoreReleaseDrops` | src/aios_bridge/runtime_lease.py:259-299 | The store's release is the slot's compare-and-release |
| `Authority.InChargeExactly` | src/aios_bridge/legacy_bridge.py:432-487 | A lease is in charge if and only if it is live and an ACTIVE record names it field by field, nothing blank, under its own fingerprint |
| `Authority.NonBlankExactly` | src/aios_bridge/legacy_bridge.py:451-456 | A field counts as present if and only if stripping leaves something of it |
| `Authority.Desk.Acquire` | src/aios_bridge/runtime_lease.py:185-257 | Taken, undone, or left dirty, and what each leaves in the slot |
| `Authority.Desk.RestoreAuth` | src/aios_bridge/legacy_bridge.py:4662-4667 | A save counts only with a matching read-back; a failing save may or may not have taken effect |
| `Authority.Desk.UpdateState` | src/aios_bridge/legacy_bridge.py:761-780 | The status, task and next step are rewritten, the last review only for a review status, or the file is unchanged if the write is lost |
| `HotHandoff.Prepare` | src/aios_bridge/legacy_bridge.py:4544-4678 | Refuses, prepares, rolls back or alarms, each with the exact state left and the exact condition on checks and failures; rolled back, a RUN is IN_PROGRESS again and a FIX CHANGES_REQUIRED; and what every write on the way leaves |
| `HotHandoff.CheckPrepare` | src/aios_bridge/legacy_bridge.py:4549-4622 | The checks pass if and only if the source is in charge and every binding, blob and checkpoint agrees |
| `HotHandoff.UndoPrepare` | src/aios_bridge/legacy_bridge.py:4653-4678 | Rolled back, with the status of a running RUN or an open FIX, if and only if every restoration went through; otherwise recovery recording was attempted |
| `HotHandoff.Activate` | src/aios_bridge/legacy_bridge.py:4692-4853 | The same for activation, which leaves a RUN IN_PROGRESS and a FIX CHANGES_REQUIRED, with the exact condition under which a refusal is not without trace |
| `HotHandoff.CheckActivate` | src/aios_bridge/legacy_bridge.py:4697-4778 | The checks pass if and only if the record is prepared and consistent, the slot is free and the executor is another |
| `HotHandoff.PrepareReadyExactly` | src/aios_bridge/legacy_bridge.py:4549-4599 | Prepare goes ahead if and only if the human confirmed, the source is in charge without failover marks, and task, branch, workspace, artifact and checkpoint agree |
| `HotHandoff.ActivateReadyExactly` | src/aios_bridge/legacy_bridge.py:4697-4778 | Activation goes ahead if and only if the prepared record is consistent with the holder it names, the slot is empty, and somebody else asks with that checkpoint while all else is unchanged |
| `HotHandoff.PreparedRecord` | src/aios_bridge/legacy_bridge.py:4632-4652 | A prepared record is the old one with the holder, lease, artifact, checkpoint and time beside it, field by field |
| `HotHandoff.ActivatedRecord` | src/aios_bridge/legacy_bridge.py:4797-4827 | An activated record is the prepared one under the new holder, whose lease is live, with both holders beside it |
| `HotHandoff.PreparedIsActivatable` | src/aios_bridge/legacy_bridge.py:4717-4778 | What a prepare left can be activated if and only if somebody else asks with the captured checkpoint, in the same workspace and branch, with the artifact unchanged |
| `HotHandoff.RecordActive` | src/aios_bridge/legacy_bridge.py:4791-4827 | Succeeds if and only if both writes and the second verification do, and then the status is IN_PROGRESS for a RUN and CHANGES_REQUIRED for a FIX; every write on the way leaves the lease and one of two records |
| `HotHandoff.UndoActivate` | src/aios_bridge/legacy_bridge.py:4828-4853 | Rolled back to the prepared record if and only if every step went through |
| `HotHandoff.PrepareAtomic` | src/aios_bridge/legacy_bridge.py:4571-4678 | Every exit of prepare is the exact old authority, the exact prepared one, or a recorded attempt; nobody new is ever in charge |
| `HotHandoff.ActivateAtomicExactly` | src/aios_bridge/legacy_bridge.py:4717-4853 | Activation is atomic in that sense if and only if its acquire does not fail dirty |
| `HotHandoff.DebrisExists` | src/aios_bridge/legacy_bridge.py:4789-4830 | Witness, for every fingerprint: every check passes and the acquire leaves a partial file, with nothing recorded |
| `HotHandoff.SourceStaysOut` | src/aios_bridge/legacy_bridge.py:4724-4725 | After a successful prepare and any activations, whatever fails in them and wherever they die, the source executor is never in charge |
| `HotHandoff.DebrisStays` | src/aios_bridge/legacy_bridge.py:4756-4758 | A prepared record over an occupied slot is changed by no later prepare or activate and gives nobody charge |
| `HotHandoff.ActivationGivesCharge` | src/aios_bridge/legacy_bridge.py:4799-4821 | After a successful activation the record matches the live lease of the replacement |
| `HotHandoff.RunStaysSettled` | src/aios_bridge/legacy_bridge.py:4571-4853 | Over every run of commands without alarm or debris someone is in charge or the work is free to be taken |
| `HotHandoff.ExitIsCut` | src/aios_bridge/legacy_bridge.py:4571-4853 | Every exit of a command is among the states a death may leave, so what holds of all deaths holds of all exits |
| `HotHandoff.CutCharge` | src/aios_bridge/legacy_bridge.py:4571-4853 | Wherever a command dies nobody is in charge but the one who was, or the replacement |
| `HotHandoff.PrepareCutSettled` | src/aios_bridge/legacy_bridge.py:4624-4652 | A prepare that dies leaves the task settled if and only if it leaves the whole old or the whole prepared authority |
| `HotHandoff.ActivateCutSettled` | src/aios_bridge/legacy_bridge.py:4789-4827 | An activation that dies leaves it settled if and only if it leaves the whole prepared or the whole active authority |
| `HotHandoff.FirstWriteSticks` | src/aios_bridge/legacy_bridge.py:4624-4625 | Witness: dying right after the release, or right after the acquire, leaves the task stuck |
| `HotHandoff.StuckStays` | src/aios_bridge/legacy_bridge.py:4557-4576 | A stuck task stays so through any commands, failures and deaths |
| `PreStartRollback.Rollback` | src/aios_bridge/legacy_bridge.py:3734-3789 | Returns normally if and only if lease, record and state were all restored; then the lease is gone and the record is the nested prior one; a malformed or ACTIVE prior raises |
| `PreStartRollback.ProvenExactly` | src/aios_bridge/legacy_bridge.py:3742-3785 | It is proven if and only if the slot held the very lease, the record before was absent or not ACTIVE, and every write was made and read back |
| `PreStartRollback.StartGivesCharge` | src/aios_bridge/legacy_bridge.py:2930-2966 | A started run puts the holder of its lease in charge if and only if none of its names is blank |
| `PreStartRollback.AuthorizeRun` | src/aios_bridge/legacy_bridge.py:2915-2988 | A started run leaves its lease and an ACTIVE record of it, field by field; a rolled-back start leaves slot, state and record as before (less the record's own nested backup); an unproven one raises the alarm |
| `PreStartRollback.AttemptsUndone` | src/aios_bridge/legacy_bridge.py:2954-2960 | Any number of failed starts leaves what the first one found |
| `IntegrationLane.AdvanceNeverStuck` | src/aios_bridge/integration_lane.py:607-619 | A passed preflight always advances: the appended id is new |
| `IntegrationLane.BeginExactly` | src/aios_bridge/integration_lane.py:280-294 | An open lane begins if and only if its batch has members |
| `IntegrationLane.AdvanceExactly` | src/aios_bridge/integration_lane.py:534-619 | A task is appended if and only if it is the next member bound to the current head, its review accepted the very commit its branch is at, that commit moves the head, no T2 ran, and every machine check passed; then the head is the reviewed commit and only the member's id is new |
| `IntegrationLane.RebindExactly` | src/aios_bridge/integration_lane.py:314-355 | A membership revision is accepted if and only if it is the next valid version of the same batch with other members, keeps those integrated and binds the next one to the current head |
| `IntegrationLane.ReadyExactly` | src/aios_bridge/integration_lane.py:678-713 | The lane becomes ready if and only if all members are integrated, the evidence is current and no recovery is open |
| `IntegrationLane.LaneCanFinish` | src/aios_bridge/integration_lane.py:607-713 | Every valid open manifest whose members each leave the head moved has a run of accepted commands that ends ready with all of them |
| `IntegrationLane.ReadyMoved` | src/aios_bridge/integration_lane.py:577-580 | And in every ready lane each member left the head moved |
| `IntegrationLane.RebindInv` | src/aios_bridge/integration_lane.py:314-355 | A membership revision keeps the integrated prefix and the chain of heads |
| `IntegrationLane.RunInv` | src/aios_bridge/integration_lane.py:264-355 | Over every run integrated ids are the manifest prefix, and a chain of differing heads leads from base main to the current head, member i bound to head i |
| `IntegrationLane.StepDrops` | src/aios_bridge/integration_lane.py:280-355 | Every accepted command lowers (status rank, versions left, members left) lexicographically, and a single potential |
| `IntegrationLane.RunsEnd` | src/aios_bridge/capability_batch.py:25-26 | A run has at most as many accepted commands as its potential |
| `IntegrationLane.Frozen` | src/aios_bridge/integration_lane.py:297-311 | A lane that is neither open nor integrating, or is of another batch, fingerprint, base or ref than the manifest, accepts no command |
| `IntegrationLane.ReadyIsComplete` | src/aios_bridge/integration_lane.py:678-713 | A ready lane holds the whole membership in order along one chain of heads, and is frozen |
| `IntegrationLane.MovedBatchFreezesLane` | src/aios_bridge/capability_batch.py:357-371 | Once the batch moves out of band no manifest of its further lifecycle is accepted with that lane |
| `CapabilityBatch.ManifestExactly` | src/aios_bridge/capability_batch.py:178-214 | A manifest is valid if and only if each member stands at its own position under an id no earlier one bears, the first bound to base main, within the bounds |
| `CapabilityBatch.MovesForward` | src/aios_bridge/capability_batch.py:70-101 | Batches move forward only: to integration, readiness, recovery and superseded, from exactly these states |
| `FixReview.ResolveFingerprint` | src/aios_bridge/fix_review.py:309-323 | The dictionary loop hashes the sorted path/blob rows, or gives up on the first unresolved path |
| `FixReview.FingerprintExact` | src/aios_bridge/fix_review.py:292-323 | Whatever their order and repetitions, two path lists under two resolvers have one fingerprint if and only if they name the same paths and the resolvers agree on them |
| `FixReview.JudgeExactly` | src/aios_bridge/review_pipeline.py:426-442 | The verdict on a binding: carried, invalidated, forbidden or unresolved, each exactly in its case of status, resolved paths, moved blobs and changed paths |
| `FixReview.JudgeBinding` | src/aios_bridge/fix_review.py:427-466 | One pass of the loop reaches the specified verdict |
| `FixReview.AnalyzeFixImpact` | src/aios_bridge/fix_review.py:393-503 | The imperative analysis equals its specification, errors included |
| `FixReview.ListsExactly` | src/aios_bridge/fix_review.py:427-466 | Which list an id is in: carried if and only if VALID, resolved, unmoved and untouched; invalidated if and only if VALID and resolved but moved or touched; forbidden if and only if not VALID or some path does not resolve |
| `FixReview.LargerChangeIsSafer` | src/aios_bridge/fix_review.py:451-458 | Enlarging the changed set never adds a carried proof and never turns scope expansion off |
| `FixReview.ListsPartition` | src/aios_bridge/fix_review.py:458-466 | The three id lists partition the bound proofs |
| `FixReview.RefusedExactly` | src/aios_bridge/fix_review.py:405-446 | The analysis is refused if and only if the head is another, more than 128 paths changed, one is repeated, or a resolved fingerprint disagrees with the recorded one |
| `FixReview.ScopeExactly` | src/aios_bridge/fix_review.py:467-490 | The scope expands if and only if impact was unknown, a path does not resolve, or a changed path is not affected, or protected and in no proof; changed paths come back sorted |
| `FixReview.PickInOrder` | src/aios_bridge/fix_review.py:458-465 | Ids are listed in the order of the bindings |
| `FixReview.SelectedExact` | src/aios_bridge/fix_review.py:480-490 | A test is selected if and only if it is in the base list or belongs to a proof that was judged and did not pass |
| `FixReview.TestsCovered` | src/aios_bridge/fix_review.py:460-490 | Every proof not carried has all its tests selected, or the whole fallback list is |
| `FixReview.KnownIsCovered` | src/aios_bridge/fix_review.py:467-490 | When KNOWN, changed paths are declared affected and changed protected paths have a covering proof that is not carried, all its tests selected |
| `IdempotencyLog.CheckTransition` | src/agent/production_readiness.py:129-213 | The chain of checks accepts exactly the legal successors |
| `IdempotencyLog.Validate` | src/agent/production_readiness.py:97-222 | One pass over the interleaved log accepts if and only if every line parses and each key's projection is legal, and returns each key's latest record |
| `IdempotencyLog.LegalPerKey` | src/agent/production_readiness.py:125-216 | A log is accepted if and only if each key's records, alone, are |
| `IdempotencyLog.LegalExactly` | src/agent/production_readiness.py:97-213 | A log is accepted if and only if every line parses, no record is updated before it was created, and each record may follow the one before it under its key, owner and attempt included |
| `IdempotencyLog.LegalPrefix` | src/agent/production_readiness.py:99-222 | Accepted logs are prefix-closed |
| `IdempotencyLog.LegalLifecycle` | src/agent/production_readiness.py:129-213 | Within a key: attempt = first + later claims, created_at constant, updated_at never falls, nothing follows COMPLETED or FAILED |
| `CertificationJobs.TerminalLoads` | src/aios_bridge/certification_job.py:463-523 | A terminal job exists if and only if exit and duration are bounded; it holds exactly those facts, reloads under its digest, and is PASS if and only if T2 exited zero on an unchanged subject |
| `CertificationJobs.JobExactly` | src/aios_bridge/certification_job.py:233-325 | What a valid job of each status holds, and nothing else |
| `CertificationJobs.ReasonHolds` | src/aios_bridge/review_merge.py:182-321 | Every refusal of the merge gate names something that is so, and eligibility means all of it is in order |
| `CertificationJobs.EligibleExactly` | src/aios_bridge/review_merge.py:182-321 | The gate is passed if and only if review, refs and, where one governs, the roadmap evidence agree in every field |
| `Certification.Bridge.Existing` | src/aios_bridge/legacy_bridge.py:6497-6533 | An exact job or any RUNNING one stops a new certification; others are archived first |
| `Certification.Bridge.Launch` | src/aios_bridge/legacy_bridge.py:6535-6560 | PENDING and RUNNING are persisted before T2 starts, under every failure |
| `Certification.Bridge.RunT2` | src/aios_bridge/legacy_bridge.py:6555-6593 | T2 starts only under the persisted RUNNING job; certified or not, exactly as it exited, with the failure on record |
| `Certification.Bridge.Conclude` | src/aios_bridge/legacy_bridge.py:6561-6593 | PASS is persisted only for exit zero and an unchanged subject |
| `Certification.Bridge.Certify` | src/aios_bridge/legacy_bridge.py:6480-6622 | Every invocation keeps the trace lawful; a RUNNING or exact job is left untouched, a replaced one is archived; certified if and only if all went through |
| `Certification.Bridge.FinalReview` | src/aios_bridge/review_pipeline.py:156-201 | A review-first merge has a final review if and only if acceptance, approval and the persisted PASS of exactly the bound candidate are there |
| `Certification.Bridge.Merge` | src/aios_bridge/legacy_bridge.py:6881-7055 | Pushes if and only if review, roadmap evidence and refs pass the gate, review-first with the persisted PASS of exactly this task, head, fingerprint, profile and command; a receipt if and only if both refs are then at the reviewed head |
| `Certification.NoSecondT2` | src/aios_bridge/legacy_bridge.py:6497-6533 | Two T2 starts for one exact candidate have a saved job for another between them |
| `Certification.PushedIsCertified` | src/aios_bridge/review_pipeline.py:156-201 | A review-first push is of a head whose PASS is on disk for exactly the bound task, fingerprint, profile and command, after a T2 that exited zero and left its subject intact |
| `Certification.DeadRunBlocks` | src/aios_bridge/legacy_bridge.py:6505-6511 | Once RUNNING is persisted and its process is gone no T2 ever starts again |
| `OneShotSpend.FactoryRunsOnce` | src/aios_bridge/paid_api_brain_escape.py:359-400 | Over every interleaving of attempts and failures the provider factory runs at most once, after that attempt's consume |
| `OneShotSpend.ConsumedForGood` | src/aios_bridge/runtime_paid_api_grant.py:277-300 | A consumed grant is never active again |
| `OneShotSpend.ActivateExactly` | src/aios_bridge/runtime_paid_api_grant.py:277-359 | A grant is activated only where none is active and none was ever consumed |
| `OneShotSpend.DeferredProvider.Invoke` | src/aios_bridge/paid_api_real_escape.py:349-384 | The first invocation runs the factory, every other is refused |
| `OneShotSpend.GrantStore.Consume` | src/aios_bridge/runtime_paid_api_grant.py:376-429 | Succeeds only on an active, unconsumed, exact grant; a late failure leaves it consumed |
| `OneShotSpend.GrantStore.CallProvider` | src/aios_bridge/paid_api_real_escape.py:372-377 | One gateway call is one step of the machine: the first runs the factory, the others nothing |
| `OneShotSpend.GrantStore.Escape` | src/aios_bridge/paid_api_real_escape.py:876-928 | A run of the step machine; the factory runs if and only if every gate passed and the consume succeeded first, once however often the gateway calls |
| `NameStatus.CollectTracked` | src/aios_bridge/legacy_bridge.py:1182-1203 | The index loop returns every named path in order, or fails on the first bad status, truncation or undecodable path |
| `NameStatus.CollectDirtyPaths` | src/aios_bridge/legacy_bridge.py:1177-1217 | Both listings together, sorted, duplicate-free |
| `NameStatus.StatusExactly` | src/aios_bridge/legacy_bridge.py:1192-1194 | The status codes, by byte, and which of them name two paths |
| `NameStatus.ParseExact` | src/aios_bridge/legacy_bridge.py:1185-1203 | Every well-formed list of changes parses back to itself |
| `NameStatus.TruncationRejected` | src/aios_bridge/legacy_bridge.py:1195-1197 | A list cut after any number of fields is accepted if and only if the cut falls between two changes |
| `NameStatus.ByteCutExactly` | src/aios_bridge/legacy_bridge.py:1182-1203 | The fields of a listing cut after any number of bytes spell changes if and only if the cut falls between two changes or leaves a non-empty beginning of a change's last path |
| `NameStatus.CutCollectsExactly` | src/aios_bridge/legacy_bridge.py:1177-1217 | A listing cut after any number of bytes is collected if and only if its fields spell changes and every path left, the shortened one included, is UTF-8; then exactly those paths are returned |
| `NameStatus.ByteCutAccepted` | src/aios_bridge/legacy_bridge.py:1182-1184 | Witness: a cut inside a path is accepted |
| `NameStatus.CutInsideCharacter` | src/aios_bridge/legacy_bridge.py:1198-1202 | Witness: a cut inside a multi-byte character is rejected |
| `NameStatus.CollectsEveryPath` | src/aios_bridge/legacy_bridge.py:1177-1217 | For whatever Git prints the result is the ascending duplicate-free list of all named paths, both sides of renames and copies |
| `NameStatus.CollectsExactly` | src/aios_bridge/legacy_bridge.py:1177-1217 | Collecting succeeds if and only if every named path is UTF-8, and then a path is in the result if and only if a change or the untracked listing names it |
| `ScopeGate.GateExact` | src/aios_bridge/executor_automation.py:407-441 | The gate accepts if and only if branch and HEAD are unmoved, something changed, and every changed path is legal and allowed |
| `ScopeGate.RepoPathExactly` | src/aios_bridge/executor_automation.py:73-86 | A path is legal if and only if it is steps joined by slashes, none empty or a dot or two, without outer white space, back slashes or control characters |
| `ScopeGate.GateCoversEveryPath` | src/aios_bridge/executor_automation.py:96-103 | When it accepts, every path Git named is allowed, legal, and outside .git and the five control directories |
| `Fences.TopLevelValues` | src/aios_bridge/fix_review.py:57-79 | The loop finds exactly the specified top-level markers under the strict closing rule |
| `Fences.PipelineModeValues` | src/aios_bridge/review_pipeline.py:75-88 | The loop finds exactly the specified markers under the loose closing rule |
| `Fences.EvidencePayloads` | src/aios_bridge/result_evidence.py:279-307 | The RESULT scanner, which strips and counts differently, finds exactly what the strict rule specifies |
| `Fences.FenceExactly` | src/aios_bridge/fix_review.py:62-69 | A fence line is white space and then a whole run of three or more back quotes or tildes, as wide as that run |
| `Fences.ClosesExactly` | src/aios_bridge/fix_review.py:70-75 | A fence is closed by a fence line of its character, for the strict scanners as wide at least and with nothing behind it |
| `Fences.OpenExactly` | src/aios_bridge/fix_review.py:60-77 | A scanner is inside a fence if and only if some line outside any opened it and none has closed it since |
| `Fences.ScanExactly` | src/aios_bridge/fix_review.py:77-79 | What is found is the stripped rest of exactly the marker lines that stand outside every fence |
| `Fences.TransparentExactly` | src/aios_bridge/fix_review.py:57-79 | Inserting a block anywhere outside a fence changes no marker if and only if the block alone finds none and ends unfenced |
| `Fences.InertExactly` | src/aios_bridge/review_pipeline.py:75-88 | A scanner is blind to exactly the texts made of blocks proper by its closing rule with plain lines between them |
| `Fences.FencedBlockIsTransparent` | src/aios_bridge/result_evidence.py:285-307 | Every block proper by a scanner's own closing rule is transparent for it |
| `Fences.FencedTextIsTransparent` | src/aios_bridge/fix_review.py:57-79 | The same for a text cut into lines by splitlines |
| `Fences.LooseTransparent` | src/aios_bridge/review_pipeline.py:75-88 | The simple case: no inner run of the fence's own character |
| `Fences.TransparentByLines` | src/aios_bridge/review_pipeline.py:75-88 | Transparency is exactly that condition on the block's lines, for the loose and the strict scanner |
| `Fences.NestedFenceLeaks` | src/aios_bridge/review_pipeline.py:81-85 | Witness: for every marker, a properly fenced block that leaks it to the loose scanner |
| `ResultEvidence.CheckValue` | src/aios_bridge/result_evidence.py:49-84 | A value is accepted if and only if it is legal and it holds at most 256 values in all |
| `ResultEvidence.LegalExactly` | src/aios_bridge/result_evidence.py:49-84 | A value is legal if and only if everything in it, at any depth, is of an admissible kind, size and key |
| `ResultEvidence.AllNodesJoin` | src/aios_bridge/result_evidence.py:51-56 | Values are counted one by one: the count of two lists together is the sum of theirs |
| `ResultEvidence.FromDictExactly` | src/aios_bridge/result_evidence.py:191-260 | A dictionary reads as a record if and only if it has exactly the fields of its schema, the fixed head fields and valid facts |
| `ResultEvidence.DictRoundTripExactly` | src/aios_bridge/result_evidence.py:161-260 | A record survives its dictionary if and only if its head fields are the ones the schema writes or defaults |
| `ResultEvidence.ParseResultEvidence` | src/aios_bridge/result_evidence.py:274-316 | Exactly one unfenced marker, then JSON, then the record |
| `ResultEvidence.ParseExactly` | src/aios_bridge/result_evidence.py:274-316 | A record is read if and only if one line outside every fence carries the marker and JSON that is its dictionary |
| `ResultEvidence.PublishedRoundTripExactly` | src/aios_bridge/legacy_bridge.py:6034-6053 | A published record reads back as itself if and only if its JSON holds no line boundary |
| `ResultEvidence.LegalTextMayBreakLines` | src/aios_bridge/result_evidence.py:61-64 | Witness: text the value check accepts and splitlines cuts |
| `JsonPrinter.SampleIsInverse` | src/aios_bridge/result_evidence.py:188-195 | The law asked of the JSON pair is met by a concrete printer that leaves characters raw |
| `JsonPrinter.ValidRecordIsLost` | src/aios_bridge/result_evidence.py:274-316 | Witness: a valid record with a legal note, published between any prose, does not read back |
| `JsonPrinter.SchemaOneForgetsRole` | src/aios_bridge/result_evidence.py:232-260 | Witness: a valid schema-1 record with a head role of its own does not survive its dictionary |
| `Text.SplitInverts` | src/aios_bridge/executor_automation.py:79-83 | Splitting on a separator loses nothing: the parts, each followed by it, are the string with one more |
| `Text.SplitBreak` | src/aios_bridge/fix_review.py:62-62 | The first line of a text ends at its first boundary, of whatever kind |
| `Text.StripExactly` | src/aios_bridge/fix_review.py:78-78 | Stripping takes white space off both ends and leaves none there |
| `SortedStrings.LessExactly` | src/aios_bridge/fix_review.py:418-418 | The sorting order: a proper beginning first, or the smaller character where two strings first differ |

## Left out

- AgentLoop.Agent.ResumeInternal: requires of an open log that its replayed session is one a live process could hold;
  `AfterResumable` shows this of every log the loop itself writes, and hand-made logs that make an append illegal are not modelled.
- Fences.LooseTransparent: one direction only; `TransparentByLines` gives the exact condition on the block's lines.
- OneShotSpend.GrantStore.Escape: the pure checks before the consume are one verdict; a custom gateway factory is not modelled.
- LeaseProtocol.ReadersSeeWhole: a read is one step; the gap between opening and reading the file is not modelled.
- Cancellation, wall-clock timeouts and real disk durability; empty call ids, which usage reconstruction ignores.
- Checkpoint sequence ids, time stamps and several runs in one file; the map of completed tool calls that replay also keeps.
- The list of decisions a fix analysis keeps beside the three id lists (it repeats them, with the verdict's name).
- Failed checkpoint writes other than a crash, and locks on the checkpoint file.
- The lock file itself (thread lock, flock and Windows locking are one lock per task), and directories in its place.
- Reading of checkpoint and authorization bytes; certification preflight, whose checks are one verdict.
- Regular expressions on ids, SHAs and tokens; the fields of RESULT evidence beyond their names; `parse_review_header`.
- Provider tokenizers, capacity ledgers, dispatch, context rendering, notifications, argument parsing and all Git subprocesses.
