# Verification of the drive assistant

A Dafny 4.11 model of the parts of the drive in which a mistake would lose a user's data or do
something that nobody approved, with proofs about them. `dafny verify dfyconfig.toml` checks
everything.

## What is modelled

**The assistant's workflow engine.** JSON values are a recursive datatype (`Json`), paths are
dotted strings with proved split/join laws (`Text`), and a skill is an arbitrary function from
the calls made so far and the present call to an answer or an exception (`Executor.Env`).
`References` resolves arguments and `*` fan-out, `Executor` runs plans, `Isolation` says who is
skipped, `Scenarios` which results and calls are possible over all skill functions, `Plans`
classifies, `Selection` and `Unrolling` unroll `each` steps, `TwoPhase` slices and renumbers the
reconnaissance, `Planner` is the static check with the repair loop against an arbitrary model, and
`Approval` is the service with its workflow table, over whole event sequences.

**Time Machine, trash and blob lifetime.** `Drive.Db` holds all rows of one user and the blob
store: items as a parent-pointer forest with a self-foreign-key, file versions, snapshots newest
first, blobs. `Drive.Inv` ties them together. The tables as the services update them are the
class `Store.Store`; its row removal and row write demand the foreign keys as preconditions, so
that every loop that removes or writes rows is proved to respect them. Each service method
(`DriveService`, `TrashService`, `SnapshotService`, `RestoreService`, `Sweep`) is proved against a
function on `Db`; the laws are about those functions. `Runs` lets any sequence of operations
happen, `Undo` says what later calls undo, `SnapshotRuns` what holds of the snapshots at any time,
`Surprises` shows short runs, and `Attachment` is the forest question of partial restores. `Gc`
splits uploads into blob and rows, and the sweep into fixing the clock, the three reference
queries and single deletions, and interleaves all of it; `GcTiming` says exactly which steps may
run when, and `GcAlone` that the steps taken alone are the whole calls.

**Chunked upload.** `Upload` is the session state machine over the same drive, with each chunk
request split into its checks, its stored blob and its recorded row; `UploadLaws` are its laws
over whole runs, `UploadSurprises` short runs, `UploadService` the service class with its loops.

**Names and archives.** `Names` has the conflict counters, `Siblings` the uniqueness of live
sibling names, `Archive` and `ArchiveRuns` the zip layout.

**What each call leaves behind.** The service methods are proved against functions on the tables.
`RestoreEffects`, `SelectionEffects`, `ChatEffects`, `SnapshotEffects`, `DriveEffects`,
`ExecutionEffects`, `PlannerEffects`, `UploadEffects`, `SweepEffects` and `ArchiveEffects` say, for
all inputs and without those functions' helpers, what the resulting rows, arguments, workflows and refusals are.

Item ids, session ids and storage keys are random UUIDs in the program; here a new one is one
that was not issued before (`Db.kinds` and `Db.owners` remember those issued).

## Where the code does not do what one would expect

Each point names the lemma that exhibits it and the one that says exactly when it happens.

- Rerunning a saved workflow has no confirmation step, whatever the tiers of its steps
  (`Approval.SavedThenRerun`, exactly when it stays read-only: `Approval.RerunReadOnly`).
- `restore` takes its safety snapshot through `create`, which prunes before the target's entries
  are read. When that deletes the target, an exact mirror trashes the whole drive
  (`Surprises.MirrorTrashesAll`; exactly when: `Restore.MirrorRoundTrip`,
  `Restore.SurvivalCondition`).
- Restored items can come back below one another in a circle (`Restore.SwappedFoldersCycle`;
  exactly when: `Restore.RestoreKeepsForest`).
- A read of a dropped read is still kept for reconnaissance and can then read another step's
  output (`TwoPhase.StaleKept`, `TwoPhase.StaleReferenceDiffers`; exactly when:
  `TwoPhase.ReplaysExactly`, `TwoPhase.AlwaysReplays`).
- A fanned-out step puts out `items` and `count` whatever its skill declares
  (`Planner.FannedSourceMisfits`; exactly which heads it has: `Planner.FannedOutputHeads`).
- The path check rejects `total` of a listing, which would resolve (`Planner.TotalIsRejected`;
  exactly what it passes: `Planner.HeadCheckIsExact`).
- `empty_trash` fails half-way when a top is listed after one it lies below
  (`Surprises.EmptyTrashFails`; exactly when: `TrashService.EmptyTrash`,
  `Trash.ContiguousMeansSeparateTops`). The request then rolls its rows back, but blobs are already
  deleted (exactly when one is missing: `TrashService.EmptyTrashRequest`,
  `TrashService.RolledBackBlobs`).
- The docstring of `run_scheduled_snapshot` promises no new snapshot of an unchanged drive; a live
  item in a trashed folder defeats that (`Surprises.UnchangedIsDue`; exactly when:
  `Sweep.UnchangedDrive`).
- `collect_garbage` called without `now` takes its cutoff too late: one tick is too much
  (`GcTiming.LateCutoff`, against `Gc.NoBlobIsLost`). An upload that commits one tick after its
  window, and a restore between the three reference queries, can name a blob that is gone
  (`GcTiming.LateCommit`, `GcTiming.RestoreDuringRead`; exactly when: `GcTiming.HarmlessExactly`).
- A capture can put two siblings of one name at the root (`Surprises.CaptureCollides`; exactly
  when: `Siblings.CaptureNames`), and so can a restore (exactly when: `Siblings.MirrorNames`,
  `Siblings.KeepNewNames`).
- Chunk sizes are not checked and simple uploads ignore reservations
  (`UploadSurprises.LargerChunkOversold`, `UploadLaws.SimpleUploadOversells`; by how much:
  `UploadLaws.CompletionAccounts`).
- A chunk still streaming when its session ends leaves its row and blob behind for good or revives
  the session (`UploadSurprises.LateChunkLeaked`, `UploadSurprises.LateChunkRevived`; exactly when:
  `UploadLaws.EndedSessionsHaveNoRows`, `UploadLaws.EndedSessionsHaveNoBlobs`), although
  `_discard_chunks` promises that chunks never outlive their session.

## Model

| member | source | states |
|---|---|---|
| `References.ResolvePath` | backend/app/assistant/workflow.py:230-239 | walking a dotted path through objects and lists gives the value of the path specification, or nothing when a hop fails |
| `References.ResolveChecked` | backend/app/assistant/workflow.py:242-264 | a path value is refused for a destination argument exactly when the object holding the leaf is known not to be a folder |
| `References.ResolveArguments` | backend/app/assistant/workflow.py:267-294 | all references resolve against earlier ok outputs, or the whole call has no arguments |
| `References.ResolveFanout` | backend/app/assistant/workflow.py:319-381 | the loop that resolves `*` arguments returns exactly the rows of the broadcast specification, and fails when it fails |
| `References.ElementIsSingle` | backend/app/assistant/workflow.py:355-378 | one element of a `*` list is the single reference with that index written in place of the `*`, destination check included |
| `References.FanoutRefinesSingle` | backend/app/assistant/workflow.py:297-381 | fan-out succeeds if and only if the shared arguments resolve, every `*` ranges over a list of one common length n, and for each i < n the plain resolver succeeds with `*` replaced by i; row i is then that result |
| `Executor.Execute` | backend/app/assistant/workflow.py:404-465 | the executor loop computes the run of the plan: one result per step, in order, with the skill calls made |
| `Isolation.FailureIsolation` | backend/app/assistant/workflow.py:384-465 | on a plan whose edges point back, a step is skipped if and only if a chain of `depends_on` edges or step references leads from it to a step that ran and failed |
| `Isolation.AttemptedFromOkResults` | backend/app/assistant/workflow.py:404-465 | every other step is attempted, all its edges lead to ok steps, and its references read the outputs of those steps |
| `ExecutionEffects.SourceIs` | backend/app/assistant/workflow.py:196-227 | a reference is an object with a source, `from` or else `from_step`; the text `selection` leads to the selection and an integer to a step |
| `ExecutionEffects.PathIs` | backend/app/assistant/workflow.py:230-239 | a path walks nowhere when empty, one field or (possibly negative) list index for a segment, and one part after the other where a dot joins two |
| `ExecutionEffects.ReferenceIs` | backend/app/assistant/workflow.py:242-294 | a reference reads the whole output without a path and else the value at the path; for a destination argument it is refused exactly when the object holding that value has a type other than folder |
| `ExecutionEffects.ArgumentsAre` | backend/app/assistant/workflow.py:267-294 | the arguments of a call are exactly the literals as they are and the referenced values of ok outputs, or there are none |
| `ExecutionEffects.FanoutReadyIs` | backend/app/assistant/workflow.py:319-365 | a call can be fanned out over n elements if and only if every argument with a `*` has an ok source and leads, before its first `*`, to a list of n elements, and every other reference resolves |
| `ExecutionEffects.IntegerIs` | backend/app/assistant/workflow.py:230-239 | a path part counts as list index if and only if, without white space around it, it is a sign or none and digits, single underscores between them; the index is the signed number |
| `ExecutionEffects.AttemptIs` | backend/app/assistant/workflow.py:431-456 | an attempted step makes one call, or one per row in order until one raises; its output is the answer, or the list of all answers with their number; arguments that do not resolve fail it without a call |
| `ExecutionEffects.StepIs` | backend/app/assistant/workflow.py:404-465 | in a run, a step with a dependency that is not ok is skipped without a call, and any other is attempted on the outputs of the ok steps before it |
| `Plans.ClassifySteps` | backend/app/assistant/permissions.py:9-41 | classification succeeds if and only if every skill is known and every dependency is strictly earlier, and then keeps the steps with their tier's approval flag |
| `Plans.ClassifiedPlan` | backend/app/assistant/permissions.py:9-41 | a classified plan with backward references is numbered and all its edges point strictly back |
| `Selection.ApplySelection` | backend/app/assistant/workflow.py:116-177 | the loop over steps and items builds exactly the unrolled plan of the specification, or fails with it |
| `Unrolling.SelectionUnrolling` | backend/app/assistant/workflow.py:98-177 | executing the unrolled plan makes the same skill calls and gives the flattened results of a direct interpreter that runs each `each` step once per item (a dependency needs all instances ok, a reference reads the first) |
| `Unrolling.UnrolledPlan` | backend/app/assistant/workflow.py:116-177 | the unrolled plan is numbered from 0, images of old steps are consecutive intervals keeping skill and approval, edges stay strictly backward and no selection reference is left |
| `Unrolling.UnrollingSucceeds` | backend/app/assistant/workflow.py:75-177 | unrolling succeeds if and only if every selection reference resolves for every selected item |
| `SelectionEffects.UnrolledIs` | backend/app/assistant/workflow.py:75-177 | step by step and argument by argument: an `each` step has one instance per item, in order, any other one; in instance i an `each` reference without a path is the id of item i and with one what the path gives of that item, a plain reference the same of the item it names or of the first, an unbound `item_id` of a skill that needs a selection the id of item i; a reference to an earlier step leads to its first instance, a dependency to all, and every other argument stays |
| `SelectionEffects.FailsExactly` | backend/app/assistant/workflow.py:75-95 | with something selected, unrolling fails if and only if in some instance a selection reference chooses nothing: its `item` is no number or out of range, or the item lacks the id or the path |
| `TwoPhase.ReconIndices` | backend/app/assistant/service.py:446-456 | reconnaissance runs exactly the steps that need no approval and consume no output of one that does |
| `TwoPhase.RenumberKept` | backend/app/assistant/service.py:96-127 | the loop renumbers dependencies and references of the kept steps as the specification says |
| `ChatEffects.KeptAre` | backend/app/assistant/service.py:446-456 | kept are, in order, the steps that need no approval and have no argument naming as its source a step that does |
| `ChatEffects.RenumberedIs` | backend/app/assistant/service.py:96-127 | a kept step keeps its skill and arguments, but a reference to a kept step names that step's new position, and its dependencies are those on kept steps, moved along |
| `TwoPhase.SlicingIsSimulation` | backend/app/assistant/service.py:96-139 | when no kept step holds a stale reference (one to a dropped step whose number renumbering leaves and that then names an earlier kept step), the renumbered plan makes the same calls and gets the same results as the reconnaissance, up to relabelling |
| `TwoPhase.ReplaysExactly` | backend/app/assistant/service.py:96-139 | for given skill functions the renumbered plan replays the reconnaissance, step by step, if and only if every step with a stale reference was blocked in the reconnaissance, or is not blocked in the replay and its arguments do not resolve on the outputs there |
| `TwoPhase.AlwaysReplays` | backend/app/assistant/service.py:446-479 | over all skill functions: it always replays if and only if no possible reconnaissance (a scenario, said without skill functions) meets a stale reference for which that fails |
| `TwoPhase.ReplaysWithoutStale` | backend/app/assistant/service.py:96-139 | when steps with a stale reference wait for no kept step, it replays for all skill functions if and only if there is no stale reference |
| `TwoPhase.StaleBreaks` | backend/app/assistant/service.py:446-479 | with skills that all fail, such a step fails in the reconnaissance and is skipped in the replay |
| `TwoPhase.RenumberedBackward` | backend/app/assistant/service.py:96-139 | renumbered kept steps that reference kept steps only still point strictly back, so that a follow-up can be validated against them |
| `TwoPhase.StaleKept` | backend/app/assistant/service.py:446-451 | a plan in which a read of a dropped read is kept, because the check looks one reference deep |
| `TwoPhase.StaleShapeExists` | backend/app/assistant/service.py:446-451 | such a plan and catalog exist |
| `TwoPhase.StaleReferenceDiffers` | backend/app/assistant/service.py:446-479 | for that plan the renumbered steps do not replay the reconnaissance: a failed step reads another step's output and succeeds |
| `Scenarios.ScenariosAreRuns` | backend/app/assistant/workflow.py:404-465 | the result lists described step by step from blocking, resolvable arguments and fan-out sizes are exactly the results of runs: every one is produced by some skill function, and no run has another |
| `Scenarios.CallsExactly` | backend/app/assistant/workflow.py:404-465 | over all skill functions, a plan calls only skills of a given set if and only if every step that can come to call (some scenario leaves it unblocked with at least one argument set) has its skill in the set |
| `Planner.ValidatePlan` | backend/app/assistant/planner.py:399-481 | exactly the problems that the new steps have are reported; none are if and only if all of them are valid |
| `Planner.ValidStepIs` | backend/app/assistant/planner.py:399-481 | a step is valid if and only if its skill is known, it depends on earlier steps only, every required argument is there, and every argument is a literal without byte tokens or a reference to a selection or to an earlier step whose path head suits that step's declared output |
| `PlannerEffects.CorruptedIs` | backend/app/assistant/planner.py:237-241 | rejected as corrupted are exactly the texts that hold `<0x`, two hexadecimal digits and `>` somewhere |
| `PlannerEffects.HeadIs` | backend/app/assistant/planner.py:309-312 | the head of a path is its first segment that is not empty |
| `PlannerEffects.ListHeadIs` | backend/app/assistant/planner.py:354-360 | for a list the heads `*` and every numeral pass, and whatever else passes reads as an index that is not negative |
| `Planner.ValidationSuffices` | backend/app/assistant/planner.py:315-481 | no problems means that classification cannot fail and that every edge of the old and new steps together points strictly back |
| `Planner.HeadCheckIsExact` | backend/app/assistant/planner.py:309-373 | the head check passes an item's head if and only if some output of the shape can be entered there, and a paged listing's if and only if every listing has a list there |
| `Planner.TotalIsRejected` | backend/app/assistant/planner.py:347-353 | besides `items`, `total` is the one head at which every listing can be entered, and it is rejected |
| `Planner.AcceptedHeadFits` | backend/app/assistant/planner.py:309-373 | a path head the check accepts is one an output of the declared shape supports: the list of a listing, an element or all of a list, and for an item, if and only if accepted, a name under which the output keeps its shape whatever field it holds there |
| `Planner.RejectedItemPathFails` | backend/app/assistant/planner.py:315-373 | a path rejected for a single-item output could not have resolved |
| `Planner.ValidatedReferencesFit` | backend/app/assistant/planner.py:399-481 | in every run of a validated plan with conforming skills, a reference into a source that is not fanned out enters its output at a fitting head |
| `Planner.FannedOutputHeads` | backend/app/assistant/workflow.py:436-446 | the output of a fanned-out step can be entered exactly through `items` and `count` |
| `Planner.FannedSourceMisfits` | backend/app/assistant/workflow.py:436-446 | so a path that the check accepts for an item-shaped skill does not resolve once that skill is fanned out |
| `Planner.Plan` | backend/app/assistant/planner.py:514-620 | for an arbitrary model: answer i is what the model says to the framing followed by each earlier answer and the report on it; each report is not empty and names exactly the problems of its answer; at most max(0, max_repair) + 1 calls; the steps are those of the last answer if it is valid, else there are none |
| `Approval.WorkflowService.Chat` | backend/app/assistant/service.py:283-393 | a chat turn leaves the tables and the call log as the turn specification says |
| `ChatEffects.ChatLeaves` | backend/app/assistant/service.py:283-393 | a turn whose final plan has a step that needs approval adds exactly the new id, pending, with these steps, and calls nothing beyond reconnaissance; any other final plan runs at once, with at most one replan after a failure, and nothing is stored; without a final plan nothing happens beyond reconnaissance |
| `ChatEffects.FollowupIs` | backend/app/assistant/service.py:395-479 | reconnaissance happens only for a plan that asks for it and does not work on selected files; it runs the kept reads and nothing else; the plan goes on as it was, or as the renumbered kept reads followed by the follow-up |
| `ChatEffects.FinalIs` | backend/app/assistant/service.py:318-372 | the final plan is the classified one, unrolled when a step needs the selection; there is none if it cannot be classified, nothing is selected, or unrolling fails |
| `ChatEffects.WorkflowsComeFrom` | backend/app/assistant/service.py:283-581 | over all runs, every saved workflow comes from a save event with its id and its classified steps, and every other one from a chat turn with its id whose final plan are its steps, one of which needs approval |
| `Approval.WorkflowService.Confirm` | backend/app/assistant/service.py:535-564 | confirming runs the stored steps of a pending workflow and marks it executed; anything else changes nothing |
| `Approval.WorkflowService.Cancel` | backend/app/assistant/service.py:624-638 | cancelling marks a pending workflow cancelled; anything else changes nothing |
| `Approval.WorkflowService.SaveWorkflow` | backend/app/assistant/service.py:566-581 | a plan that classifies is stored as a saved workflow; any other is refused |
| `Approval.WorkflowService.RerunWorkflow` | backend/app/assistant/service.py:586-622 | a rerun classifies the stored steps of a saved workflow again and runs them at once, whatever their tiers; anything else changes nothing |
| `Approval.ApprovalGate` | backend/app/assistant/service.py:283-638 | over all runs and for arbitrary model replies, planning (fast path, reconnaissance, replan) only called read-tier skills, each confirmation ran the stored steps of its workflow, at most once, each rerun ran the stored steps of a saved workflow, and nothing else was called |
| `Approval.OnlyApprovedOrSaved` | backend/app/assistant/service.py:283-638 | starting with no workflows, every call of a skill that is not read-tier was made by confirming a workflow that shows the skill or by rerunning a saved one that holds it |
| `Approval.RerunReadOnly` | backend/app/assistant/service.py:586-622 | over all skill functions a rerun makes read-tier calls only if and only if every saved step that can come to call is read-tier |
| `Approval.RerunOfLiterals` | backend/app/assistant/service.py:586-622 | for saved steps that hold literals only this is exactly when none of them would need approval in a chat |
| `Approval.SavedThenRerun` | backend/app/assistant/service.py:586-622 | saving one step of any tier and rerunning it calls the skill, and the log holds no confirmation |
| `Approval.CancelledNeverRuns` | backend/app/assistant/service.py:624-638 | a workflow that is cancelled at some point of a run is never executed by a confirmation |
| `Approval.ShownIsExecuted` | backend/app/assistant/service.py:535-564 | what is shown for approval is exactly what a later confirmation executes |
| `ChatEffects.Answered` | backend/app/assistant/service.py:283-638 | a turn under a new id whose final plan needs approval: confirming it next runs just that plan, after the reconnaissance; cancelling it runs nothing, also when it is confirmed afterwards |
| `ChatEffects.Decided` | backend/app/assistant/service.py:535-564 | in any run, a pending workflow that is cancelled never runs, and one that is confirmed has its stored steps run right then |
| `DriveService.IsDescendantOrSelf` | backend/app/drive/service.py:112-126 | the upward walk terminates on any pointers, cyclic ones included, and decides exactly whether the target is the candidate or lies below it |
| `DriveService.CreateFolder` | backend/app/drive/service.py:253-277 | tables and error after the call are those of the operation; a failed call changes nothing |
| `DriveService.Rename` | backend/app/drive/service.py:279-296 | tables and error after the call; renaming to the same name succeeds without a conflict check |
| `DriveService.Move` | backend/app/drive/service.py:298-326 | tables and error after the call, the descendant check included |
| `DriveService.UploadSimple` | backend/app/upload/service.py:82-165 | the blob is written before the rows and removed again when they cannot be written; the name is the least free one; the declared size is what the quota is checked against |
| `DriveEffects.CreateFolderIs` | backend/app/drive/service.py:253-277 | it fails for a bad name, a place that is no live folder, or a taken name, in this order, and otherwise adds one folder and changes nothing else |
| `DriveEffects.RenameIs` | backend/app/drive/service.py:279-296 | after a successful rename the item has the trimmed name and nothing else changed; its own name is never a conflict |
| `DriveEffects.MoveIs` | backend/app/drive/service.py:298-326 | after a successful move the item has the asked parent and nothing else changed; it fails, in this order, without the item, without the place, into itself or below, or onto a taken name |
| `DriveEffects.UploadIs` | backend/app/upload/service.py:82-165 | a successful upload adds the blob, a live file in the asked place under its name or with the least free counter, one version, and its bytes; nothing else changes |
| `DriveEffects.NameIs` | backend/app/drive/service.py:23-31 | a name is accepted if and only if its trimmed form has 1 to 512 characters, none a separator or NUL; the trimmed form is stored |
| `DriveEffects.StripIs` | backend/app/drive/service.py:24 | trimming removes white space from both ends, and all of it |
| `Undo.MovedBack` | backend/app/drive/service.py:298-326 | moving an item and moving it back leaves the drive as it was if and only if it had not moved at all, or its old place is the root or a live folder and holds no live namesake |
| `Undo.RenamedBack` | backend/app/drive/service.py:279-296 | renaming an item and renaming it back leaves the drive as it was if and only if the name had not changed, or the old name is one that can be given and no live sibling has it |
| `Drive.MoveInv` | backend/app/drive/service.py:298-326 | moving keeps the drive a forest and every other part of the invariant |
| `Drive.CreateFolderInv` | backend/app/drive/service.py:253-277 | so does creating a folder |
| `Drive.RestoreItemInv` | backend/app/trash/service.py:83-117 | so does bringing an item back from the trash, also when it falls back to the root |
| `Drive.CommitUploadInv` | backend/app/upload/service.py:112-160 | committing the rows of a written blob keeps the invariant, `used_bytes` included |
| `Drive.InvHasBlobs` | backend/app/snapshot/repository.py:316-325 | under the invariant no storage key that a row names has lost its blob |
| `Forest.MoveBelowIsCyclic` | backend/app/drive/service.py:312-316 | without the descendant check moving a folder below itself closes a cycle |
| `Names.PigeonholeCounter` | backend/app/upload/service.py:106-111 | n consecutive taken counter names need n taken siblings: the counter loop ends |
| `Names.FreeNameUnique` | backend/app/upload/service.py:106-111 | the outcome of the conflict loop is unique: the wanted name if free, else the least free counter |
| `Names.ResolveConflict` | backend/app/upload/service.py:106-111 | the loop terminates and returns that name |
| `TrashService.GetChildrenRecursive` | backend/app/trash/repository.py:86-96 | on a forest the level-by-level search terminates and lists every proper descendant once, each after its parent |
| `TrashService.TrashItem` | backend/app/trash/service.py:56-67 | soft delete marks one live item and nothing below it |
| `TrashService.RestoreItem` | backend/app/trash/service.py:83-117 | tables and error after bringing an item back, fallback to the root and conflict counter included |
| `DriveEffects.RestoreItemIs` | backend/app/trash/service.py:83-117 | an item comes back live with its content, into its old place if that is live and else to the root, under its name or with the least free counter; nothing else changes |
| `Undo.TrashedBack` | backend/app/trash/service.py:56-117 | trashing a live item and bringing it back leaves the drive as it was if and only if its parent is live or the root and no live namesake is beside it |
| `TrashService.DeleteFileVersions` | backend/app/trash/service.py:119-136 | the version rows of one file go; their total size and storage keys are returned |
| `TrashService.ReclaimBlobs` | backend/app/trash/service.py:138-149 | exactly the candidate blobs that no snapshot entry names are deleted |
| `TrashService.PermanentDelete` | backend/app/trash/service.py:151-197 | the whole subtree goes deepest first and no removal leaves a dangling parent; tables and error after the call; the invariant is kept |
| `TrashService.EmptyTrash` | backend/app/trash/service.py:199-207 | in whatever order the tops are listed, emptying succeeds if and only if no top is listed after one it lies below, and then everything trashed or below something trashed is gone; otherwise it stops at the first such top with exactly the tops before it deleted |
| `TrashService.EmptyTrashRequest` | backend/app/trash/router.py:98-109 | around it: a failure rolls the rows back, while the blobs of the tops deleted so far stay deleted |
| `TrashService.RolledBackBlobs` | backend/app/trash/service.py:138-149 | after such a rollback every named key has its blob if and only if no deleted version had a key that no snapshot holds |
| `Trash.PermanentDeleteInv` | backend/app/trash/service.py:151-197 | permanent deletion removes exactly the item and what is below it, gives back exactly the bytes of their versions, and keeps the invariant |
| `DriveEffects.PermanentDeleteIs` | backend/app/trash/service.py:151-197 | gone are exactly the item and what lies below it, the versions of those files, and the blobs that only these versions and no snapshot named; used bytes drop by the sizes of these versions; nothing else changes |
| `Undo.UploadErased` | backend/app/trash/service.py:151-197 | a file that is uploaded, trashed and erased leaves everything as it was, bytes and blobs included; only its id and key are used up |
| `Undo.FolderErased` | backend/app/trash/service.py:151-197 | so does a folder that is created, trashed and erased |
| `Trash.PurgeInv` | backend/app/users/repository.py:104-113 | the freed bytes never exceed `used_bytes`, so the clamp at zero never acts |
| `Trash.TopsCoverTrash` | backend/app/trash/service.py:199-207 | the subtrees of the directly trashed tops are everything under the trash |
| `Trash.ContiguousMeansSeparateTops` | backend/app/trash/service.py:202-207 | no top lies below another one if and only if every trashed item with a trashed ancestor has a trashed parent |
| `SnapshotService.CaptureEntries` | backend/app/snapshot/service.py:118-142 | a capture has one entry per live item, with a parent that is not captured replaced by the root |
| `SnapshotEffects.CaptureIs` | backend/app/snapshot/service.py:118-142 | a capture holds exactly the live items, with name, kind and content, at their place or at the root when that place is not live |
| `Snapshots.CaptureForest` | backend/app/snapshot/service.py:118-142 | the entries of a capture are a forest of their own |
| `SnapshotService.UsedSnapshotBytes` | backend/app/snapshot/repository.py:301-314 | usage counts one size per distinct checksum, the largest one |
| `SnapshotEffects.UsageIs` | backend/app/snapshot/repository.py:301-314 | usage is the sum, over the different checksums that occur, of a size that some entry with that checksum has and none exceeds |
| `SnapshotEffects.SizesAreUnique` | backend/app/snapshot/repository.py:301-314 | there is only one such choice of sizes |
| `SnapshotEffects.UsageOfOne` | backend/app/snapshot/repository.py:301-314 | one snapshot whose files differ in content costs the bytes of its files' blobs |
| `SnapshotService.PruneSnapshots` | backend/app/snapshot/service.py:218-255 | both passes together leave exactly the pruned list and report how many went |
| `SnapshotEffects.PruneExactly` | backend/app/snapshot/service.py:218-255 | pruning keeps the newest snapshot, pinned and safety snapshots, and any other if and only if it is among the newest N and, under a quota, its content with that of all newer and all exempt ones fits it |
| `SnapshotEffects.PruneInOrder` | backend/app/snapshot/service.py:218-255 | what is kept stays in order |
| `SnapshotService.Create` | backend/app/snapshot/service.py:103-153 | a capture is added as the newest snapshot and pruning follows; the invariant is kept |
| `SnapshotService.ApplySettings` | backend/app/snapshot/service.py:192-214 | settings are clamped, stored and enforced at once |
| `SnapshotEffects.SettingsAre` | backend/app/snapshot/service.py:192-214 | retention is stored as asked but at least 1, the quota as asked but not negative, or none; the list is pruned with the quota in force, and nothing else changes |
| `Snapshots.RetainedMembers` | backend/app/snapshot/service.py:233-240 | a snapshot survives the retention pass if and only if its position is below N or it is exempt |
| `Snapshots.PruneCuts` | backend/app/snapshot/service.py:244-253 | the quota pass removes an oldest-first run, each member while usage exceeded the quota |
| `Snapshots.PruneSurvivors` | backend/app/snapshot/service.py:218-255 | the newest and every exempt snapshot survive and nothing is invented |
| `Snapshots.PruneMeetsQuota` | backend/app/snapshot/service.py:242-253 | afterwards usage fits, or the quota is off, or only the newest and exempt snapshots are left |
| `Snapshots.PruneIdempotent` | backend/app/snapshot/service.py:218-255 | a second prune deletes nothing |
| `SnapshotRuns.AlwaysWithin` | backend/app/snapshot/service.py:218-255 | after every run, behind the newest N snapshots there are only pinned and safety ones, and usage fits the quota in force, or the quota is off, or all but the newest are pinned or safety snapshots |
| `SnapshotRuns.SettingsInForce` | backend/app/snapshot/service.py:192-214 | in force after a run are the clamped settings of its last change, and without one those from before |
| `RestoreService.ExpandWithDescendants` | backend/app/snapshot/service.py:440-454 | terminates on any entries and returns exactly those reachable from the selection |
| `RestoreService.ParentsFirst` | backend/app/snapshot/service.py:472-485 | terminates on any entries, cyclic ones included, and returns a permutation; on acyclic entries each parent comes before its children |
| `RestoreService.WriteRows` | backend/app/snapshot/service.py:395-408 | the upsert loop: at each write the parent is the root or already a row (the precondition of the row write), and the rows are those of the specification |
| `RestoreService.RestoreFrom` | backend/app/snapshot/service.py:357-437 | the tables after a restore: safety snapshot and its pruning, then the rows, then the mirror pass |
| `RestoreEffects.RowsAfter` | backend/app/snapshot/service.py:391-420 | whole or in part, each entry that is reached has a live row with its name and content, at its parent or at the root when that parent is neither reached nor a row; every other item keeps all its fields but the trash mark, and is trashed afterwards if and only if it was, or the restore is exact, the snapshot does not know it and, for a part, its parent is reached |
| `RestoreEffects.RestoreLeaves` | backend/app/snapshot/service.py:357-437 | a restore adds the safety snapshot with its pruning and changes rows only; the entries that come back are those of the target if pruning left it, else none |
| `RestoreEffects.OutsideStays` | backend/app/snapshot/service.py:416-420 | restoring one folder as an exact mirror leaves a file uploaded to the root alone |
| `Attachment.LaidIsForest` | backend/app/snapshot/service.py:395-408 | acyclic pointers laid over a forest give a forest if and only if no entries are attached below one another in a circle |
| `Restore.RestoreKeepsForest` | backend/app/snapshot/service.py:391-408 | restoring any selection keeps the drive a forest if and only if the restored entries do not come back below one another in a circle: each attached to a row that now lies below one which the snapshot places at or below the next |
| `Restore.SwappedFoldersCycle` | backend/app/snapshot/service.py:403-406 | two folders swapped since the snapshot: restoring the inner one alone closes a cycle |
| `Restore.RestoreInv` | backend/app/snapshot/service.py:357-437 | a whole restore, and a partial one without such a circle, keeps forest, foreign keys, blobs and quota |
| `Restore.MirrorRoundTrip` | backend/app/snapshot/service.py:357-437 | an exact mirror brings the drive back to the snapshot if and only if the snapshot survives the pruning of the restore's own safety snapshot (or was empty); if it does not survive, everything live is trashed |
| `Restore.KeepNewRoundTrip` | backend/app/snapshot/service.py:357-437 | with `keep_new`, and a snapshot that survives the restore's own pruning, the drive contains the snapshot and later items are untouched |
| `Restore.SurvivalCondition` | backend/app/snapshot/service.py:229-255 | a snapshot survives the restore's own safety snapshot if and only if it is pinned or a safety snapshot itself, or one more snapshot leaves it in the retention window and, unless the quota is off, its content with that of the safety snapshot, all newer and all exempt snapshots fits the quota |
| `Restore.QuotaKeeps` | backend/app/snapshot/service.py:244-253 | for a positive quota, an ordinary snapshot survives pruning if and only if it is inside the window and its content with that of all newer and all exempt snapshots fits the quota |
| `Sweep.ChangeDetection` | backend/app/snapshot/service.py:46-69 | the change detection calls a drive equal to its own capture if and only if no live item sits in a trashed folder |
| `Sweep.UnchangedDrive` | backend/app/snapshot/service.py:271-304 | so an unchanged drive gets another scheduled snapshot in the next period exactly when some live item sits in a trashed folder |
| `Sweep.RunScheduledSnapshot` | backend/app/snapshot/service.py:259-304 | a snapshot is created if and only if it is due |
| `SweepEffects.DueIs` | backend/app/snapshot/service.py:271-304 | it is due if and only if the schedule is on, none was taken in the period, there is a live item, and the live items differ from the newest entries in place, name, kind or content |
| `Sweep.CollectGarbage` | backend/app/snapshot/service.py:308-344 | one sweep deletes exactly the unreferenced blobs older than the cutoff; the three reported numbers are their count, their bytes, and the unreferenced blobs still inside the window |
| `SweepEffects.SweepIs` | backend/app/snapshot/service.py:308-344 | deleted are the blobs older than the cutoff that no item, version or snapshot entry names, spared the younger unnamed ones |
| `Sweep.ReclaimableIsFreed` | backend/app/snapshot/repository.py:262-299 | deleting a snapshot and sweeping frees its reported bytes more than sweeping alone, less its sole blobs inside the grace window: exactly the reported bytes if and only if those have no bytes |
| `Sweep.SoleSizes` | backend/app/snapshot/repository.py:266-299 | the largest entry size per sole key is the blob's size |
| `Keys.StepKeys` | backend/app/snapshot/repository.py:183-216 | no operation but an upload makes a key referenced that was not, and only a Time Machine restore gives items a key no item had |
| `Keys.StepKeepsExempt` | backend/app/snapshot/service.py:218-255 | no operation loses a key that a pinned or safety snapshot holds |
| `Keys.StepKeepsVersions` | backend/app/trash/service.py:119-197 | a version goes only together with its file: a key that an item still names keeps its version |
| `Gc.EventKeeps` | backend/app/snapshot/scheduler.py:54-63 | every well-timed step of uploads, drive operations and garbage collection keeps the protocol's invariant: while references are read, every old key of an item is read already, held by an exempt snapshot or, before the version query, named by a version |
| `Gc.NoBlobIsLost` | backend/app/snapshot/service.py:308-344 | in every interleaving of well-timed steps every storage key of an item, version or snapshot entry has its blob |
| `GcAlone.SweepUndisturbed` | backend/app/snapshot/service.py:308-344 | the interleaved steps of a sweep, taken with nothing in between and with the deletions in any order, are possible and delete just what one `collect_garbage` call deletes |
| `GcAlone.OnlyOrphansGo` | backend/app/snapshot/service.py:327-342 | after undisturbed reads a blob can be deleted if and only if that call would delete it |
| `GcAlone.UploadUndisturbed` | backend/app/upload/service.py:82-165 | the steps of a successful upload, blob and then rows, are the whole upload when nothing comes in between |
| `GcAlone.UploadFails` | backend/app/upload/service.py:127-160 | and blob and compensation leave only a key used up |
| `GcTiming.HarmlessExactly` | backend/app/snapshot/repository.py:316-325 | the timing is exact: in every state of the protocol, a step that can happen loses no blob in any well-timed continuation if and only if it is well-timed: an upload commits while its blob is there and, once the versions are read, not old and unread; a restore between the reference queries puts back only old keys that are read already, held by an exempt snapshot or, before the version query, named by a version; everything else always |
| `GcTiming.SimpleRules` | backend/app/snapshot/scheduler.py:54-63 | committing within the grace window and not restoring between the queries is well-timed |
| `GcTiming.ExemptRestoreIsTimed` | backend/app/snapshot/service.py:357-437 | restoring a pinned or safety snapshot is well-timed at any moment |
| `Gc.NeverReferencedAgain` | backend/app/snapshot/service.py:327-342 | while a sweep lasts, a key that was old and unread when it started never becomes referenced again |
| `GcTiming.LateCutoff` | backend/app/snapshot/service.py:327-328 | a cutoff one tick after the moment the reads began (no `now` passed) already dooms a blob that a row names; with the cutoff at that moment none is ever lost |
| `GcTiming.LateCommit` | backend/app/upload/service.py:127-160 | a reached state in which an upload commits one tick after its window and names a blob that a sweep has deleted |
| `GcTiming.RestoreDuringRead` | backend/app/snapshot/repository.py:316-325 | from a state that a well-timed run reaches, a restore between the three reference queries, followed by pruning, makes the sweep delete the blob of a live file |
| `Runs.StepInv` | backend/app/snapshot/service.py:357-437 | every drive, trash and Time Machine operation keeps the invariant |
| `Runs.ReachableStates` | backend/app/trash/service.py:151-197 | in every state reachable from an empty drive: forest, foreign keys, a blob for every named key, `used_bytes` equal to the sum of the version sizes, and no deletion that reaches the clamp |
| `Runs.TimeTravel` | backend/app/snapshot/service.py:103-153 | after any run, a capture, and any further run, mirror-restoring that capture gives back its live items and capturing again gives the same entries, if it survives the prunings |
| `Runs.RunKeepsEntries` | backend/app/snapshot/repository.py:227-230 | no operation changes the entries of a snapshot that stays |
| `Siblings.StepKeepsNames` | backend/app/drive/repository.py:168-187 | every operation but a Time Machine restore keeps live sibling names different |
| `Siblings.RunKeepsNames` | backend/app/drive/repository.py:168-187 | so live siblings differ in every run without one |
| `Siblings.MirrorNames` | backend/app/snapshot/service.py:397-437 | after a whole mirror restore sibling names differ if and only if they do in the snapshot |
| `Siblings.KeepNewNames` | backend/app/snapshot/service.py:395-408 | with `keep_new`, if and only if they do in the snapshot and no kept item has the place and name of a restored one |
| `Siblings.CaptureNames` | backend/app/snapshot/service.py:119-124 | sibling names of a capture differ if and only if no two live items at the root or in a folder that is not live share a name |
| `Surprises.CaptureCollides` | backend/app/snapshot/service.py:119-124 | after making a folder, uploading a file into it, trashing the folder and uploading a second file of that name to the root, live sibling names differ, but the capture holds two root siblings of one name |
| `Surprises.UnchangedIsDue` | backend/app/snapshot/service.py:271-304 | a run that leaves one live file in a trashed folder: right after a snapshot the next period is due for another one, with no change in between |
| `Surprises.EmptyTrashFails` | backend/app/trash/service.py:199-207 | a trashed file below a live folder in a trashed folder: both trashed items are tops, deleting the folder first makes deleting the file fail, and after the rollback the file's row names a blob that is gone |
| `Surprises.MirrorTrashesAll` | backend/app/snapshot/service.py:357-437 | one snapshot kept, one folder, one snapshot: restoring it as an exact mirror trashes the folder, although the drive is exactly what was captured |
| `Upload.CeilDivIs` | backend/app/upload/session_service.py:116-117 | the ceiling division gives the least number of chunks that hold the file, 0 for an empty one |
| `Upload.UploadIsThreeSteps` | backend/app/upload/session_service.py:136-171 | a chunk request that nothing interrupts is its checks, its stored blob and its recorded row in a row |
| `UploadEffects.CreateSessionIs` | backend/app/upload/session_service.py:86-129 | refusals in order: bad name, too large, no such place, and no room beside what is used and promised; else one pending session with the least number of chunks is added and nothing else changes |
| `UploadEffects.UploadChunkIs` | backend/app/upload/session_service.py:136-171 | an active session and an index in range are needed; the chunk's bytes and their number are stored and the session is uploading |
| `UploadEffects.CompleteIs` | backend/app/upload/session_service.py:173-215 | completion is refused without an active session, with the number of chunks that have no row, or when a chunk's blob has gone; else the joined chunks become a live file in the session's place under its name or with the least free counter, their rows and blobs go, the session is completed, and nothing else changes |
| `UploadEffects.CleanUpIs` | backend/app/upload/session_service.py:228-234 | exactly the active sessions that expired go, with the rows of their chunks and the blobs of those rows |
| `Upload.EventKeeps` | backend/app/upload/session_service.py:86-234 | opening, completing, cancelling, cleaning up, the separate steps of chunk requests in any interleaving, and drive operations (a deleted folder clears the session's target) keep: sessions have their least chunk count and an existing folder or the root as target, rows and requests are within it, merged contents have their blob's size, and the drive invariant |
| `Upload.DiscardKeeps` | backend/app/upload/session_service.py:285-292 | ending a session removes its chunk rows and the blobs they list, and keeps that invariant |
| `UploadLaws.EndedSessionsHaveNoRows` | backend/app/upload/session_service.py:136-234 | in every run from an empty drive, with chunk requests streaming across everything else: no session that ended or was cleaned up ever has a chunk row or comes back, if and only if every row is recorded while its session is active or gone |
| `UploadLaws.EndedSessionsHaveNoBlobs` | backend/app/upload/session_service.py:136-234 | and no temporary blob is ever left behind by an ended session, if and only if no stream ends after its session and no session ends while one of its chunks is stored but not recorded |
| `UploadLaws.SlicesJoin` | backend/app/storage/local.py:85-119 | slices joined in index order are the file as far as they reach |
| `UploadLaws.Reassembles` | backend/app/upload/session_service.py:136-215 | slices streamed in any order, overlapping, with any retries and anything in between: a successful completion stores exactly the file, creates its item and charges its size |
| `UploadLaws.CompletesExactly` | backend/app/upload/session_service.py:173-197 | completion succeeds if and only if the session is active and every index is recorded and stored; while rows are recorded on time, if and only if it is active and every index is recorded; a refusal changes nothing |
| `UploadLaws.BackedRun` | backend/app/upload/session_service.py:136-234 | while rows are recorded on time every recorded chunk has its blob |
| `UploadLaws.FolderDeletedMovesToRoot` | backend/app/models/upload_session.py:31-35 | when the target folder of a session is deleted for good the session uploads to the root |
| `UploadLaws.AllSentCompletes` | backend/app/upload/session_service.py:136-215 | when every index was recorded at least once and nothing ended the session, completion succeeds, also when its folder was deleted meanwhile |
| `UploadLaws.JustOpened` | backend/app/upload/session_service.py:86-129 | a session just opened is open with nothing sent, as that law demands |
| `UploadLaws.CompletionAccounts` | backend/app/upload/session_service.py:109-118 | completion changes used plus promised bytes by exactly stored minus declared size |
| `UploadLaws.QuotaNeverOversold` | backend/app/upload/session_repository.py:203-215 | with truthful clients, chunked uploads only and rows recorded on time, used plus promised bytes never exceed the quota in any interleaving |
| `UploadLaws.SlicesAreHonest` | backend/app/upload/session_service.py:116-117 | a client that sends the slices of the file it opened the session for is truthful |
| `UploadLaws.SimpleUploadOversells` | backend/app/upload/service.py:104 | a simple upload ignores promises: it keeps them if and only if there was room for both |
| `UploadLaws.LargerChunkOversells` | backend/app/upload/session_service.py:157-169 | a session of one declared byte for which two bytes are sent is completed and ends above the one-byte quota |
| `UploadLaws.LateChunkLeaks` | backend/app/upload/session_service.py:157-171 | a session cancelled between a chunk's blob and its row leaves both behind after every further run: no second cancel, clean-up or other call removes them |
| `UploadLaws.LeftBehindForever` | backend/app/upload/session_service.py:217-234 | a row and blob of a cancelled session without a request under way stay in every run |
| `UploadLaws.LateChunkRevives` | backend/app/upload/session_service.py:170-171 | if the session was first seen pending it even becomes active again and reserves its bytes again |
| `UploadSurprises.LateChunkLeaked` | backend/app/upload/session_service.py:157-171 | a run from an empty desk after which a cancelled session's row and blob are left behind |
| `UploadSurprises.LateChunkRevived` | backend/app/upload/session_service.py:170-171 | a run from an empty desk in which a session is cancelled and then active again |
| `UploadSurprises.LargerChunkOversold` | backend/app/upload/session_service.py:157-169 | a run from an empty desk that ends above the quota |
| `UploadService.UploadSessions.SumActiveTotalSize` | backend/app/upload/session_repository.py:203-215 | the loop adds up the declared sizes of active sessions |
| `UploadService.UploadSessions.CreateSession` | backend/app/upload/session_service.py:86-129 | desk and refusal after opening a session |
| `UploadService.UploadSessions.BeginChunk` | backend/app/upload/session_service.py:136-148 | refusal of a chunk request, or what it has seen of the session |
| `UploadService.UploadSessions.RecordChunk` | backend/app/upload/session_service.py:159-171 | the row is written and a session first seen pending is marked uploading, whatever its status is by then |
| `UploadService.UploadSessions.UploadChunk` | backend/app/upload/session_service.py:136-171 | desk and refusal after an uninterrupted chunk; a retry overwrites |
| `UploadService.UploadSessions.ForgetFolders` | backend/app/models/upload_session.py:31-35 | the foreign key clears the target of sessions whose folder row has gone |
| `UploadService.UploadSessions.Concat` | backend/app/storage/local.py:85-119 | fails if and only if a source is missing; otherwise the buffered copy loop writes the sources one after the other and counts their bytes |
| `UploadService.UploadSessions.CompleteSession` | backend/app/upload/session_service.py:173-215 | desk and refusal after completion; when the rows of the item cannot be written the merged blob is removed again and the session stays as it was |
| `UploadService.UploadSessions.CancelSession` | backend/app/upload/session_service.py:217-226 | desk and refusal after cancelling; a cancelled session is left as it is |
| `UploadService.UploadSessions.CleanupExpired` | backend/app/upload/session_service.py:228-234 | exactly the active sessions past their retention go, with their chunks |
| `UploadService.AscendingIsIdentity` | backend/app/upload/session_repository.py:134-140 | the ascending rows of a complete session are the indexes 0, 1, ... in order |
| `Archive.CollectFolder` | backend/app/download/service.py:138-166 | the paged recursion terminates on a forest and appends exactly the folder's files |
| `Archive.Bundled` | backend/app/download/service.py:80-116 | errors and collected files of an archive call |
| `Archive.CollectsExactly` | backend/app/download/service.py:134-166 | a folder contributes exactly the stored blobs of the live files that hang below it along live folders, each under the path of names leading to it |
| `ArchiveEffects.ArchiveHolds` | backend/app/download/service.py:80-166 | an archive holds exactly the stored blobs of selected files and of live files below selected folders, each under its top name and the names that lead to it |
| `ArchiveEffects.TopNamesAre` | backend/app/download/service.py:118-132 | a selected item has its own name in the archive, or the least counter that no earlier one took |
| `Archive.TopNamesDiffer` | backend/app/download/service.py:118-132 | deduplicated top-level names are different and contain no separator |
| `Archive.NamesSeparate` | backend/app/download/service.py:158 | different slash-free names after one prefix share nothing below them |
| `Archive.ArchiveNamesDiffer` | backend/app/download/service.py:80-166 | for any selection, repetitions and nested folders included, no two entries of the archive have one name |
| `ArchiveRuns.StepKeepsClean` | backend/app/drive/service.py:23-31 | every operation, restores included, keeps separators out of item and entry names |
| `ArchiveRuns.ArchiveAfterRun` | backend/app/download/service.py:80-166 | after any run without a Time Machine restore both hold with no further hypothesis |

## Left out

- Approval.WorkflowService.RerunWorkflow: the history row that records a rerun is not modelled.
- Planner.Plan: the texts of framing and reports, the chat's history in the framing, and the trimming of long conversations belong to the arbitrary model.
- Planner.HeadCheckIsExact: two checks are stricter than a run: `total` of a listing and a negative index of a list would resolve and are rejected; for lists only the accepted direction is stated.
- Upload.CompleteSession: the session row read at the start is assumed unchanged until the end of the call; only chunk requests are interleaved step by step.
- Upload.LandChunk: a stream that breaks off stores nothing; the removal of half-written temporary files is not modelled.
- Siblings.StepKeepsNames: two uploads that pick a name at the same time are not interleaved; name choice and row creation are one step.
- Archive.ArchiveNamesDiffer: the database lists a folder in one fixed order for all pages, which its ordering by type and name gives when sibling names differ.
- UploadLaws.Reassembles: checksums are given by the caller, and a chunk's bytes arrive as one value.
- Approval.ShownIsExecuted: two confirmations of one workflow at the same moment are not interleaved; a service call is one step.
- Permissions, sharing and several users: there is one owner, so `permanent_delete` crediting all freed bytes to the caller is right here by assumption.
- Transactions, commits and rollbacks: a service call happens whole, except the chunk request, upload and garbage collection steps named above and the rollback around `empty_trash`.
- `TrashService` built without a snapshot reference checker deletes no blobs at all; only the variant with the checker is modelled.
- `name_exists_in_parent` raises when several siblings already have the name, which only a Time Machine restore can bring about (Surprises.CaptureCollides); here it answers that the name exists.
- Error texts, activity log, hooks, labels, timestamps other than blob age and the newest-first order of snapshots, starred, MIME type and extension fields.
- The order of a step's arguments: they are a map, so which of several failing arguments is reported first is open.
- Text conversions of floats, lists and objects used as list indices or folder names, non-ASCII digits and white space in `int()`, and its limit on very long numerals.
- A reference whose source is a list or object makes the two-phase check raise a TypeError; here it is no step reference.
- Language model calls, prompts, sandboxed skills, search, preview, email, authentication and the frontend.
- `recalculate_used_bytes`, which uses another definition of usage, and the clock-aligned period start, which enters as a parameter.
