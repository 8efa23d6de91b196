# OpenSandbox, verified

A Dafny model of the parts of OpenSandbox whose behaviour is hardest to see from the code:
the pool allocator, the pause and resume life of a sandbox, the process supervisor, the
mitmdump restart protocol, the rolling pool update, snapshot recovery, and the text and rule
algorithms of the egress proxy.

- **Allocator** (`AllocationStore`, `AllocationProtocol`, `AllocationHolding`, `AllocationRequests`). The
  in-memory store and its methods; the protocol between store, annotations, failing patches,
  crashes and recovery as a state machine; that no pod is withheld; the requests, how pods are dealt out, and why a
  scheduling round meets the preconditions of the protocol.
- **Pause and resume** (`Lifecycle`, `LifecycleProofs`, `LifecyclePause`, `LifecycleResume`,
  `LifecycleOutcomes`, `LifecycleController`, with `StatusConditions`, `PodFailures`, `QemuRestore`). One reconcile
  is a function of the cluster and of what the outside decides, in particular which of its
  writes fail. `LifecycleController` holds the reconciler as it runs, a class whose methods
  change the stored objects write by write, proved equal to that function; its `Reconcile`
  promises the main results about one reconcile outright.
- **Supervisor** (`BurstTracker`, `Supervisor`), **restart protocol** (`MitmRestart`),
  **pool update** (`PoolUpdate`), **snapshot recovery** (`SnapshotRecovery`), **egress**
  (`LiteralSubstitution`, `Redaction`, `EgressRules`).

Where the code does not keep what one would expect of it, the model keeps the code and states
exactly when it does:

- alloc-status never shrinks, so with a recycler that returns pods to the pool a released pod
  can be named by two sandboxes. A later release by its former owner, or a restart in the
  wrong listing order, then frees a pod in use. `ReusedPodIsOfferedTwice` and
  `ReusedPodRecoveryDependsOnOrder` show it; the `...SafeIff` lemmas and
  `RecoverSafeIffUserListedLast` give the exact conditions. The main theorem has four
  guards. An allocation list extends the sandbox's own list with pods nobody else uses or
  names; a round of the pool controller meets that (`RoundStaysLegal`) as long as no offered
  pod is still named by an alloc-status. A release list keeps what was released before and
  adds own pods (`RequestedReleaseIsLegalIff`). Orphans are freed while nobody uses them; a
  round meets that (`QueuedOrphansMayBeFreed`). A sandbox entering the pool has the pods it
  says it uses held for it and claimed by nobody else, which is true of every new one.
- A sandbox detached from its pool keeps its alloc-status. Bound to the pool again after its
  pods were freed, it says it uses pods that are offered to others (`StaleEntryLosesPod`);
  `EntrySafeIff` says exactly when an entry is safe.
- Because alloc-status never shrinks, a sandbox that released a pod and later gets another
  one takes the released pod back into the store, which withholds it again
  (`GrowingAgainWithholds`). So does a sandbox created under a name that still holds pods
  (`RecreationWithholds`). `NothingWithheldIff` says these are the only ways.
- A pause queued during a resume is lost exactly when the resume is given up, which includes
  the snapshot being gone already (`QueuedPauseLostIff`). A paused sandbox loses its
  snapshot exactly when an edit replays the pause (`PausedSnapshotDeletedIff`).
- An interrupted `completePause` reruns cleanly unless a pooled sandbox also has running pods
  of its own (`CompletePauseRerunsCleanlyIff`).
- A resume from a snapshot of a format the controller does not know neither goes on nor is
  given up: every reconcile leaves everything as it was (`ResumeRunsSnapshot`).
- A percentage that overflows 32 bits can leave a pool update without a budget for ever
  (`OverflowingPercentLeavesNoBudget`, `ProgressIffLimitPositive`), or with one far beyond
  its limit (`OverflowingPercentBreaksLimit`, `BudgetMeaning`, `LimitKeptIff`).
- Two overlapping `resumeSource` calls can lose the order between their containers
  (`OverlappingCallsLoseOrder`); `OrderKeptIff` says exactly which runs keep it.

Code and documentation disagree in one place: the comment on `ComparePodsForDeletion` says
that of two ready pods the one ready for a shorter time goes first, while the code lets the
one that became ready earlier go first. The model follows the code.

`dafny verify dfyconfig.toml` checks everything.

## Model

| member | source | states |
|---|---|---|
| `AllocationProtocol.LivePodsAreNeverOffered` | opensandbox_unified_bench/kubernetes/internal/controller/allocator.go:641-713 | in every reachable state after recovery (syncs that succeed or fail and roll back, releases, orphan releases, sandboxes coming, going and coming back, crashes, recoveries, in any interleaving) a pod named in alloc-status and not in alloc-released is held by that sandbox, named by no other one, and never offered again; the guards of allocation lists, release lists, orphan releases and entries are the ones named above |
| `AllocationProtocol.StartAndRecoverIsRun` | opensandbox_unified_bench/kubernetes/internal/controller/allocator.go:686-699 | there are such runs: starting and recovering any readable sandbox that uses a pod is one |
| `AllocationProtocol.InvHoldsAlongRun` | opensandbox_unified_bench/kubernetes/internal/controller/allocator.go:641-713 | the invariant behind it holds along every run |
| `AllocationProtocol.StepPreserves` | opensandbox_unified_bench/kubernetes/internal/controller/allocator.go:641-713 | every single step keeps the invariant |
| `AllocationProtocol.BeginPreserves` | opensandbox_unified_bench/kubernetes/internal/controller/allocator.go:641-653 | so does the store update that comes before the patch |
| `AllocationProtocol.CommitAllocationPreserves` | opensandbox_unified_bench/kubernetes/internal/controller/allocator.go:655-664 | so does an accepted allocation patch |
| `AllocationProtocol.RollbackPreserves` | opensandbox_unified_bench/kubernetes/internal/controller/allocator.go:655-664 | so does the rollback after a refused patch |
| `AllocationProtocol.CommitReleasePreserves` | opensandbox_unified_bench/kubernetes/internal/controller/allocator.go:669-684 | so does an accepted release patch, with the store still to follow |
| `AllocationProtocol.ApplyReleasePreserves` | opensandbox_unified_bench/kubernetes/internal/controller/allocator.go:669-684 | so does the store release after it |
| `AllocationProtocol.RecoverPreserves` | opensandbox_unified_bench/kubernetes/internal/controller/allocator.go:69-126 | so does a recovery from any listing of the pool |
| `AllocationProtocol.CreatePreserves` | opensandbox_unified_bench/kubernetes/internal/controller/allocator.go:69-126 | so does a sandbox entering the pool, new or with old lists whose pods in use are held for it and unclaimed by others |
| `AllocationProtocol.EntrySafeIff` | opensandbox_unified_bench/kubernetes/internal/controller/allocator.go:69-126 | a sandbox entering with whatever lists keeps the promise if and only if the store holds for it every pod they say it uses |
| `AllocationProtocol.AvailableIsFree` | opensandbox_unified_bench/kubernetes/internal/controller/allocator.go:701-713 | a pod is offered exactly if it is ready and nobody holds it |
| `AllocationProtocol.GetAvailablePodsFromAlloc` | opensandbox_unified_bench/kubernetes/internal/controller/allocator.go:701-713 | the loop lists exactly those pods, in order |
| `AllocationProtocol.SyncAllocatedSafeIff` | opensandbox_unified_bench/kubernetes/internal/controller/allocator.go:641-664 | a successful allocation sync keeps the promise if and only if no pod of its list is in use by another sandbox |
| `AllocationProtocol.SyncRolledBackSafeIff` | opensandbox_unified_bench/kubernetes/internal/controller/allocator.go:641-664 | a rolled-back sync keeps it if and only if neither its list nor the old one names a pod in use by another sandbox |
| `AllocationProtocol.SyncReleasedSafeIff` | opensandbox_unified_bench/kubernetes/internal/controller/allocator.go:669-684 | a release sync with any list keeps it if and only if no pod of the list is in use by another sandbox and every pod the list takes back is still held by the sandbox |
| `AllocationHolding.NothingWithheldIff` | opensandbox_unified_bench/kubernetes/internal/controller/allocator.go:641-713 | in every run each held pod has an owner that is gone, uses it or is about to free it, if and only if no allocation list names a pod its sandbox has released and no sandbox enters under a name that holds pods it does not use |
| `AllocationHolding.TidyStepPreserves` | opensandbox_unified_bench/kubernetes/internal/controller/allocator.go:641-684 | such steps keep that |
| `AllocationHolding.UntidyStepWithholds` | opensandbox_unified_bench/kubernetes/internal/controller/allocator.go:641-664 | any other step withholds a pod at once |
| `AllocationHolding.RecoverIsTidy` | opensandbox_unified_bench/kubernetes/internal/controller/allocator.go:69-126 | recovery withholds nothing, whatever came before |
| `AllocationHolding.GrowingAgainWithholds` | opensandbox_unified_bench/kubernetes/internal/controller/pool_controller.go:543-568 | from any state: a sandbox that releases a pod and then gets one more takes the released one back into the store |
| `AllocationHolding.RecreationWithholds` | opensandbox_unified_bench/kubernetes/internal/controller/allocator.go:499-526 | from any state: a sandbox created again under its old name leaves its old pods held for it |
| `AllocationHolding.StaleEntryLosesPod` | opensandbox_unified_bench/kubernetes/internal/controller/batchsandbox_pause_resume.go:446-466 | from any state: a detached sandbox whose pods were freed as orphans and that is bound to the pool again with its old alloc-status says it uses a pod that is offered to others |
| `AllocationStore.PoolKeyInjective` | opensandbox_unified_bench/kubernetes/internal/controller/allocator.go:249-251 | pools share a store entry only if they are the same pool |
| `AllocationStore.RecoverGivesPodToLastNaming` | opensandbox_unified_bench/kubernetes/internal/controller/allocator.go:69-126 | recovery gives a pod to the last listed sandbox naming it, or leaves it free if that one released it |
| `AllocationStore.RecoverIsAllocMinusReleased` | opensandbox_unified_bench/kubernetes/internal/controller/allocator.go:69-126 | if no pod in use is named by another sandbox, the recovered entry is exactly allocated minus released |
| `AllocationStore.RecoverOrderIndependent` | opensandbox_unified_bench/kubernetes/internal/controller/allocator.go:69-126 | and then any two listing orders recover the same store |
| `AllocationStore.RecoverSafeIffUserListedLast` | opensandbox_unified_bench/kubernetes/internal/controller/allocator.go:69-126 | in general recovery holds every pod in use if and only if its user is listed after all others naming it |
| `AllocationStore.RecoverKeys` | opensandbox_unified_bench/kubernetes/internal/controller/allocator.go:69-126 | exactly the listed pools get an entry |
| `AllocationStore.InMemoryAllocationStore.constructor` | opensandbox_unified_bench/kubernetes/internal/controller/allocator.go:60-65 | the store starts empty |
| `AllocationStore.InMemoryAllocationStore.Recover` | opensandbox_unified_bench/kubernetes/internal/controller/allocator.go:69-126 | the loops rebuild every pool as specified; one unreadable annotation leaves the store as it was |
| `AllocationStore.InMemoryAllocationStore.ClearAllocation` | opensandbox_unified_bench/kubernetes/internal/controller/allocator.go:128-135 | removes one pool and nothing else |
| `AllocationStore.InMemoryAllocationStore.GetAllocation` | opensandbox_unified_bench/kubernetes/internal/controller/allocator.go:137-158 | the copy loop, in any map order, returns all of the entry and nothing else; nothing if there is no entry |
| `AllocationStore.InMemoryAllocationStore.ReleaseAllocation` | opensandbox_unified_bench/kubernetes/internal/controller/allocator.go:174-183 | frees the listed pods whoever owns them, and touches no other pool |
| `AllocationStore.InMemoryAllocationStore.UpdateAllocation` | opensandbox_unified_bench/kubernetes/internal/controller/allocator.go:185-200 | the sandbox's holding becomes exactly the list, taking pods whoever owns them |
| `AllocationStore.InMemoryAllocationStore.ReleaseSandboxAllocation` | opensandbox_unified_bench/kubernetes/internal/controller/allocator.go:204-221 | frees exactly what the sandbox owns |
| `AllocationRequests.FinalizerDroppedIff` | opensandbox_unified_bench/kubernetes/internal/controller/allocator.go:359-418 | the pool finalizer goes if and only if the sandbox is terminating and everything allocated is released; other finalizers stay |
| `AllocationHolding.AllocationPutsFinalizer` | opensandbox_unified_bench/kubernetes/internal/controller/allocator.go:284-287 | an allocation patch leaves the pool finalizer behind the ones already there |
| `AllocationHolding.CommittedStaysGuarded` | opensandbox_unified_bench/kubernetes/internal/controller/allocator.go:359-418 | along every run, once a sandbox has been given pods its finalizer stays until all of them are released, as long as no outside edit takes it away |
| `AllocationRequests.SetReleased` | opensandbox_unified_bench/kubernetes/internal/controller/allocator.go:359-418 | the method with its early exits writes exactly that, or nothing when the patch or the annotation fails |
| `AllocationRequests.Allocator.constructor` | opensandbox_unified_bench/kubernetes/internal/controller/allocator.go:449-456 | a fresh allocator owns an empty store |
| `AllocationRequests.Allocator.SyncSandboxAllocation` | opensandbox_unified_bench/kubernetes/internal/controller/allocator.go:641-664 | store and annotation after success, after a refused patch, and after an unreadable annotation |
| `AllocationRequests.Allocator.SyncSandboxReleased` | opensandbox_unified_bench/kubernetes/internal/controller/allocator.go:669-684 | store and annotation after success and after failure |
| `AllocationRequests.GetSandboxRequest` | opensandbox_unified_bench/kubernetes/internal/controller/allocator.go:528-594 | the request of one sandbox, with every error exit |
| `AllocationRequests.RequestMeaning` | opensandbox_unified_bench/kubernetes/internal/controller/allocator.go:528-594 | a request holds the two lists as they are, asks for exactly the pods missing from the replica count, takes back exactly the pods asked back and not yet released, and is missing exactly if an annotation it needs is unreadable |
| `AllocationRequests.RoundNeedsWhatIsMissing` | opensandbox_unified_bench/kubernetes/internal/controller/allocator.go:499-526 | the requests of a round together need what the listed sandboxes are missing, and nothing for orphans |
| `AllocationRequests.RoundCompletesSandboxes` | opensandbox_unified_bench/kubernetes/internal/controller/algorithm/packed.go:21-50 | with enough pods at hand a round brings every running sandbox to its replica count and not beyond, gives terminating ones nothing and has nothing left to ask for; otherwise it asks for exactly what is lacking |
| `AllocationRequests.TerminatingRequestDropsFinalizer` | opensandbox_unified_bench/kubernetes/internal/controller/allocator.go:528-594 | a terminating sandbox's queued and released pods cover its alloc-status, so syncing them always drops the finalizer; the list is a legal release if and only if only own pods were released before |
| `AllocationRequests.RequestedReleaseIsLegalIff` | opensandbox_unified_bench/kubernetes/internal/controller/pool_controller.go:733-761 | released plus recycled pods meet the release precondition if and only if only own pods were released before and the sandbox is terminating or asked for its own |
| `AllocationRequests.GetAllRequest` | opensandbox_unified_bench/kubernetes/internal/controller/allocator.go:499-526 | one request per listed sandbox, then orphan requests that partition exactly the held pods whose owner is not listed, for any map order |
| `AllocationRequests.PackedSchedule` | opensandbox_unified_bench/kubernetes/internal/controller/algorithm/packed.go:21-50 | for any request list: each request takes the next consecutive slice of the available pods while they last, a sandbox keeps the last slice and the last release of its requests, the rest is the supplement |
| `AllocationRequests.EachGetsItsOwn` | opensandbox_unified_bench/kubernetes/internal/controller/algorithm/packed.go:21-50 | with one request per sandbox each gets exactly its slice and its release, or no entry |
| `AllocationRequests.PackedListsAreDisjoint` | opensandbox_unified_bench/kubernetes/internal/controller/algorithm/packed.go:21-50 | no pod goes to two sandboxes and only available pods are handed out |
| `AllocationRequests.ScheduleYieldsFreshPlan` | opensandbox_unified_bench/kubernetes/internal/controller/pool_controller.go:763-828 | the plan of a round names no pod any sandbox already claims, if no offered pod is still named by an alloc-status |
| `AllocationRequests.RoundStaysLegal` | opensandbox_unified_bench/kubernetes/internal/controller/pool_controller.go:534-607 | the lists of a round, computed once from a fresh plan, stay legal whenever one of its syncs starts, however the others interleave and whatever else about the sandbox was edited |
| `AllocationRequests.RoundStepsStayWithin` | opensandbox_unified_bench/kubernetes/internal/controller/pool_controller.go:572-607 | every other step, edits, releases, crashes and new sandboxes included, keeps the rest of the plan legal |
| `AllocationRequests.RoundStaysWithin` | opensandbox_unified_bench/kubernetes/internal/controller/pool_controller.go:534-607 | over a whole round nobody claims or uses anything new but what the plan gives them |
| `AllocationRequests.OrphansStayUnused` | opensandbox_unified_bench/kubernetes/internal/controller/pool_controller.go:694-729 | pods collected at the start of a round for owners not listed are used by nobody for the rest of the round, so freeing them meets the guard of the protocol |
| `AllocationRequests.QueuedOrphansMayBeFreed` | opensandbox_unified_bench/kubernetes/internal/controller/allocator.go:499-526 | in particular what getAllRequest queues for an unlisted owner, when the plan is packed from the pods offered at the start |
| `AllocationRequests.ReusedPodIsOfferedTwice` | opensandbox_unified_bench/kubernetes/internal/controller/allocator.go:669-684 | from an empty pool, by allocation and release syncs alone, a released pod is given to another sandbox; its former owner's next release then frees it while in use, and it is offered again |
| `AllocationRequests.ReusedPodRecoveryDependsOnOrder` | opensandbox_unified_bench/kubernetes/internal/controller/allocator.go:69-126 | a restart in that state loses the pod in one listing order and keeps it in the other |
| `LifecycleResume.ResumeConvergesOnceReady` | opensandbox_unified_bench/kubernetes/internal/controller/batchsandbox_pause_resume.go:187-230 | with a succeeded valid snapshot, however long the pods take and whichever writes fail before and after they run, four undisturbed reconciles in a row end in Succeed with the generation acknowledged, and further ones change nothing |
| `LifecycleResume.ResumeConverges` | opensandbox_unified_bench/kubernetes/internal/controller/batchsandbox_pause_resume.go:521-626 | the same from any stage of a resume with running pods, across the second handleResume caused by the controller's own patch and a vanishing snapshot |
| `LifecycleResume.StagesAreClosed` | opensandbox_unified_bench/kubernetes/internal/controller/batchsandbox_pause_resume.go:187-230 | a resume with running pods never leaves its four stages, whichever writes fail |
| `LifecycleResume.OneReconcile` | opensandbox_unified_bench/kubernetes/internal/controller/batchsandbox_pause_resume.go:187-230 | every undisturbed reconcile takes it at least one stage further |
| `LifecycleResume.WaitingKeepsResumable` | opensandbox_unified_bench/kubernetes/internal/controller/batchsandbox_pause_resume.go:521-626 | while pods start up the resume stays open and the generation is bumped at most once in all |
| `LifecycleResume.WaitingStep` | opensandbox_unified_bench/kubernetes/internal/controller/batchsandbox_pause_resume.go:521-626 | one reconcile without a ready pod: still resumable, and a bump only with the snapshot worked in |
| `LifecycleResume.StartingStep` | opensandbox_unified_bench/kubernetes/internal/controller/batchsandbox_pause_resume.go:521-626 | the reconcile that finds the pods ready writes Succeed without acknowledging its own patch |
| `LifecycleResume.UnacknowledgedStep` | opensandbox_unified_bench/kubernetes/internal/controller/batchsandbox_pause_resume.go:362-373 | the next one takes that patch for a resume request |
| `LifecycleResume.ResumingAgainStep` | opensandbox_unified_bench/kubernetes/internal/controller/batchsandbox_pause_resume.go:521-626 | the second resume ends in Succeed, with or without the snapshot, and writes no spec |
| `LifecycleResume.ResumedStep` | opensandbox_unified_bench/kubernetes/internal/controller/batchsandbox_status.go:257-300 | one more reconcile lets the snapshot go and settles the status |
| `LifecycleResume.SteadyStep` | opensandbox_unified_bench/kubernetes/internal/controller/batchsandbox_status.go:257-300 | after that a reconcile is the identity |
| `LifecycleResume.ResumedSpecAbsorbed` | opensandbox_unified_bench/kubernetes/internal/controller/batchsandbox_pause_resume.go:586-618 | the patched spec already contains everything the next patch would write |
| `LifecycleOutcomes.ResumeRunsSnapshot` | opensandbox_unified_bench/kubernetes/internal/controller/batchsandbox_pause_resume.go:555-626 | a resume with a usable snapshot stores a template whose every container runs the reference of the snapshot's last entry for it, or what it ran before where there is none, with the restore plan and the pull secret and without a pool, and makes its pods from that template; an unknown snapshot format leaves everything as it was |
| `LifecycleOutcomes.ResumeGoesOnIff` | opensandbox_unified_bench/kubernetes/internal/controller/batchsandbox_pause_resume.go:521-583 | a resume goes on if and only if the snapshot has succeeded, every image of it has a reference and, for a virtual machine, the restore plan fits the template |
| `LifecycleOutcomes.GivingUpReturnsToPaused` | opensandbox_unified_bench/kubernetes/internal/controller/batchsandbox_pause_resume.go:524-583 | otherwise it returns to Paused with the request answered and the reason given, and touches nothing but the status |
| `LifecycleOutcomes.ReadyPodEndsResume` | opensandbox_unified_bench/kubernetes/internal/controller/batchsandbox_pause_resume.go:525-537 | with the snapshot gone and a ready pod it ends in Succeed, answered, with the failure conditions cleared |
| `LifecycleOutcomes.ResumeBegins` | opensandbox_unified_bench/kubernetes/internal/controller/batchsandbox_pause_resume.go:362-373 | a resume request leads to Resuming, acknowledged, and touches nothing but the status |
| `LifecycleResume.QueuedPauseIsHandled` | opensandbox_unified_bench/kubernetes/internal/controller/batchsandbox_controller.go:199-206 | over any number of reconciles with a usable snapshot a queued pause stays unacknowledged until Resuming ends and is then dispatched to handlePause |
| `LifecycleResume.QueuedPauseSurvives` | opensandbox_unified_bench/kubernetes/internal/controller/batchsandbox_pause_resume.go:193-221 | the same for one reconcile |
| `LifecycleResume.QueuedPauseLostIff` | opensandbox_unified_bench/kubernetes/internal/controller/batchsandbox_pause_resume.go:521-584 | a reconcile loses the queued pause if and only if it has a reason to give up and its acknowledgement goes through |
| `LifecycleResume.PauseLostWithoutSnapshot` | opensandbox_unified_bench/kubernetes/internal/controller/batchsandbox_pause_resume.go:531-536 | in particular when the snapshot is gone and a pod is ready |
| `LifecycleResume.ResumingAcknowledgesIff` | opensandbox_unified_bench/kubernetes/internal/controller/batchsandbox_controller.go:199-206 | while Resuming the generation is acknowledged exactly on giving up |
| `LifecycleResume.PausedSnapshotDeletedIff` | opensandbox_unified_bench/kubernetes/internal/controller/batchsandbox_pause_resume.go:264-269 | a paused sandbox loses its snapshot if and only if an edit with pause still set replays the pause |
| `LifecyclePause.PauseCompletedByOwnSnapshot` | opensandbox_unified_bench/kubernetes/internal/controller/batchsandbox_pause_resume.go:236-290 | in every pause a pod is deleted, the pool detached or Paused reached only with a succeeded snapshot that was unfinished, or not there yet, when the phase became Pausing |
| `LifecycleProofs.PausingStartsFromUnfinishedSnapshot` | opensandbox_unified_bench/kubernetes/internal/controller/batchsandbox_pause_resume.go:236-290 | Pausing begins only with no terminal or vanishing snapshot around |
| `LifecycleProofs.PodsGoOnlyAfterSnapshot` | opensandbox_unified_bench/kubernetes/internal/controller/batchsandbox_pause_resume.go:377-513 | no reconcile deletes a pod, detaches or pauses without a succeeded snapshot |
| `LifecycleProofs.CompletePauseRerunsCleanlyIff` | opensandbox_unified_bench/kubernetes/internal/controller/batchsandbox_pause_resume.go:435-513 | completePause cut off after any write and run again at any later time ends like an uninterrupted run, stamped by the pass that first wrote the status, if and only if a pooled sandbox has no running pods of its own |
| `LifecycleOutcomes.PauseAnswersItsRequest` | opensandbox_unified_bench/kubernetes/internal/controller/batchsandbox_pause_resume.go:435-513 | a reconcile that ends a pause leaves no own pod running, lets the pool go with the template of its first pod, and acknowledges its own change exactly while pause is still asked for, so that the pause is not replayed and a queued resume is dispatched next |
| `LifecycleOutcomes.FinishedPauseKeepsSnapshot` | opensandbox_unified_bench/kubernetes/internal/controller/batchsandbox_pause_resume.go:435-513 | after that, over any number of reconciles without an edit from outside, the snapshot stays, the phase stays Paused and spec stays as it is |
| `LifecycleOutcomes.PauseGoesThrough` | opensandbox_unified_bench/kubernetes/internal/controller/batchsandbox_pause_resume.go:236-513 | a pause nothing stands in the way of makes its snapshot at once and is over one reconcile after the snapshot has succeeded |
| `LifecycleOutcomes.UnsupportedPauseIsTurnedDown` | opensandbox_unified_bench/kubernetes/internal/controller/batchsandbox_pause_resume.go:236-258 | a pause of anything but one replica is acknowledged and explained, and changes nothing else |
| `LifecycleOutcomes.LeftoverSnapshotGoesFirst` | opensandbox_unified_bench/kubernetes/internal/controller/batchsandbox_pause_resume.go:260-274 | a snapshot from before is waited for or deleted, and nothing else happens |
| `LifecycleOutcomes.PauseBegins` | opensandbox_unified_bench/kubernetes/internal/controller/batchsandbox_pause_resume.go:276-290 | otherwise the phase becomes Pausing, acknowledged, with a new snapshot if there is none and the tasks have stopped |
| `LifecycleOutcomes.PauseWaitsForSnapshot` | opensandbox_unified_bench/kubernetes/internal/controller/batchsandbox_pause_resume.go:377-395 | while there is no snapshot one is made, while it is unfinished nothing happens |
| `LifecycleOutcomes.FailedSnapshotEndsPause` | opensandbox_unified_bench/kubernetes/internal/controller/batchsandbox_pause_resume.go:404-425 | a failed snapshot ends the pause in Failed if and only if no pod is left and else in Succeed, acknowledged and explained, with every pod kept |
| `LifecycleProofs.StatusStaysConsistent` | opensandbox_unified_bench/kubernetes/internal/controller/batchsandbox_status.go:81-108 | whatever fails, every reconcile keeps one condition per type, Ready exactly in Succeed, Progressing exactly in Pending, Pausing and Resuming, Paused exactly in Paused |
| `LifecycleProofs.RuntimeViewPhase` | opensandbox_unified_bench/kubernetes/internal/controller/batchsandbox_status.go:165-200 | the runtime view never enters Pausing, Paused or Resuming by itself, and acknowledges exactly outside Resuming |
| `LifecycleOutcomes.ViewFollowsPods` | opensandbox_unified_bench/kubernetes/internal/controller/batchsandbox_status.go:165-247 | the view counts the pods and has the phase they ask for: unchanged while pausing, paused or failed, else Failed with a failed pod, else Succeed with a running one, else still starting |
| `LifecycleOutcomes.NormalFlowFollowsPods` | opensandbox_unified_bench/kubernetes/internal/controller/batchsandbox_status.go:252-300 | a pass of the normal flow stores that phase and those counts exactly if it may store the view |
| `LifecycleOutcomes.UnfinishedScalingStopsPass` | opensandbox_unified_bench/kubernetes/internal/controller/batchsandbox_controller.go:188-206 | a pass without a replica count, or with a pod still missing after scaling, writes no status and keeps the snapshot |
| `LifecycleOutcomes.ViewExplainsFailures` | opensandbox_unified_bench/kubernetes/internal/controller/batchsandbox_status.go:205-247 | PodFailed gives the prevailing reason, ResumeFailed too exactly while a resume is under way, and PodFailed is gone without a failed pod |
| `LifecycleProofs.NormalFlowChanges` | opensandbox_unified_bench/kubernetes/internal/controller/batchsandbox_status.go:257-300 | the normal flow only adds pods, writes the view and lets a used snapshot go |
| `LifecycleProofs.ContinueResumeChanges` | opensandbox_unified_bench/kubernetes/internal/controller/batchsandbox_pause_resume.go:521-626 | continueResume bumps the generation at most once and writes either spec or status |
| `LifecyclePause.PodsAppearOnlyWhereMissing` | opensandbox_unified_bench/kubernetes/internal/controller/batchsandbox_controller.go:188-196 | no reconcile creates a pod while pausing, paused or pooled, nor two pods of one index |
| `LifecyclePause.ScalingFillsIn` | opensandbox_unified_bench/kubernetes/internal/controller/batchsandbox_controller.go:523-589 | scaling creates each missing index once, nothing else, and all of them if it gets through |
| `LifecycleOutcomes.CreatedFromTemplate` | opensandbox_unified_bench/kubernetes/internal/controller/batchsandbox_controller.go:523-589 | new pods come from the template at hand under the sandbox's name and their index; scaling stops only without a template or at a pod that cannot be created |
| `LifecycleOutcomes.PodNamesTellApart` | opensandbox_unified_bench/kubernetes/internal/controller/batchsandbox_controller.go:573-580 | pods of one sandbox have the same name exactly if they have the same index |
| `LifecyclePause.FailedIsLeftIff` | opensandbox_unified_bench/kubernetes/internal/controller/batchsandbox_pause_resume.go:187-290 | a failed sandbox leaves Failed if and only if a resume request, or a pause request it can start on, is acknowledged |
| `LifecyclePause.RuntimePatchKeepsFailures` | opensandbox_unified_bench/kubernetes/internal/controller/batchsandbox_status.go:326-372 | no runtime status patch, of the normal flow or of a reconcile continuing a resume, drops PauseFailed or ResumeFailed |
| `LifecyclePause.ResumingKeepsFailures` | opensandbox_unified_bench/kubernetes/internal/controller/batchsandbox_status.go:326-372 | a resume with a usable snapshot keeps both from one reconcile to the next |
| `LifecycleController.ReconcileKeepsPromises` | opensandbox_unified_bench/kubernetes/internal/controller/batchsandbox_controller.go:166-206 | every reconcile: runtime taken away only with a succeeded snapshot, consistent status, queued pause kept, pods created only where missing, Pausing only without a finished snapshot |
| `LifecycleController.CreateListedOrOnTheWay` | opensandbox_unified_bench/kubernetes/internal/controller/batchsandbox_controller.go:541-588 | listing the missing pods first and creating them then gives the same pods and the same stop as creating on the way |
| `LifecycleController.BuildRuntimeView` | opensandbox_unified_bench/kubernetes/internal/controller/batchsandbox_status.go:165-200 | the counting loop and the phase helpers compute the view the properties are proved of |
| `LifecycleController.ApplyResumingRuntimePhase` | opensandbox_unified_bench/kubernetes/internal/controller/batchsandbox_status.go:210-221 | failures beat readiness while resuming |
| `LifecycleController.ApplySteadyRuntimePhase` | opensandbox_unified_bench/kubernetes/internal/controller/batchsandbox_status.go:223-247 | the view of a sandbox not resuming, with failures first |
| `LifecycleController.FindReady` | opensandbox_unified_bench/kubernetes/internal/controller/batchsandbox_pause_resume.go:141-183 | some pod of the list is ready |
| `LifecycleController.ListNeeded` | opensandbox_unified_bench/kubernetes/internal/controller/batchsandbox_controller.go:525-548 | the indices below the replica count that no pod has, in order |
| `LifecycleController.Reconciler.DeletePods` | opensandbox_unified_bench/kubernetes/internal/controller/batchsandbox_pause_resume.go:481-490 | marks the pods up to the first failing delete |
| `LifecycleController.Reconciler.ScaleBatchSandbox` | opensandbox_unified_bench/kubernetes/internal/controller/batchsandbox_controller.go:523-589 | both loops together create what the specification creates |
| `LifecycleController.Reconciler.Reconcile` | opensandbox_unified_bench/kubernetes/internal/controller/batchsandbox_controller.go:166-206 | the class, write by write and whichever writes fail, ends in the specified state and keeps all those promises between its old and its new state |
| `StatusConditions.SetConditionInStatus` | opensandbox_unified_bench/kubernetes/internal/controller/batchsandbox_status.go:41-79 | the loop equals the specification, timestamps included |
| `StatusConditions.SetMeaning` | opensandbox_unified_bench/kubernetes/internal/controller/batchsandbox_status.go:41-79 | the wanted condition is in force and every other type is untouched |
| `StatusConditions.SetKeepsOrder` | opensandbox_unified_bench/kubernetes/internal/controller/batchsandbox_status.go:41-79 | the other conditions keep their order, and what is changed carries the time of the change |
| `StatusConditions.SetInForceIsIdentity` | opensandbox_unified_bench/kubernetes/internal/controller/batchsandbox_status.go:41-79 | a condition already in force keeps its timestamp |
| `StatusConditions.ApplyPhaseConditions` | opensandbox_unified_bench/kubernetes/internal/controller/batchsandbox_status.go:81-108 | the three calls of each phase equal the specification |
| `StatusConditions.ApplyPhaseTwice` | opensandbox_unified_bench/kubernetes/internal/controller/batchsandbox_status.go:81-108 | applying the phase conditions again, at any later time, changes nothing |
| `StatusConditions.ApplyPhaseMakesConsistent` | opensandbox_unified_bench/kubernetes/internal/controller/batchsandbox_status.go:81-108 | Ready, Progressing and Paused are present exactly in their phases |
| `StatusConditions.PhaseExplainsItself` | opensandbox_unified_bench/kubernetes/internal/controller/batchsandbox_status.go:81-108 | the condition of a phase carries its reason and message |
| `StatusConditions.MergeLifecycleConditions` | opensandbox_unified_bench/kubernetes/internal/controller/batchsandbox_status.go:343-362 | the two loops equal the specification |
| `StatusConditions.MergeKeepsLifecycle` | opensandbox_unified_bench/kubernetes/internal/controller/batchsandbox_status.go:343-372 | merging puts exactly the missing PauseFailed and ResumeFailed behind the desired conditions and keeps the status consistent |
| `StatusConditions.WriteCondition` | opensandbox_unified_bench/kubernetes/internal/controller/batchsandbox_pause_resume.go:870-897 | the handlers' own loop equals the specification |
| `StatusConditions.WriteMeaning` | opensandbox_unified_bench/kubernetes/internal/controller/batchsandbox_pause_resume.go:870-897 | the condition is in force with the time of the write, changed or not, and the others stay as they were, in order |
| `StatusConditions.WriteKeepsConsistent` | opensandbox_unified_bench/kubernetes/internal/controller/batchsandbox_pause_resume.go:855-903 | a handler's write keeps the status consistent |
| `PodFailures.SummarizePodFailures` | opensandbox_unified_bench/kubernetes/internal/controller/batchsandbox_status.go:130-155 | count, prevailing reason and sample pod of the loop with its maps |
| `PodFailures.PrevailingIsMostFrequent` | opensandbox_unified_bench/kubernetes/internal/controller/batchsandbox_status.go:130-155 | no reason is more frequent, and the sample is the first pod showing it |
| `PodFailures.TiesGoToTheFirst` | opensandbox_unified_bench/kubernetes/internal/controller/batchsandbox_status.go:130-155 | of equally frequent reasons the one that got there first prevails; the sample is the first pod that shows it |
| `PodFailures.CountOfMeaning` | opensandbox_unified_bench/kubernetes/internal/controller/batchsandbox_status.go:130-155 | the counts are the numbers of pods that show a reason |
| `PodFailures.LeadExistsIffFailed` | opensandbox_unified_bench/kubernetes/internal/controller/batchsandbox_status.go:130-155 | there is a prevailing reason exactly if a pod failed |
| `QemuRestore.InjectTwice` | opensandbox_unified_bench/kubernetes/internal/controller/batchsandbox_pause_resume.go:628-743 | if injection succeeds, injecting again succeeds and changes nothing |
| `QemuRestore.InjectSucceedsIff` | opensandbox_unified_bench/kubernetes/internal/controller/batchsandbox_pause_resume.go:628-743 | a virtual machine can be restored if and only if its snapshot is valid, the annotation names a container of the template, and nothing else takes the reserved volume, mount, path or node class |
| `QemuRestore.InjectTouchesOnlyItsOwn` | opensandbox_unified_bench/kubernetes/internal/controller/batchsandbox_pause_resume.go:628-743 | other containers, the order of other init containers, other labels and volumes are untouched |
| `QemuRestore.InjectInstallsPlan` | opensandbox_unified_bench/kubernetes/internal/controller/batchsandbox_pause_resume.go:628-743 | what is there afterwards: restore container, volume of the right size, mount, variables, node class |
| `QemuRestore.RestoredTwice` | opensandbox_unified_bench/kubernetes/internal/controller/batchsandbox_pause_resume.go:586-604 | images, injection and pull secret together are idempotent |
| `QemuRestore.RestoredRunsSnapshot` | opensandbox_unified_bench/kubernetes/internal/controller/batchsandbox_pause_resume.go:555-599 | every container of a restored template runs the reference of the snapshot's last entry for it, its own if there is none |
| `QemuRestore.RestoredPullsWithSecret` | opensandbox_unified_bench/kubernetes/internal/controller/batchsandbox_pause_resume.go:65-75 | old pull secrets stay in place, and the configured one is among them or added behind |
| `QemuRestore.RestoredIsInjected` | opensandbox_unified_bench/kubernetes/internal/controller/batchsandbox_pause_resume.go:586-604 | a template can be restored if and only if every entry has a reference and the plan can be injected; apart from images and pull secrets it is then the injected one |
| `QemuRestore.CollectImages` | opensandbox_unified_bench/kubernetes/internal/controller/batchsandbox_pause_resume.go:555-575 | the loop over the snapshot's entries, with its error exit |
| `QemuRestore.InstallImages` | opensandbox_unified_bench/kubernetes/internal/controller/batchsandbox_pause_resume.go:595-599 | the loop over the containers |
| `QemuRestore.EnsureImagePullSecret` | opensandbox_unified_bench/kubernetes/internal/controller/batchsandbox_pause_resume.go:65-75 | the loop over the pull secrets |
| `QemuRestore.RestoreTemplate` | opensandbox_unified_bench/kubernetes/internal/controller/batchsandbox_pause_resume.go:586-604 | the edits together compute the restored template |
| `QemuRestore.PodTemplate.constructor` | opensandbox_unified_bench/kubernetes/internal/controller/batchsandbox_pause_resume.go:628-631 | the template object holds the given values |
| `QemuRestore.PodTemplate.InjectQEMURestore` | opensandbox_unified_bench/kubernetes/internal/controller/batchsandbox_pause_resume.go:628-743 | the in-place edits, with all error exits, compute the specified template |
| `QemuRestore.FindContainer` | opensandbox_unified_bench/kubernetes/internal/controller/batchsandbox_pause_resume.go:669-678 | the first container of the name, or -1 |
| `QemuRestore.EnsureVMStateVolume` | opensandbox_unified_bench/kubernetes/internal/controller/batchsandbox_pause_resume.go:745-762 | the volume loop with its conflict error |
| `QemuRestore.EnsureVMStateMount` | opensandbox_unified_bench/kubernetes/internal/controller/batchsandbox_pause_resume.go:774-789 | the mount loop with its conflict errors |
| `QemuRestore.SetContainerEnv` | opensandbox_unified_bench/kubernetes/internal/controller/batchsandbox_pause_resume.go:791-800 | the first variable of the name is replaced, else appended |
| `QemuRestore.PlaceRestoreInit` | opensandbox_unified_bench/kubernetes/internal/controller/batchsandbox_pause_resume.go:718-731 | an existing restore container is replaced where it is, else it is appended so that it runs last |
| `Supervisor.Run` | opensandbox_unified_bench/components/internal/supervisor/supervisor.go:35-214 | every run: one record per attempt in order, every sleep the next backoff and within bounds, nothing launched or slept once a cancellation is seen, the right outcome, and with OnBurstExit and a non-decreasing clock any BurstMax+1 consecutive launches span strictly more than BurstWindow |
| `Supervisor.RestartLoop` | opensandbox_unified_bench/components/internal/supervisor/supervisor.go:55-186 | the same for the loop alone |
| `Supervisor.RunIsDetermined` | opensandbox_unified_bench/components/internal/supervisor/supervisor.go:35-186 | these promises leave no choice: launches, sleeps and outcome are determined by what is observed |
| `Supervisor.AttemptOnce` | opensandbox_unified_bench/components/internal/supervisor/supervisor.go:55-186 | one attempt: recorded once, and leave, burst or sleep for the right reason |
| `Supervisor.ClosedChecksSpaceLaunches` | opensandbox_unified_bench/components/internal/supervisor/supervisor.go:202-214 | checks that found the breaker closed space the launches |
| `Supervisor.BackoffInRange` | opensandbox_unified_bench/components/internal/supervisor/backoff.go:27-59 | every backoff lies in [min, max], for any jitter, 64-bit wrap-around included |
| `Supervisor.JitterMovesSleep` | opensandbox_unified_bench/components/internal/supervisor/backoff.go:41-59 | short of an overflow the jitter moves the sleep by what was drawn, held within the bounds |
| `Supervisor.DoubledWithoutWrap` | opensandbox_unified_bench/components/internal/supervisor/backoff.go:27-39 | below a quarter of the range it is the doubled previous one, capped |
| `Supervisor.BackoffIsExponential` | opensandbox_unified_bench/components/internal/supervisor/backoff.go:27-39 | without jitter the k-th backoff is min times two to the k, capped at max |
| `Supervisor.SleepsGrowSinceStable` | opensandbox_unified_bench/components/internal/supervisor/supervisor.go:55-198 | in every run without jitter the sleeps, counted from the last attempt that ran stably or from the first, are min times two to the i, capped at max |
| `Supervisor.DefaultsAreUsable` | opensandbox_unified_bench/components/internal/supervisor/spec.go:148-208 | defaults make any settings usable, keep every usable field and leave usable settings alone; unset ones become the documented values |
| `Supervisor.Spec.constructor` | opensandbox_unified_bench/components/internal/supervisor/spec.go:148-208 | a spec holds the given settings |
| `Supervisor.Spec.ApplyDefaults` | opensandbox_unified_bench/components/internal/supervisor/spec.go:148-208 | field by field it computes the defaulted settings |
| `Supervisor.Spec.ApplyBackoffDefaults` | opensandbox_unified_bench/components/internal/supervisor/spec.go:148-183 | its backoff part |
| `BurstTracker.Tracker.constructor` | opensandbox_unified_bench/components/internal/supervisor/burst.go:33-43 | an empty ring of at least one slot |
| `BurstTracker.Tracker.Record` | opensandbox_unified_bench/components/internal/supervisor/burst.go:45-51 | the ring keeps representing the last max launches of the whole history |
| `BurstTracker.Tracker.Exceeded` | opensandbox_unified_bench/components/internal/supervisor/burst.go:56-62 | true exactly if there are max launches and the max-th latest is within the window |
| `BurstTracker.Tracker.Count` | opensandbox_unified_bench/components/internal/supervisor/burst.go:64-73 | how many of the last max launches are within the window |
| `BurstTracker.BurstingIffCountFull` | opensandbox_unified_bench/components/internal/supervisor/burst.go:56-73 | on a non-decreasing clock exceeded holds exactly if count equals max |
| `BurstTracker.RingRecord` | opensandbox_unified_bench/components/internal/supervisor/burst.go:45-51 | the modular slot arithmetic drops the oldest entry and appends the new one |
| `MitmRestart.DeathIsNeverMissed` | opensandbox_unified_bench/components/egress/mitmproxy_transparent.go:148-240 | in every interleaving a waiting watcher's current mitmdump is alive or its exit event is on the way; a generation restarts at most once, a killed attempt never |
| `MitmRestart.RetriesBackOff` | opensandbox_unified_bench/components/egress/mitmproxy_transparent.go:192-240 | the sleep after the n-th failed attempt of a restart is two to the n-1 seconds, thirty at most |
| `MitmRestart.NoProcessIsLeftBehind` | opensandbox_unified_bench/components/egress/mitmproxy_transparent.go:148-240 | a live mitmdump is the current one while the watcher waits, and the one being brought up or shut down while it restarts |
| `MitmRestart.DeathStartsRestart` | opensandbox_unified_bench/components/egress/mitmproxy_transparent.go:148-183 | a death, sent and received, takes readiness away and starts attempt one, and changes nothing else |
| `MitmRestart.OpenPortEndsRestart` | opensandbox_unified_bench/components/egress/mitmproxy_transparent.go:205-214 | an attempt whose port opens puts the new generation in charge, ready and watched |
| `MitmRestart.FailedLaunchIsRetried` | opensandbox_unified_bench/components/egress/mitmproxy_transparent.go:205-240 | a failed launch is tried again after the sleep, under a new generation |
| `MitmRestart.ClosedPortIsRetried` | opensandbox_unified_bench/components/egress/mitmproxy_transparent.go:205-240 | so is one whose port stays closed, but only once its process is gone |
| `MitmRestart.InvHoldsAlongRun` | opensandbox_unified_bench/components/egress/mitmproxy_transparent.go:78-240 | the channel, watcher and history invariants hold along every run |
| `MitmRestart.StepPreserves` | opensandbox_unified_bench/components/egress/mitmproxy_transparent.go:78-240 | every step keeps them |
| `MitmRestart.DieOrSendPreserves` | opensandbox_unified_bench/components/egress/mitmproxy_transparent.go:78-87 | deaths and sends keep them |
| `MitmRestart.ReceivePreserves` | opensandbox_unified_bench/components/egress/mitmproxy_transparent.go:148-183 | receiving an event, stale or current, keeps them |
| `MitmRestart.RestartStepPreserves` | opensandbox_unified_bench/components/egress/mitmproxy_transparent.go:192-240 | the retry loop keeps them |
| `MitmRestart.WaitingIsBounded` | opensandbox_unified_bench/components/egress/mitmproxy_transparent.go:148-183 | a watcher that keeps waiting receives fewer events than were outstanding |
| `MitmRestart.WaitingNeverStuck` | opensandbox_unified_bench/components/egress/mitmproxy_transparent.go:148-183 | a waiting watcher whose process died can always go on |
| `SnapshotRecovery.NothingLostOrRepeated` | opensandbox_unified_bench/kubernetes/cmd/image-committer/recovery.go:33-99 | over all interleavings each tracked container is armed, in flight in one caller, resumed or abandoned by disarm, and only one of these; the same for VM actions |
| `SnapshotRecovery.InvHoldsAlongRun` | opensandbox_unified_bench/kubernetes/cmd/image-committer/recovery.go:33-99 | the invariant behind it holds along every run, and without a disarm nothing is abandoned |
| `SnapshotRecovery.StepPreserves` | opensandbox_unified_bench/kubernetes/cmd/image-committer/recovery.go:33-99 | every step conserves them |
| `SnapshotRecovery.TryContainerPreserves` | opensandbox_unified_bench/kubernetes/cmd/image-committer/recovery.go:54-99 | and no container is resumed that was resumed before |
| `SnapshotRecovery.TryMachinePreserves` | opensandbox_unified_bench/kubernetes/cmd/image-committer/recovery.go:54-99 | and no VM action either |
| `SnapshotRecovery.FinishContainers` | opensandbox_unified_bench/kubernetes/cmd/image-committer/recovery.go:84-98 | re-arming failed containers in front conserves them |
| `SnapshotRecovery.FinishMachine` | opensandbox_unified_bench/kubernetes/cmd/image-committer/recovery.go:84-98 | re-arming a VM action only if none was set meanwhile conserves them |
| `SnapshotRecovery.FailedMachineIsRearmed` | opensandbox_unified_bench/kubernetes/cmd/image-committer/recovery.go:87-103 | a VM action that fails is armed again as it was, unless another was registered meanwhile: that one stays |
| `SnapshotRecovery.OrderKeptIff` | opensandbox_unified_bench/kubernetes/cmd/image-committer/recovery.go:54-99 | in every run the armed containers stay in tracking order if and only if no call finishes with a failed container tracked after one armed by then |
| `SnapshotRecovery.OrderStep` | opensandbox_unified_bench/kubernetes/cmd/image-committer/recovery.go:33-99 | only finishing a call can break the order, and exactly then |
| `SnapshotRecovery.TurnsKeepTrackingOrder` | opensandbox_unified_bench/kubernetes/cmd/image-committer/recovery.go:54-99 | so the order is kept whenever calls do not overlap |
| `SnapshotRecovery.OverlappingCallsLoseOrder` | opensandbox_unified_bench/kubernetes/cmd/image-committer/recovery.go:54-99 | a concrete run of two overlapping calls that ends with the containers of both in the wrong order |
| `SnapshotRecovery.Recovery.constructor` | opensandbox_unified_bench/kubernetes/cmd/image-committer/recovery.go:33-37 | nothing armed |
| `SnapshotRecovery.Recovery.TrackPausedContainer` | opensandbox_unified_bench/kubernetes/cmd/image-committer/recovery.go:33-37 | appends the container |
| `SnapshotRecovery.Recovery.SetVirtualMachineResume` | opensandbox_unified_bench/kubernetes/cmd/image-committer/recovery.go:39-43 | sets the VM action |
| `SnapshotRecovery.Recovery.Disarm` | opensandbox_unified_bench/kubernetes/cmd/image-committer/recovery.go:47-52 | nothing armed any more |
| `SnapshotRecovery.Recovery.Take` | opensandbox_unified_bench/kubernetes/cmd/image-committer/recovery.go:54-62 | hands everything over and clears it |
| `SnapshotRecovery.Recovery.Rearm` | opensandbox_unified_bench/kubernetes/cmd/image-committer/recovery.go:84-98 | failed ones in their order in front of those armed since |
| `SnapshotRecovery.Recovery.ResumeSource` | opensandbox_unified_bench/kubernetes/cmd/image-committer/recovery.go:54-99 | last paused first, then the VM; exactly what failed is armed again, in its order |
| `PoolUpdate.RoundGuarantees` | opensandbox_unified_bench/kubernetes/internal/controller/pool_update.go:54-113 | for every input kept and deleted partition the known idle pods, only outdated ones go, and ready deletions stay within the budget; without wrap-around ready deletions plus unready pods stay within the larger of the limit and the pods already unready |
| `PoolUpdate.BudgetMeaning` | opensandbox_unified_bench/kubernetes/internal/controller/pool_update.go:54-69 | the 32-bit budget is what is left of the limit if and only if the subtraction does not wrap |
| `PoolUpdate.RolloutEnds` | opensandbox_unified_bench/kubernetes/internal/controller/pool_update.go:54-113 | rounds at settled moments with work left number at most the outdated pods of the first |
| `PoolUpdate.RoundMakesProgress` | opensandbox_unified_bench/kubernetes/internal/controller/pool_update.go:54-113 | a settled pool with outdated pods deletes one of them |
| `PoolUpdate.ProgressIffLimitPositive` | opensandbox_unified_bench/kubernetes/internal/controller/pool_update.go:37-48 | all settled pools of a size make progress if and only if the limit cut to 32 bits is positive |
| `PoolUpdate.LimitKeptIff` | opensandbox_unified_bench/kubernetes/internal/controller/pool_update.go:54-101 | all rounds over n pods keep the limit if and only if limit - (n - 1) does not fall below the 32-bit range |
| `PoolUpdate.OverflowingPercentLeavesNoBudget` | opensandbox_unified_bench/kubernetes/internal/controller/pool_update.go:37-48 | a concrete percentage whose limit becomes zero |
| `PoolUpdate.OverflowingPercentBreaksLimit` | opensandbox_unified_bench/kubernetes/internal/controller/pool_update.go:37-69 | a concrete percentage with which a ready pod is deleted although the limit is far below zero |
| `PoolUpdate.MaxUnavailableMeaning` | opensandbox_unified_bench/kubernetes/internal/controller/pool_update.go:37-48 | a limit that fits 32 bits is the number given or the rounded-up share, a quarter by default, and at least one |
| `PoolUpdate.ChoosePartitions` | opensandbox_unified_bench/kubernetes/internal/controller/pool_update.go:86-101 | the loop loses no pod |
| `PoolUpdate.ChooseStaysWithinBudget` | opensandbox_unified_bench/kubernetes/internal/controller/pool_update.go:86-101 | the loop pays for every ready deletion and keeps an outdated pod only when nothing is left |
| `PoolUpdate.ChooseRespectsOrder` | opensandbox_unified_bench/kubernetes/internal/controller/pool_update.go:78-101 | no outdated pod is kept that comes before a deleted ready one |
| `PoolUpdate.BeforeOrder` | opensandbox_unified_bench/kubernetes/internal/utils/pod.go:223-260 | the deletion order is a strict weak order that ties only pods of one name |
| `PoolUpdate.BeforeIsPrecedes` | opensandbox_unified_bench/kubernetes/internal/utils/pod.go:223-260 | the comparison is the lexicographic order of scheduled, phase, readiness, time since ready, restarts, age and name |
| `PoolUpdate.RoundDeletesInOrder` | opensandbox_unified_bench/kubernetes/internal/controller/pool_update.go:78-101 | every ready pod a round deletes goes before every outdated pod it keeps: the unscheduled one first, then the one ready for longer, restarted more often, created later, of smaller name |
| `PoolUpdate.CandidatesAreIdlePodsInOrder` | opensandbox_unified_bench/kubernetes/internal/controller/pool_update.go:59-80 | a round looks at exactly the pods known under an idle name, in that order |
| `PoolUpdate.UnreadyCountMeaning` | opensandbox_unified_bench/kubernetes/internal/controller/pool_update.go:63-68 | the unavailable pods are counted, each once |
| `PoolUpdate.StableSortSorts` | opensandbox_unified_bench/kubernetes/internal/controller/pool_update.go:78-80 | the sorted list is sorted and a permutation |
| `PoolUpdate.Compute` | opensandbox_unified_bench/kubernetes/internal/controller/pool_update.go:54-113 | the loops compute exactly the round the guarantees are about, with as many supplied as deleted |
| `LiteralSubstitution.ReplaceLiteralsOnce` | opensandbox_unified_bench/components/egress/mitmscripts/system.py:465-498 | the scan renders a leftmost-longest reading of the original text and reports placeholders by first use |
| `LiteralSubstitution.SelectAt` | opensandbox_unified_bench/components/egress/mitmscripts/system.py:475-485 | the inner loop picks a longest non-empty placeholder, the first listed of that length |
| `LiteralSubstitution.ReadingIsUnique` | opensandbox_unified_bench/components/egress/mitmscripts/system.py:465-498 | there is only one such reading, so inserted values are never rescanned |
| `LiteralSubstitution.SourcesRebuildText` | opensandbox_unified_bench/components/egress/mitmscripts/system.py:465-498 | the tokens of a reading put together are the original text |
| `LiteralSubstitution.OutputHoldsValues` | opensandbox_unified_bench/components/egress/mitmscripts/system.py:465-498 | the output has, piece by piece, the value of the replacement or the character itself |
| `LiteralSubstitution.AppliedMeansUsed` | opensandbox_unified_bench/components/egress/mitmscripts/system.py:465-498 | the indices reported are exactly the replacements used, each once, in the order of first use |
| `LiteralSubstitution.ListOrderDoesNotMatter` | opensandbox_unified_bench/components/egress/mitmscripts/system.py:465-498 | with distinct placeholders output and applied placeholders do not depend on the list order |
| `LiteralSubstitution.NothingAppliedIffNothingOccurs` | opensandbox_unified_bench/components/egress/mitmscripts/system.py:465-498 | nothing is applied if and only if no non-empty placeholder occurs, and then the text is unchanged |
| `Redaction.RedactText` | opensandbox_unified_bench/components/egress/mitmscripts/system.py:773-777 | values that cannot overlap the marker are gone, for any order of equally long values |
| `Redaction.ReplaceAllIsSubstitution` | opensandbox_unified_bench/components/egress/mitmscripts/system.py:773-777 | redacting a value is substituting the marker for it in the leftmost reading: non-overlapping occurrences go and everything between them stays |
| `Redaction.RedactedValuesAreGone` | opensandbox_unified_bench/components/egress/mitmscripts/system.py:773-777 | a value without brackets that is no part of REDACTED occurs nowhere in the output |
| `Redaction.RedactionCleansIff` | opensandbox_unified_bench/components/egress/mitmscripts/system.py:773-777 | for values without brackets redaction cleans every text if and only if none is part of REDACTED |
| `Redaction.SingleValueCleansIff` | opensandbox_unified_bench/components/egress/mitmscripts/system.py:773-777 | redacting one value of any characters cleans every text of it if and only if it cannot be laid over the marker with a front part that is itself not replaced |
| `Redaction.BracketsExample` | opensandbox_unified_bench/components/egress/mitmscripts/system.py:773-777 | two opening brackets overlap the marker and are cleaned all the same; one is not |
| `Redaction.WordPartSurvives` | opensandbox_unified_bench/components/egress/mitmscripts/system.py:773-777 | a value that is part of REDACTED survives its own redaction |
| `Redaction.OccurrenceComesFromText` | opensandbox_unified_bench/components/egress/mitmscripts/system.py:773-777 | replacing one value creates no occurrence of another that cannot overlap the marker |
| `EgressRules.MergeEgressRules` | opensandbox_unified_bench/components/egress/policy_utils.go:61-86 | the loops equal the specification |
| `EgressRules.PatchesCompose` | opensandbox_unified_bench/components/egress/policy_utils.go:61-86 | two patches are one patch with the later rules in front |
| `EgressRules.PatchedKeysAreUnique` | opensandbox_unified_bench/components/egress/policy_utils.go:61-86 | after a non-empty patch keys are unique |
| `EgressRules.PatchWinsBaseFillsIn` | opensandbox_unified_bench/components/egress/policy_utils.go:61-120 | each key resolves to its first patch rule, else its first base rule |
| `EgressRules.PatchKeepsFirsts` | opensandbox_unified_bench/components/egress/policy_utils.go:61-86 | a patched list is the patch followed by the base, in order, without every rule whose key came up before |
| `EgressRules.PatchIsIdempotent` | opensandbox_unified_bench/components/egress/policy_utils.go:61-86 | patching twice with the same rules is patching once |
| `EgressRules.RemoveRulesByTarget` | opensandbox_unified_bench/components/egress/policy_utils.go:91-112 | the loop splits the rules by the cleaned targets |
| `EgressRules.DeletionRemovesExactlyNamed` | opensandbox_unified_bench/components/egress/policy_utils.go:91-112 | a rule is removed if and only if some target, trimmed and in lower case, is not empty and is its target in lower case; kept and removed rules stay in order |
| `EgressRules.DeletionForgetsOnlyTargets` | opensandbox_unified_bench/components/egress/policy_utils.go:91-112 | named keys are forgotten, all others resolve as before |
| `EgressRules.DeletionPartitionsRules` | opensandbox_unified_bench/components/egress/policy_utils.go:91-112 | no rule is lost between kept and removed |

## Left out

- API client, JSON encoding of annotations, conflicts and retries: a write succeeds as a whole or changes nothing. A write that is applied but reported as failed is not modelled.
- Informer lag: a reconcile reads fresh objects. The resource version expectation is kept only inside one reconcile, where a status write makes the runtime patch wait for the next pass; its ten-second safety valve is left out.
- Other reconciles of the same sandbox in parallel: one reconcile at a time, as the work queue guarantees.
- Creating a new sandbox under the name of one whose sync is still in flight, pool deletion with ClearAllocation, and the legacy allocation backfill are not steps of the allocation protocol.
- The recyclers themselves: their effect is a released pod that may or may not be offered again.
- Task scheduling, finalizers for task clean-up, expiry, pool assignment, shard patches, endpoint annotations and events of a BatchSandbox: whether tasks have stopped and whether scaling has settled are inputs of a reconcile.
- List, read and parse errors inside a reconcile: they end the pass before the next write, like a failing write.
- LifecycleController.FindReady: looks at the pods the sandbox owns and at its pool pods in use; pods found by label only, the pod of the first index looked up by name, and allocated pool pods already released are not looked for.
- Condition messages of the pause and resume handlers are shortened; the reasons are the source's.
- Validation of image references and of the VM state manifest (QemuRestore): the validated value, or its absence, is an input.
- QemuRestore.PodTemplate.InjectQEMURestore: says nothing about the half-edited template after an error, which every caller drops.
- Supervisor.Run: an environment that ends stands for a run observed so far; hooks, process control and the event log are inputs or left out, and the attempt and generation counters do not wrap.
- Supervisor.BackoffInRange: the random jitter is an arbitrary integer added before the clamp; floating-point rounding is not modelled.
- PoolUpdate.MaxUnavailableMeaning: percentages are scaled in exact arithmetic, without the rounding of floating point.
- PoolUpdate.RoundGuarantees: lists of 2^31 pods and more are excluded.
- PoolUpdate.ProgressIffLimitPositive: lists of 2^31 pods and more are excluded.
- Redaction.SingleValueCleansIff: speaks of one value; for several values with brackets there is only the sufficient condition of Redaction.RedactText.
- EgressRules.MergeEgressRules: lower-casing is a map on single characters and white space a predicate; length-changing Unicode mappings are not modelled.
- MitmRestart.DeathIsNeverMissed: speaks of runs before shutdown; generations do not wrap at 64 bits, and timing, health probes and the readiness gate's timeouts are arbitrary choices.
- SnapshotRecovery.NothingLostOrRepeated: container identities are distinct, as the container runtime gives them out.
- Gateway DNS counts, HTTP handlers, the periodic reload of always-rules, the benchmark programs, command line, configuration and telemetry: request plumbing and wrappers without a protocol of their own.
- Scaling of pools, eviction, pool status and snapshot creation itself.
