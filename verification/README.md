# Backend Autopilot: a verified model of its control plane

Backend Autopilot moves a unit of work from a plan to READY through durable execution jobs, git branches, recorded
evidence and gates. This project models that machinery in Dafny and proves what it promises, over every input, every
run and every interleaving of its services.

Verify it with `dafny verify dfyconfig.toml`.

## What is modelled

**Execution-job protocol.** `Jobs` holds the job record, the stall classifier and the construction of the next attempt;
`Protocol` has one step function per service operation on a shared store of jobs, runs, tasks and artifacts; `Events`
puts them into one state machine with arbitrary interleavings; `ControlPlane` is the services themselves, reading and
rewriting those records, each proved equal to its step, and `Promises` says what each of them promises its caller.
`JobInvariant`, `ResumeChains` and `Recovery` prove what every run keeps. `NameCollisions` proves exactly when that fails
for callers who use the resume marker, and `CollisionRuns` has two runs in which it does. `OperationIds` and `Backoff`
justify the shape of operation identifiers and the arithmetic of the back-off.

**Evidence and gates.** `Readiness` and `Gates` are the READY gate, `ReadySoundness` follows a READY task back to the
evidence recorded for its exact commit, `WithdrawnReports` is a run in which its manifest names another report,
`Environment` is one throwaway environment run and the comparison of two, `Supersession`, `HiddenTies` and
`EpicVerification` are the verdict over a whole epic. `EndToEnd` joins them: from a run of the environment to the epic.

**Branch continuity.** `BranchContinuity` has a commit graph, origin's branches, the stored jobs and runs and the runners,
with crashes anywhere between commit, push and record; `BranchRows` carries its results over to the job protocol.
`ExecutionRunner` is the main body of a runner with its error handler, `RunnerEvents` the same body as events of the
shared store.

**Parity.** `Json`, `Ordering`, `Normalize`, `Differing` and `Parity` compare two executions body by body.

**Canonical repository.** `CanonicalRepository` interleaves clients that read first and write later; `CanonicalStore` is
the service over its stored history.

**Two loops.** `WorkspaceRecovery` is the disposable-checkout recovery, `RepairProgress` the repeated-cause counter.

## How the model is built

- Every service operation is one atomic step. The enqueue operations of the source read the jobs in flight and write a
  job later; the model does not split them.
- What the outside answers (dispatch, GitHub, authorisation, git, containers, clocks, the independent reviewer) is a
  parameter, so each theorem holds for every answer.
- Instants are integer milliseconds. Jobs, runs and artifacts are identified by their position in the store, which is
  their order of creation. One project is modelled; operation identifiers are unique within a project.
- An operation identifier is a base text without the resume marker and what follows the first marker. `OperationIds`
  proves on the texts that this is faithful: the base of a derived identifier is the base it came from, and derived
  identifiers are equal exactly when base and attempt number are.
- Assumption: the execution runner of a job that was ended, or whose lease passed to another owner, writes nothing more.
  Its writes carry no fence in the source (`scripts/run-execution-job.ts:44-141`), while HTTP evidence is fenced by
  status and lease. The ninety-minute ceiling does not give this assumption: it is measured from the creation of an
  attempt, not from its dispatch. A runner's own error handler, which may fail a job it has just recorded as succeeded, is
  an event of the model.
- The in-memory stores are followed where the stores differ.
- Assumption: only the recorder writes HTTP verification reports and only the gate writes final manifests.
- Assumption: origin's task branches only fast-forward, commits that old rows recorded before they were pushed never
  become objects, what lands on a rebase branch is built on the base in its name, and nobody builds on a commit that
  never left the workspace it was made in.

## What the code does that one might not expect

- A caller's operation identifier may carry the resume marker. Then a resumed attempt can find its identifier taken. If
  its holder was never resumed, the pass throws after the job has ended, and the work is neither carried on nor stopped.
  If its holder is a due attempt, even an ended one of another task, that one is put in flight without any error, beside
  whatever that task is doing by now (`CollisionRuns`). `NameCollisions` has the exact conditions, in every store; the
  theorems of `JobInvariant` and `Recovery` over runs ask callers to name their operations without the marker.
- A claim does not look at the back-off: a waiting attempt can be claimed before it is due (`ResumeChains`). The back-off
  bound over runs is proved for runs without such claims, and a step starts an attempt early exactly when it is one.
- A stored job that had ended can still get a new write time, when a pass learns its run's address late. Nothing else of
  an ended job changes, with one exception: an error after a runner recorded its job as succeeded makes the handler record
  it as failed or blocked (`scripts/run-execution-job.ts:129-140`). Over every run that is the only exception
  (`JobInvariant.EndedJobsStayExactlyWhen`).
- Saving a run under an operation that already has one stores nothing (`packages/project-registry/src/memory-store.ts:41`),
  and the launch does not look at the answer (`packages/core/src/async-execution.ts:81`): its job then names a run that was
  not stored (`JobInvariant.LaunchOutcome`).
- A transfer whose target base already carries the work pushes nothing and records a commit all the same
  (`scripts/run-execution-job.ts:98-103`). So a job can name a branch that origin never had, and the next transfer may
  start from it (`BranchContinuity.AlreadyIntegratedNamesAbsentBranch`). When the build wrapper had to be repaired on top,
  the recorded commit itself exists nowhere (`BranchContinuity.RepairedTransferNamesNoCommit`), although the comment at
  lines 86-90 says that only pushed commits are recorded as published.
- Healing a fast-forwarded branch does not survive its own job: the runner keeps the value it was given and its next
  write puts it back (`BranchContinuity.HealingIsOverwritten`). The invariant holds all the same.
- A READY manifest can cite a withdrawn, unproven report, because the citation does not ask for availability while the
  gate does (`Gates.CitesWhatOpenedTheGate`, `WithdrawnReports`).
- An error after the work was done leaves a failed job beside a succeeded run (`ExecutionRunners.FailedJobOfASucceededRun`).
- The tie check of supersession compares preferred candidates only: two standing replacements at different depths are no
  conflict (`HiddenTies`); declarations that form chains hide none (`HiddenTies.ChainsHideNoTie`). A replacement that lists
  its target twice is reported as an ambiguity, though nothing competes with it
  (`Supersession.RepeatedDeclarationIsATie`): relationships are a plain array (`packages/schemas/src/index.ts:227`).
- Members are dropped from judgement by external key, so a member that shares the key of a superseded one would not be
  judged (`EpicVerification.SharedKeyIsNotJudged`); the stores refuse equal keys in one project
  (`packages/project-registry/src/memory-store.ts:27`).
- Rollbacks of the canonical binding alternate between the last two bindings and never reach an older one.
- Passing evidence at the head outweighs failing evidence of the same dimension, whatever their order: that is what makes
  the epic verdict monotone in its evidence.

## Model

| member | source | states |
|---|---|---|
| JobInvariant.RunKeepsJobs | packages/core/src/stall-recovery.ts:77-155 | after any interleaving of enqueues, claims, runner writes, evidence, cancellations and reconciler iterations, no two jobs of one task are in flight, operation ids are unique, every resume link is sound, and a job that ended stays ended with its identity |
| JobInvariant.StepKeepsJobs | packages/core/src/async-execution.ts:144-153 | each single operation keeps that invariant, provided callers name their own operations without the resume marker |
| JobInvariant.EndedJobsStayExactlyWhen | scripts/run-execution-job.ts:129-140 | over every run: each step leaves every ended job as it ended, but for its write time, exactly when no runner's error handler fails a job that had been recorded as succeeded |
| JobInvariant.NextIdIsFree | packages/core/src/stall-recovery.ts:51 | the operation id of an active job's next attempt belongs to no stored job, so creating it never returns somebody else's job |
| JobInvariant.ResumeKeeps | packages/core/src/stall-recovery.ts:102-121 | ending an active job and appending its next attempt keeps the invariant, and the new id is free |
| JobInvariant.ReconcileKeeps | packages/core/src/stall-recovery.ts:82-135 | one reconciler iteration keeps the invariant, changes nothing of an ended job but its write time, and never throws |
| JobInvariant.ResumedJobs | packages/core/src/stall-recovery.ts:102-134 | a resumed stall ends the old job with an inactive status first and adds exactly one job after it |
| JobInvariant.LateEvidenceChangesNothing | packages/ephemeral-environment/src/http-e2e-job.ts:385-389 | evidence recorded for a job that had ended at any earlier moment of a run leaves the whole store unchanged |
| ResumeChains.ChainCounts | packages/core/src/stall-recovery.ts:38-57 | along a resume chain the root, its operation and the origin of the work stay fixed, attempts count 0, 1, 2, ..., and every attempt but the last has ended |
| ResumeChains.ChainIdsDistinct | packages/core/src/stall-recovery.ts:51 | no two attempts of a chain share an operation id |
| ResumeChains.StreakIsTrailingRun | packages/core/src/stall-recovery.ts:39 | the counter carried from attempt to attempt is the length of the longest constant suffix of the causes along the chain |
| Common.TrailingRunIsLongestConstantSuffix | packages/core/src/repair-progress.ts:79-82 | the trailing run is the longest suffix of equal elements: all of it equals the last one and one more does not |
| ResumeChains.StartsNoEarlierThanBound | packages/core/src/stall-recovery.ts:37-42 | over whole runs with a monotone clock, the n-th attempt of a same-cause streak starts no earlier than its not-before time, which is at least the closed-form wait after the streak's first stall |
| ResumeChains.RunKeepsBackoff | packages/core/src/stall-recovery.ts:88-95 | every reachable state keeps: each attempt's not-before time respects the bound, and an attempt under way was allowed to start |
| ResumeChains.StartsOnlyWhenDue | packages/core/src/stall-recovery.ts:88-93 | a step starts an attempt before it is due exactly when it is a claim of a still waiting attempt |
| ResumeChains.WaitingAttemptsAreClaimable | packages/project-registry/src/memory-store.ts:53 | the claim ignores the back-off: a waiting attempt without a lease can be claimed early |
| ResumeChains.DeferralsOnlyMoveLater | packages/core/src/stall-recovery.ts:148-153 | no event moves a stored attempt's not-before time earlier; refused dispatches only move it later |
| Backoff.LeastWaitStep | packages/core/src/stall-recovery.ts:24-31 | the closed form 15*(2^(n-1)-1), then 465+360*(n-6), is the sum of the delays attempt by attempt |
| Backoff.DelayGrowsToCeiling | packages/core/src/stall-recovery.ts:28-31 | delays never shrink as a cause repeats and reach the six-hour ceiling exactly from the seventh stall on |
| OperationIds.BaseOfResumed | packages/core/src/stall-recovery.ts:51 | resuming a resumed operation keeps its base text, so markers never pile up |
| OperationIds.ResumedExactly | packages/core/src/stall-recovery.ts:51 | two derived ids are equal exactly when base and attempt number are |
| OperationIds.CollidesExactly | packages/core/src/stall-recovery.ts:51 | a caller's own id equals a derived one exactly when it carries the marker, the base and the decimal number |
| OperationIds.FirstMarker | packages/core/src/stall-recovery.ts:51 | splitting at the first marker recovers the base it was appended to |
| Jobs.GivenUpExactlyAfterDeadline | packages/core/src/execution-reconciliation.ts:63-137 | the whole classifier is one deadline: an active job is ended exactly after it, an ended one is ignored |
| Jobs.GivingUpIsFinal | packages/core/src/execution-reconciliation.ts:63-137 | a TERMINALIZE decision stays one at every later time with the same, never active, status; only a hard timeout may turn into a lapsed lease |
| Jobs.NoViewOutlivesTheCeiling | packages/core/src/execution-reconciliation.ts:63-137 | an active job ninety minutes past both its queue time and its last write is ended whichever view is available |
| Recovery.PassConserves | packages/core/src/stall-recovery.ts:77-137 | a whole reconciler pass never throws and leaves every task either with the same work in flight and its state and run untouched, or stopped |
| Recovery.PassConservesInEveryRun | packages/core/src/stall-recovery.ts:77-137 | that conservation holds in every state a run reaches |
| Recovery.IterationConserves | packages/core/src/stall-recovery.ts:82-135 | the same for one iteration |
| Recovery.ConcludeConserves | packages/core/src/stall-recovery.ts:102-134 | a resumable stall leaves an active job of the same kind, payload, branch, base, published commit and run; a non-resumable one leaves nothing in flight, its run closed and no task implementing |
| Recovery.ConservesChains | packages/core/src/stall-recovery.ts:77-137 | conservation composes across iterations |
| Recovery.PassEndsStalls | packages/core/src/stall-recovery.ts:80-105 | every listed job that is stalled when the pass reaches it has ended when the pass is over |
| Recovery.IterationTouchesOne | packages/core/src/stall-recovery.ts:82-135 | an iteration rewrites only the listed job, within its identity and work |
| Recovery.StepKeepsRuns | packages/core/src/async-execution.ts:80-93 | every job's run is stored and belongs to the job's task, whatever happens; a job whose operation already had a run reads as having none |
| NameCollisions.ContinuesExactlyWhenNameIsFree | packages/core/src/stall-recovery.ts:102-134 | in any store, however callers name their operations: a resumable stall ends its job; with the derived id free one new attempt of the same work is appended, with it held by a due attempt that one is put in flight even if it had ended, and otherwise nothing more happens and the pass throws exactly when the holder was never resumed |
| NameCollisions.KeepsOneInFlightExactlyWhen | packages/core/src/stall-recovery.ts:102-134 | in any store with one job in flight per task, an iteration keeps that exactly unless the derived id is held by a due attempt whose task has another job in flight |
| NameCollisions.ConservesExactlyWhen | packages/core/src/stall-recovery.ts:102-134 | in any such store an iteration carries on or stops each task's work exactly when a resumable stall finds its derived id free, or held by a due attempt of the same work, or has nothing left to lose: its run closed, its task not implementing, and a revived holder's task in flight already |
| NameCollisions.OneInFlightExactlyInRunsThatReviveNothing | packages/core/src/stall-recovery.ts:77-155 | over every run, with no condition on names: no task ever has two jobs in flight exactly when no event of the run revives an attempt of a task that moved on |
| NameCollisions.ConservesExactlyWhenInEveryRun | packages/core/src/stall-recovery.ts:77-137 | in every state of a run that revived nothing, the next iteration conserves work under exactly that condition |
| CollisionRuns.MarkedNameLosesWork | packages/core/src/stall-recovery.ts:121-122 | a concrete run with a marked caller id: the pass throws, the job has ended, its run stays open and its task implementing |
| CollisionRuns.MarkedNamePutsTwoInFlight | packages/core/src/stall-recovery.ts:121-134 | a concrete run with a marked caller id: nothing throws, one task ends up with two jobs in flight, and the other task's work is gone |
| ControlPlanes.ControlPlane.RecoverStalledWork | packages/core/src/stall-recovery.ts:77-137 | the loop over active jobs equals the pass of the specification, results included, and stops where an iteration throws; with plainly named jobs it never throws, conserves every task's work, keeps the job invariant, and leaves none of the jobs alive that it found stalled |
| ControlPlanes.ControlPlane.ReconcileJob | packages/core/src/stall-recovery.ts:82-135 | the imperative iteration equals its specification; with plainly named jobs it throws nothing, conserves every task's work and keeps the job invariant |
| ControlPlanes.ControlPlane.Enqueue | packages/core/src/async-execution.ts:57-112 | accepted means the task had nothing in flight and has exactly the new job now; a replay names the job that has the operation id; a replay and every refusal before the dispatch change nothing, except that an unresolved base blocks the task; a refused dispatch leaves nothing in flight and no open run; other jobs and tasks stay and no task gets a second job in flight |
| ControlPlanes.ControlPlane.EnqueueTransfer | packages/core/src/async-execution.ts:113-144 | the same promise for a rebase: accepted only with nothing in flight, refusals change nothing, others untouched |
| ControlPlanes.ControlPlane.EnqueueVerification | packages/ephemeral-environment/src/http-e2e-job.ts:101-188 | the same promise for HTTP verification, whose job is pinned to one commit |
| ControlPlanes.ControlPlane.PublishedCommit | packages/core/src/async-execution.ts:89-91 | the forward scan finds the commit of the newest job of the task that published on this branch |
| ControlPlanes.ControlPlane.HasJobInFlight | packages/core/src/async-execution.ts:150-153 | the check is true exactly when the task has a job in an active status |
| ControlPlanes.ControlPlane.ClaimExecutionJob | packages/project-registry/src/memory-store.ts:53 | only an active job that nobody else holds is claimed; afterwards any other owner can claim it exactly once the lease has run out |
| ControlPlanes.ControlPlane.CancelExecutionJob | packages/superadmin/src/index.ts:527 | a live job ends as cancelled with its run closed; an ended one, every other job, task and artifact stays, and no task gets a second job in flight |
| ControlPlanes.ControlPlane.Prepare | packages/ephemeral-environment/src/http-e2e-job.ts:224-279 | only a live verification job is touched: it ends up running for this owner without any artifact written, or failed with exactly one report, not proven, of its own task and pinned commit |
| ControlPlanes.ControlPlane.Record | packages/ephemeral-environment/src/http-e2e-job.ts:381-438 | exactly the lease holder of a running verification job ends it, with exactly one report of its own task and pinned commit, proven exactly for well-formed proven evidence; anybody else changes nothing |
| ControlPlanes.ControlPlane.TaskReview | packages/core/src/application.ts:647-745 | jobs, runs, other tasks and stored artifacts stay; the task becomes READY only on a manifest of the very commit for which the gate was met |
| ControlPlanes.ControlPlane.TaskCompleteVerification | packages/core/src/application.ts:753-772 | the task becomes READY exactly when it was verifying and the whole gate is met, on a manifest of that commit |
| ControlPlanes.ControlPlane.TaskBlockers | packages/core/src/task-readiness.ts:166-228 | no blockers exactly when the gate is met; only verification blockers exactly when verification alone is owed |
| Protocol.LeasesExclude | packages/project-registry/src/memory-store.ts:53 | while a claimed lease runs nobody else can claim the job; once it has run out anybody can, and the holder always can |
| Protocol.NextAttemptStartsClean | packages/core/src/stall-recovery.ts:38-57 | the next attempt carries the work and its published commit, none of the lifecycle or the unpublished commit, and is claimable afresh |
| Protocol.InheritedCommit | packages/core/src/async-execution.ts:82-91 | the inherited commit is the one of the newest job that published on exactly this branch, and none exactly when no job did |
| JobInvariant.LaunchOutcome | packages/core/src/async-execution.ts:80-110 | a refused dispatch leaves nothing in flight and no open run; an accepted one leaves exactly its own job, with a run of its own exactly when no stored run had the operation id |
| Recovery.CarriedByExactlyOne | packages/core/src/stall-recovery.ts:77-137 | work that a pass does not stop is carried afterwards by exactly one job |
| Readiness.GateBlockers | packages/core/src/task-readiness.ts:189-228 | each blocker is reported exactly for its reason, and none exactly when the gate is met |
| Readiness.FindLatestReport | packages/core/src/task-readiness.ts:96-110 | the backward search finds the newest report of the commit |
| Readiness.LatestReport | packages/core/src/task-readiness.ts:96-110 | a found report is of that commit and no later one is; none found means none exists |
| Readiness.FindExactCi | packages/core/src/task-readiness.ts:117-131 | true exactly when an available report is successful for exactly the latest commit |
| Gates.CitesWhatOpenedTheGate | packages/core/src/application.ts:796-818 | a READY manifest cites the report that opened the gate exactly when no report of the commit, available or not, stands after that one |
| Gates.NewestIsProvenExactlyWhen | packages/core/src/task-readiness.ts:96-110 | with the gate open, the newest report of all is proven exactly when every withdrawn unproven report of the commit is followed by a proven one |
| ReadySoundness.ReadyIsSound | packages/core/src/application.ts:699-745 | end to end over any run: READY under external CI has an exact successful CI report for the manifest's commit, and where owed the newest available report of it is proven and was recorded by the lease holder of a running job pinned to it |
| ReadySoundness.NewestReportIsProvenExactlyWhen | packages/core/src/application.ts:796-818 | the report that a new READY task's manifest names, the newest of all, is proven exactly when every withdrawn failure of the commit is followed by a proof |
| WithdrawnReports.MayCiteAWithdrawnFailure | packages/core/src/application.ts:796-797 | a concrete run: verified, verified again without success, the second report withdrawn; the task becomes READY and its manifest names the withdrawn failure |
| ReadySoundness.ReadyOnlyThroughTheGate | packages/superadmin/src/index.ts:472-473 | READY is entered only by review or completed verification, with a manifest of the very commit the gate was met for |
| ReadySoundness.RunKeepsReports | packages/ephemeral-environment/src/http-e2e-job.ts:326-361 | in every run each job yields at most one report, of the commit it was pinned to, and a proven one only from a job that succeeded |
| ReadySoundness.ProvenReportsWereRecorded | packages/ephemeral-environment/src/http-e2e-job.ts:381-389 | every proven report in a run's store was recorded in that run, well-formed, by the lease holder of a running job pinned to its commit |
| ReadySoundness.NewReportKeeps | packages/ephemeral-environment/src/http-e2e-job.ts:416-428 | a live verification job ends together with the one report written for it |
| ReadySoundness.ReadyIsReachable | packages/ephemeral-environment/src/http-e2e-job.ts:381-438 | a concrete run in which recorded evidence opens the gate for a waiting task, so the soundness statement is not empty |
| EndToEnd.SubmittedProofExactlyWhen | packages/ephemeral-environment/src/http-e2e-job.ts:391-415 | a submission is well-formed and proven exactly when its file arrived whole and the environment run behind it passed in everything planned, beside its reference too and behaving the same |
| EndToEnd.ReadyStandsOnRuns | packages/core/src/application.ts:699-772 | over every run: a task READY at the end was made READY at some step, on an exact CI report of the manifest's commit and, where owed, on an earlier environment run that had checked out that very commit and in which everything planned passed |
| EndToEnd.PassingEpicStandsOnRuns | packages/core/src/epic-verification.ts:253-437 | when an epic passes, every member that no other supersedes is READY in the store on those grounds |
| ExecutionRunners.RunnerIsQuiescent | scripts/run-execution-job.ts:44-141 | after success or an error at any point the job is terminal, its run is not running and its task is neither testing nor reviewing; success means READY or VERIFYING |
| ExecutionRunners.FailedJobOfASucceededRun | scripts/run-execution-job.ts:114-141 | a job is recorded failed while its run succeeded exactly when an error comes after the run was closed |
| ExecutionRunners.ExecutionRunner.Execute | scripts/run-execution-job.ts:44-141 | the main body with its error handler equals the specification, and leaves the job terminal, its run not running and its task neither testing nor reviewing |
| ExecutionRunners.ExecutionRunner.Handle | scripts/run-execution-job.ts:130-141 | afterwards the job is terminal, its run not running, and only a task stranded in testing or reviewing was moved, to blocked |
| RunnerEvents.ExecuteOn | scripts/run-execution-job.ts:44-141 | as events of the shared store the body and its handler leave job, run and task where the specification says, with the gate taken from the store; a job just recorded as succeeded included, which an error after that ends as failed or blocked |
| RunnerEvents.RunnerLeavesNothingHalfway | scripts/run-execution-job.ts:44-141 | whatever fails and wherever, what the runner does is a run of the store's events that keeps the job invariant and ends with the job terminal, its run not running and its task neither testing nor reviewing |
| BranchContinuity.RunKeeps | scripts/run-execution-job.ts:86-103 | over every run, crashes between commit and push included, each commit recorded on a job or run is an old identifier of nothing, or one that origin carried on exactly that branch, or the base of a rebase branch or an unpushed repair on it; on a task branch it is an ancestor of the origin head, and task branches only gain commits |
| BranchContinuity.RecordedIsCarriedExactlyWhen | scripts/run-execution-job.ts:98-103 | in every state of a run, origin carried a recorded commit on the row's own branch exactly when it is not the repair of a transfer that pushed nothing and origin ever had that branch |
| BranchContinuity.RecordingIsCarriedExactlyWhen | scripts/run-execution-job.ts:101-102 | when a runner records its commit, origin carried it on that branch exactly when it was pushed, or it is the unrepaired base of a branch that an earlier attempt left behind |
| BranchContinuity.AlreadyIntegratedNamesAbsentBranch | scripts/run-execution-job.ts:233-244 | a concrete transfer of work its base already carries: the job names a branch that origin never had |
| BranchContinuity.RepairedTransferNamesNoCommit | scripts/run-execution-job.ts:85-102 | the same transfer with a repair of the build wrapper: the job records as published a commit that no branch of origin has |
| BranchContinuity.AbsentBranchIsOffered | packages/superadmin/src/rebase-eligibility.ts:93-120 | the run written beside it is enough for the next transfer to start from the absent branch |
| BranchContinuity.NeverDiverged | packages/execution-engine/src/branch-continuity.ts:25-41 | a checkout of an existing task branch never finds it diverged; it matches, moved on, or names a commit that never was, and which one is determined |
| BranchContinuity.AdoptingTheHeadLosesNothing | packages/execution-engine/src/branch-continuity.ts:25-41 | every commit recorded for a task branch at any moment is contained in the head any later checkout starts from |
| BranchContinuity.HealingIsOverwritten | scripts/run-execution-job.ts:145-170 | the healed commit is put back to the stale value by the same job's next write, because the runner keeps its own copy |
| BranchContinuity.InheritedIsRecorded | packages/core/src/async-execution.ts:82-91 | the commit a new job inherits satisfies the invariant of the branch it will check out |
| BranchContinuity.PushKeeps | scripts/run-execution-job.ts:101 | a push, accepted or not, keeps the invariant, and task branches only advance |
| BranchRows.RowsFollow | packages/core/src/async-execution.ts:82-91 | every operation of the job protocol other than a runner's own write does to branch, published and attempted commit of the jobs what the branch events do to the rows |
| BranchRows.StoredCommitsAreCarried | scripts/run-execution-job.ts:86-103 | so in every run of the job protocol beside its branches each commit stored on a job satisfies the branch invariant |
| CanonicalRepository.RunKeepsChain | packages/canonical-repository/src/service.ts:96-141 | under any interleaving of clients that read and later write, versions are exactly 1..n, record k supersedes record k-1, only the newest is ACTIVE, and stored bindings are never rewritten |
| CanonicalRepository.StaleWritersChangeNothing | packages/core/src/ports.ts:3-22 | a writer whose read is older than the newest binding changes nothing |
| CanonicalRepository.WriteLandsExactlyWhenCurrent | packages/project-registry/src/memory-store.ts:84-97 | a write lands exactly when the binding its writer saw is still current and its operation is new |
| CanonicalRepository.PromotionLandsExactlyWhen | packages/canonical-repository/src/service.ts:96-141 | a promotion lands exactly when its client's read is current, the plan is free of blockers, head and version are as confirmed, and the operation is new |
| CanonicalRepository.RollbackLandsExactlyWhen | packages/canonical-repository/src/service.ts:174-219 | a rollback lands exactly when its client's read is current, there is an earlier binding, its resource is usable, the version is as confirmed, and the operation is new |
| CanonicalRepository.PromoteKeepsChain | packages/canonical-repository/src/service.ts:96-141 | a promotion that lands extends the chain by the confirmed version, head and resource |
| CanonicalRepository.RollbackKeepsChain | packages/canonical-repository/src/service.ts:174-223 | a rollback that lands restores the binding before the current one as a new newest binding |
| CanonicalRepository.TwoRollbacksRestore | packages/canonical-repository/src/service.ts:174-223 | two rollbacks in a row restore resource, default branch and canonical commit |
| CanonicalRepository.RollbacksAlternate | packages/canonical-repository/src/service.ts:187-188 | any number of rollbacks only alternates between the last two bindings |
| CanonicalRepository.ReadyPlanExactlyWhen | packages/canonical-repository/src/promotion.ts:36-84 | a plan is free of blockers exactly when project, candidate, description, head and history all allow the promotion |
| CanonicalStores.BuildPlan | packages/canonical-repository/src/promotion.ts:36-84 | the accumulated blockers equal the specification in order |
| CanonicalStores.CanonicalStore.ReplaceActive | packages/project-registry/src/memory-store.ts:84-97 | the store primitive lands only when the expected binding is current and the operation new, the record being the newest then, and leaves the history alone when it refuses |
| CanonicalStores.CanonicalStore.PromoteRepository | packages/canonical-repository/src/service.ts:96-141 | blocked before stale, then the locked write; for a client that read an earlier state the chain is kept, and a promotion that lands extends the very history it read by the confirmed head and resource |
| CanonicalStores.CanonicalStore.RollbackRepository | packages/canonical-repository/src/service.ts:174-223 | the refusals in order, down to a missing, inactive or unreadable target, then the locked write; the chain is kept, and a rollback that lands restores the binding before the current one |
| Supersession.Supersede | packages/core/src/epic-verification.ts:64-135 | the index, the chain walks and the partition equal the specification, on every relationship graph |
| Supersession.FollowChain | packages/core/src/epic-verification.ts:85-122 | the walk of one member terminates and ends where the specification says |
| Supersession.ResolveIsSound | packages/core/src/epic-verification.ts:85-122 | a replacement stands itself and is reached by a chain of declarations; a reported cycle is one that the member's own chain leads into, a reported tie is at a tied place on that chain |
| Supersession.TieReportedExactlyWhen | packages/core/src/epic-verification.ts:90-105 | a place is reported as tied from itself exactly when two different members may take it, or one that may declares it more than once |
| Supersession.AmbiguityReportedExactlyWhen | packages/core/src/epic-verification.ts:90-105 | over the whole epic the places reported as tied are exactly the members that are |
| Supersession.RepeatedDeclarationIsATie | packages/core/src/epic-verification.ts:69-79 | a concrete epic: one replacement that lists its target twice is reported as an ambiguity though nothing competes with it |
| Supersession.StandsExactlyWhenUnchallenged | packages/core/src/epic-verification.ts:85-122 | a decided member stands exactly when no other member supersedes it |
| Supersession.EffectiveExactlyWhenUnchallenged | packages/core/src/epic-verification.ts:124-135 | with no conflict reported a member is effective exactly when no other member of the epic supersedes it |
| Supersession.ResolutionPartitions | packages/core/src/epic-verification.ts:124-135 | effective and superseded members partition the epic |
| HiddenTies.NoHiddenTieExactlyWhen | packages/core/src/epic-verification.ts:90-105 | with no conflict reported, every standing member that a superseded one reaches is its own replacement exactly when at each member all candidates, not only the preferred ones, resolve to the same standing member |
| HiddenTies.ChainsHideNoTie | packages/core/src/epic-verification.ts:90-105 | from the declarations alone: when they never lead back to a member, and of any two members that replace the same one one replaces the other, no tie stays hidden |
| HiddenTies.DeeperTieIsNotReported | packages/core/src/epic-verification.ts:90-105 | a concrete epic where two standing members replace a third through chains of different length and no conflict is reported |
| Supersession.SameRelationsSameStanding | packages/core/src/epic-verification.ts:64-135 | standings depend on identifiers and declarations only |
| EpicVerification.Verify | packages/core/src/epic-verification.ts:253-437 | the findings and the blockers in reporting order equal the specification |
| EpicVerification.PassesExactlyWhen | packages/core/src/epic-verification.ts:253-437 | an epic passes exactly when its composition is decidable, its judged members are ready, planned and not known to be missing, and all it owes is shown at the head |
| EpicVerification.DimensionStatus | packages/core/src/epic-verification.ts:297-369 | a dimension passes exactly when a counted row passed at the head, and blocks exactly when it is owed and none did |
| EpicVerification.EvidenceElsewhereIsIgnored | packages/core/src/epic-verification.ts:289-301 | rows at another commit or from another repository change nothing in the verdict |
| EpicVerification.MoreEvidenceNeverBlocks | packages/core/src/epic-verification.ts:297-369 | adding rows never turns PASS into BLOCKED, for the epic and per dimension |
| EpicVerification.SupersededMembersAreIgnored | packages/core/src/epic-verification.ts:253-287 | state, plan, artifacts and ancestry of superseded members change no finding, blocker or trust |
| EpicVerification.JudgedExactlyEffectiveWhen | packages/core/src/epic-verification.ts:280-285 | the members judged are exactly the effective ones exactly when no member that composes the epic carries the external key of a superseded one |
| EpicVerification.PassingEpicIsSettled | packages/core/src/epic-verification.ts:280-285 | in a passing epic every member no other supersedes is ready, planned and not known to be missing |
| EpicVerification.SharedKeyIsNotJudged | packages/core/src/epic-verification.ts:281 | a member carrying the key of a superseded one is never judged |
| EpicVerification.TrustMeans | packages/core/src/epic-verification.ts:401-412 | CI_VERIFIED exactly when the passing sources are the trusted CI alone; NONE and MIXED likewise |
| Normalize.NormalizeIdempotent | packages/ephemeral-environment/src/parity.ts:95-111 | normalising twice changes nothing, with and without a key |
| Normalize.NormalizeCanonical | packages/ephemeral-environment/src/parity.ts:109 | bodies that differ only in member order, at any depth, normalise to the same tree |
| Normalize.NormalizedIsInNormalOrder | packages/ephemeral-environment/src/parity.ts:109 | at every depth of a normalised tree the names are distinct and in the order a JavaScript object keeps them: array indices first, by number, then all others by UTF-16 code unit |
| Normalize.NormalOrderIsUnique | packages/ephemeral-environment/src/parity.ts:115 | on such trees equality up to member order is equality |
| Json.SerializeInjective | packages/ephemeral-environment/src/parity.ts:115 | comparing serialised texts is comparing values |
| Json.SerializePrefixFree | packages/ephemeral-environment/src/parity.ts:115 | no serialised value is a proper prefix of another, whatever follows |
| Differing.DifferingPaths | packages/ephemeral-environment/src/parity.ts:114-133 | the recursive loops compute the specified list |
| Differing.EmptyExactlyWhenSame | packages/ephemeral-environment/src/parity.ts:114-133 | the list is empty exactly when the two values are the same up to member order |
| Differing.NeverBeyondLimit | packages/ephemeral-environment/src/parity.ts:114-133 | never more than the limit |
| Differing.EveryPathDiffers | packages/ephemeral-environment/src/parity.ts:114-133 | every reported path really holds different values on the two sides, and what is shown is what they hold, or that one is absent |
| Differing.SwapMirrors | packages/ephemeral-environment/src/parity.ts:114-133 | searching with the sides exchanged reports the same paths in the same order, with what they show exchanged |
| Parity.CompareExecutions | packages/ephemeral-environment/src/parity.ts:139-178 | the counting loops compute the specified report, differences with both shown sides included |
| Parity.PairsMirror | packages/ephemeral-environment/src/parity.ts:149-167 | comparing a pair of steps the other way round reports the same kinds of disagreement at the same paths, with the two sides exchanged |
| Parity.MatchExactlyWhenSameBehaviour | packages/ephemeral-environment/src/parity.ts:139-178 | MATCH exactly when both runs have the same step keys and each pair agrees on outcome, status, content type and normalised body, neither truncated |
| Parity.MatchIsSymmetric | packages/ephemeral-environment/src/parity.ts:139-178 | MATCH does not depend on which run is the reference |
| Parity.MatchIsTransitive | packages/ephemeral-environment/src/parity.ts:139-178 | MATCH is transitive |
| Parity.MatchIsReflexiveExactlyWhenComplete | packages/ephemeral-environment/src/parity.ts:160-162 | a run matches itself exactly when none of its bodies was truncated |
| Parity.CountsAddUp | packages/ephemeral-environment/src/parity.ts:149-167 | matched plus differing reference steps equals compared steps |
| Parity.DifferenceCountSymmetric | packages/ephemeral-environment/src/parity.ts:170-177 | the difference count does not depend on which run is the reference |
| Parity.BodiesDifferExactly | packages/ephemeral-environment/src/parity.ts:163-165 | a body difference is reported exactly when the normalised bodies differ |
| Environment.VerdictIsHonest | packages/ephemeral-environment/src/executor.ts:161-181 | on every returning run: not proven exactly with a failure class, at most one failed step and it is the last, proven exactly when everything planned passed in order |
| Environment.TeardownIsComplete | packages/ephemeral-environment/src/executor.ts:219-346 | however the run ends, an attempted environment is torn down exactly once with every container that was started |
| Environment.NothingLeaks | packages/ephemeral-environment/src/executor.ts:344-346 | what is torn down is exactly what the attempted items left running |
| Environment.ThroughShape | packages/ephemeral-environment/src/executor.ts:228-343 | the recorded steps are the planned ones up to the first that does not pass |
| Environment.ExecuteEnvironment | packages/ephemeral-environment/src/executor.ts:135-347 | the phases with their early returns equal the specification |
| Environment.ProvisionDependencies | packages/ephemeral-environment/src/executor.ts:228-259 | start and readiness of each dependency in order |
| Environment.AwaitAnswer | packages/ephemeral-environment/src/executor.ts:299-329 | the health loop ends answered, exited or unanswered as specified |
| Environment.HealthMeans | packages/ephemeral-environment/src/executor.ts:299-331 | unanswered exactly when every round is waited through; otherwise the first other round decides, and an answer below 500 wins |
| Environment.ExecuteComparison | packages/ephemeral-environment/src/executor.ts:412-441 | both runs, the parity report and the precedence of failures |
| Environment.ComparisonProvenExactlyWhen | packages/ephemeral-environment/src/executor.ts:412-441 | proven exactly when both runs are proven and behaved the same |
| WorkspaceRecovery.EnsureCleanWorkspace | packages/execution-engine/src/disposable-workspace.ts:85-132 | for every sequence of answers: returned workspaces were inspected clean last, each dispose follows the quarantine of that directory, creates stay within the bound, quarantines count attempts, and a clean reused checkout is only looked at |
| WorkspaceRecovery.CarefulMeans | packages/execution-engine/src/disposable-workspace.ts:118-122 | a careful journal never destroys what it has not kept evidence of |
| RepairProgress.FingerprintForgetsOrder | packages/core/src/repair-progress.ts:27-39 | reordering suites, seeds or failed tests keeps the fingerprint |
| RepairProgress.MeasureProgress | packages/core/src/repair-progress.ts:58-82 | the collected fingerprints and the backward scan equal the specification |
| RepairProgress.ScanBack | packages/core/src/repair-progress.ts:80-81 | the backward scan counts the trailing run |
| RepairProgress.StagnatingExactlyWhen | packages/core/src/repair-progress.ts:82 | stagnation is exactly three or more failures whose newest three share one cause |

## Left out

- JobInvariant.LaunchOutcome: the in-memory store is followed; the PostgreSQL store, where such a launch's later update of its run changes no row, is not modelled apart.
- Jobs.Resumable: causes that come from GitHub conclusions are values of an enumeration, so upper-casing of unusual texts is not modelled.
- Recovery.PassConserves: a pass lists the active jobs once; the model takes that list as given and lets other events fall between iterations only through `Events`.
- ControlPlanes.ControlPlane.Enqueue: authorisation, secret detection and target resolution are one permission flag; dependency evidence is a parameter.
- ControlPlanes.ControlPlane.ClaimExecutionJob: follows the in-memory store; the PostgreSQL function also refuses a claim while another job of that task holds a live lease, which only narrows what can happen.
- Parity.CompareExecutions: path texts are sequences of steps, and reading the steps out of recorded reports is not modelled.
- Json.SerializeInjective: serialisation is to tokens, not characters; escaping is not modelled. Numbers are exact reals, while a body number beyond the range of JavaScript numbers, such as 1e400, is read as Infinity and written as null, so there equal texts are not equal values.
- Json.SerializePrefixFree: as for SerializeInjective, over tokens.
- Normalize.NormalizeCanonical: names are texts of whole characters, so names with an unpaired surrogate are not modelled.
- RepairProgress.FingerprintForgetsOrder: hash collisions, and texts that join to the same line, count as one cause; a character beyond the sixteen-bit range is hashed as one unit, not two.
- RepairProgress.MeasureProgress: the entries are given oldest first, as sorting by creation time leaves them, and the names of the failed tests are not part of the result.
- Environment.VerdictIsHonest: log tails, redaction, durations and schema validation of the evidence are not modelled.
- ExecutionRunners.RunnerIsQuiescent: nobody else moves the task while the runner's body is at work.
- RunnerEvents.ExecuteOn: a runner's status writes are followed; what it writes about branch and commits is the subject of BranchContinuity.
- BranchContinuity.NeverDiverged: branches are never deleted from origin, and rebase branches, which may be superseded, are not claimed to be continuous.
- BranchContinuity.RecordedIsCarriedExactlyWhen: any stored run may start a transfer, while the source asks for a succeeded run of the verified commit, which only narrows what can happen.
- BranchRows.StoredCommitsAreCarried: asks that branch names carry their task and that a runner writes to its job what it writes to the row.
- EndToEnd.ReadyStandsOnRuns: the workflow that carries the evidence file from the environment run to the recorder is a parameter: the file arrives whole, damaged, too large or not at all.
- EpicVerification.Verify: reasons, remediation texts and the listing of stale evidence and missing dimensions are not part of the result.
- EpicVerification.PassesExactlyWhen: as for Verify.
- CanonicalRepository.RunKeepsChain: generated binding identifiers are fresh; reports, audit rows and the read-back after a write are not modelled.
- Workflow policy, dependency assertions and the analysis and planning services: reduced to moves the table of states allows.
- Rebase mechanics (cherry-picks, conflict resolution, publication leases): the outcome is a parameter.
- Missions, exports, renames, handover and target resolution: separate services; an unfinished export is a parameter of the promotion plan.
- The operator console, tool registration and deployment scripts: presentation and wiring around the services modelled here.
- Regular-expression classifiers outside parity: their content is their patterns.
