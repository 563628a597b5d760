/** Everything that can happen to the store, and runs of it. */
module Events {
  import opened Common
  import opened Gates
  import opened Jobs
  import opened Protocol
  import opened Readiness
  import opened Records

  datatype Event =
    | ImplementationEnqueued(task: TaskId, op: OperationId, payload: Payload, permitted: bool, base: Base, start: Start)
    | RebaseEnqueued(
        task: TaskId, op: OperationId, payload: Payload, source: Branch, commit: Commit, original: Commit,
        permitted: bool, start: Start)
    | VerificationEnqueued(
        task: TaskId, op: OperationId, payload: Payload, pin: Option<Commit>, permitted: bool, start: Start)
    | JobClaimed(id: JobId, owner: Owner, expires: Instant)
    | RunnerWrote(id: JobId, owner: Owner, write: RunnerWrite)
    | SuccessOverwritten(id: JobId, owner: Owner, ending: JobStatus)
    | VerificationPrepared(id: JobId, owner: Owner, workflowRun: Option<nat>, ready: bool)
    | EvidenceRecorded(id: JobId, owner: Owner, submission: Submission)
    | JobCancelled(id: JobId)
    | Reconciled(id: JobId, view: Option<View>, newUrl: bool, start: Start)
    | TaskMoved(task: TaskId, to: TaskState)
    | TaskChanged(task: TaskId, repairAttempts: nat, plan: GatePlan)
    | RunSaved(task: TaskId, op: OperationId)
    | RunWritten(run: RunId, status: RunStatus, runCommit: Option<Commit>)
    | ArtifactWritten(artifact: Artifact)
    | ArtifactWithdrawn(artifactId: ArtifactId)
    | TaskReviewed(task: TaskId, passed: bool)
    | VerificationCompleted(task: TaskId)

  /** An execution runner's claim; HTTP verification claims through its own preparation. */
  function ClaimJob(s: Store, id: JobId, owner: Owner, expires: Instant, now: Instant): Store
  {
    if id >= |s.jobs| || s.jobs[id].kind == HttpE2e then s
    else
      var claimed := Claim(s.jobs[id], owner, expires, now);
      if claimed.None? then s else PutJob(s, id, claimed.value)
  }

  /**
   * The runner of a job that was ended or re-leased writes nothing more: an assumption, since its writes carry no
   * fence.
   */
  function RunnerWrites(s: Store, id: JobId, owner: Owner, w: RunnerWrite, now: Instant): Store
  {
    if id >= |s.jobs| || !RunnerMayWrite(s.jobs[id], owner, w) then s else PutJob(s, id, AfterWrite(s.jobs[id], w, now))
  }

  /**
   * The error handler of a runner that has just recorded its job as succeeded: a later error still ends it as failed.
   */
  predicate Overwrites(s: Store, id: JobId, owner: Owner, status: JobStatus)
  {
    && id < |s.jobs| && s.jobs[id].status == JobStatus.Succeeded && s.jobs[id].owner == Some(owner)
    && s.jobs[id].kind != HttpE2e && status in {JobStatus.Failed, JobStatus.Blocked}
  }

  function OverwriteSuccess(s: Store, id: JobId, owner: Owner, status: JobStatus, now: Instant): Store
  {
    if !Overwrites(s, id, owner, status) then s
    else
      var job := s.jobs[id];
      PutJob(s, id, AfterWrite(job, RunnerWrite(status, job.branch, job.commit, job.attempted, job.workflowRun), now))
  }

  /** Saving a run under an operation that already has one stores nothing. */
  function SaveRun(s: Store, task: TaskId, op: OperationId): Store
  {
    if RunNamed(s.runs, op) then s else s.(runs := s.runs + [Run(task, op, RunStatus.Running, None)])
  }

  /** READY is reached only through the gates; every other state is open to the ordinary moves. */
  function MoveTask(s: Store, task: TaskId, to: TaskState): Store
  {
    if task in s.tasks && to != Ready && Allowed(s.tasks[task].state, to) then SetState(s, task, to) else s
  }

  /** Verification reports and manifests are written only by the recorder and the gate. */
  function WriteArtifact(s: Store, a: Artifact): Store
  {
    if a.content.Verification? || a.content.Manifest? then s else Append(s, a)
  }

  ghost function Step(s: Store, e: Event, now: Instant): Store
  {
    match e
    case ImplementationEnqueued(task, op, payload, permitted, base, start) =>
      EnqueueImplementation(s, task, op, payload, permitted, base, start, now).store
    case RebaseEnqueued(task, op, payload, source, commit, original, permitted, start) =>
      EnqueueRebase(s, task, op, payload, source, commit, original, permitted, start, now).store
    case VerificationEnqueued(task, op, payload, pin, permitted, start) =>
      EnqueueHttpE2e(s, task, op, payload, pin, permitted, start, now).store
    case JobClaimed(id, owner, expires) => ClaimJob(s, id, owner, expires, now)
    case RunnerWrote(id, owner, write) => RunnerWrites(s, id, owner, write, now)
    case SuccessOverwritten(id, owner, ending) => OverwriteSuccess(s, id, owner, ending, now)
    case VerificationPrepared(id, owner, workflowRun, ready) => PrepareHttpE2e(s, id, owner, workflowRun, ready, now)
    case EvidenceRecorded(id, owner, submission) => RecordHttpE2e(s, id, owner, submission, now)
    case JobCancelled(id) => CancelJob(s, id, now)
    case Reconciled(id, view, newUrl, start) => Reconcile(s, id, view, newUrl, start, now).store
    case TaskMoved(task, to) => MoveTask(s, task, to)
    case TaskChanged(task, repairAttempts, plan) =>
      if task in s.tasks
      then s.(tasks := s.tasks[task := s.tasks[task].(repairAttempts := repairAttempts, plan := plan)]) else s
    case RunSaved(task, op) => SaveRun(s, task, op)
    case RunWritten(run, status, commit) =>
      if run < |s.runs| then s.(runs := s.runs[run := s.runs[run].(status := status, commit := commit)]) else s
    case ArtifactWritten(a) => WriteArtifact(s, a)
    case ArtifactWithdrawn(a) =>
      if a < |s.artifacts| then s.(artifacts := s.artifacts[a := s.artifacts[a].(available := false)]) else s
    case TaskReviewed(task, passed) => Review(s, task, passed)
    case VerificationCompleted(task) => CompleteVerification(s, task)
  }

  /** An event and the time at which it happens. */
  datatype Moment = Moment(event: Event, now: Instant)

  type Trace = seq<Moment>

  ghost function After(s: Store, trace: Trace): Store
  {
    if trace == [] then s else Step(After(s, trace[..|trace| - 1]), Last(trace).event, Last(trace).now)
  }

  /** Callers name their own operations without the marker reserved for resumed attempts. */
  predicate PlainlyNamed(e: Event)
  {
    match e
    case ImplementationEnqueued(_, op, _, _, _, _) => op.suffix == Plain
    case RebaseEnqueued(_, op, _, _, _, _, _, _) => op.suffix == Plain
    case VerificationEnqueued(_, op, _, _, _, _) => op.suffix == Plain
    case _ => true
  }

  ghost predicate Plainly(trace: Trace)
  {
    forall i :: 0 <= i < |trace| ==> PlainlyNamed(trace[i].event)
  }
}
