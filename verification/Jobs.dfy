/** Durable execution jobs: their record, when a live one is given up on, and how the next attempt is made. */
module Jobs {
  import opened Backoff
  import opened Common
  import opened Records

  type JobId = nat
  type RunId = nat
  type Owner = nat
  type Branch = nat
  type Payload = nat

  datatype Kind = Implementation | Test | Validation | Repair | Reconciliation | Rebase | HttpE2e

  datatype JobStatus = Queued | Dispatching | Dispatched | Claimed | Running | Succeeded | Failed | Cancelled
      | TimedOut | Blocked

  /** How a workflow run ended, as GitHub names it. */
  datatype Conclusion = RunCancelled | RunTimedOut | NoConclusion | OtherConclusion(name: nat)

  datatype Cause = NeverDispatched | NeverStarted | LeaseExpired | HardTimeout | Concluded(conclusion: Conclusion)

  /** Why an ended job did not succeed. */
  datatype Failure = Stalled(cause: Cause) | DispatchFailed | InfrastructureUnavailable | CancelledByOperator
      | RunnerError

  /**
   * An operation identifier, split at the first resume marker: the base is interned text without a marker, and the
   * rest is absent, the number of an attempt, or any other interned text.
   */
  datatype OperationId = OperationId(base: nat, suffix: Suffix)
  datatype Suffix = Plain | Attempt(n: nat) | Text(t: nat)

  function AttemptId(op: OperationId, n: nat): OperationId { op.(suffix := Attempt(n)) }

  /** How a resumed job descends from the stalled one; fixed when it is created. */
  datatype Link = Link(of: JobId, root: JobId, attempt: nat, cause: Cause, streak: nat)

  datatype Resume = Resume(link: Link, notBefore: Instant)

  datatype Job = Job(
    task: TaskId,
    kind: Kind,
    op: OperationId,
    payload: Payload,
    run: Option<RunId>,
    attempt: nat,
    queuedAt: Instant,
    resume: Option<Resume>,
    status: JobStatus,
    branch: Option<Branch>,
    baseBranch: Option<Branch>,
    pinned: Option<Commit>,
    commit: Option<Commit>,
    attempted: Option<Commit>,
    workflowRun: Option<nat>,
    owner: Option<Owner>,
    leaseExpires: Option<Instant>,
    startedAt: Option<Instant>,
    finishedAt: Option<Instant>,
    updatedAt: Instant,
    error: Option<Failure>)

  predicate Active(status: JobStatus)
  {
    status in {Queued, Dispatching, Dispatched, Claimed, Running}
  }

  // ---- when a live job is given up on

  datatype Thresholds = Thresholds(dispatchGrace: nat, leaseGrace: nat, hardTimeout: nat)

  const DEFAULTS := Thresholds(15, 10, 90)

  datatype Decision = Ignore | Wait | Terminalize(status: JobStatus, cause: Cause)

  datatype View = View(completed: bool, conclusion: Conclusion)

  predicate LongerThan(since: Instant, minutes: nat, now: Instant)
  {
    now - since > minutes * MINUTE
  }

  function StatusFor(conclusion: Conclusion): JobStatus
  {
    match conclusion
    case RunCancelled => Cancelled
    case RunTimedOut => TimedOut
    case _ => JobStatus.Failed
  }

  function Classify(job: Job, now: Instant, view: Option<View>, limits: Thresholds): Decision
  {
    if !Active(job.status) then Ignore
    else if view.Some? then
      if view.value.completed then Terminalize(StatusFor(view.value.conclusion), Concluded(view.value.conclusion))
      else if LongerThan(job.queuedAt, limits.hardTimeout, now) then Terminalize(TimedOut, HardTimeout)
      else Wait
    else if job.status == Claimed || job.status == Running then
      if job.leaseExpires.None? || LongerThan(job.leaseExpires.value, limits.leaseGrace, now) then
        Terminalize(TimedOut, LeaseExpired)
      else if LongerThan(job.queuedAt, limits.hardTimeout, now) then Terminalize(TimedOut, HardTimeout)
      else Wait
    else if LongerThan(job.updatedAt, limits.dispatchGrace, now) then
      Terminalize(JobStatus.Failed, if job.status == Queued then NeverDispatched else NeverStarted)
    else Wait
  }

  /** The last instant at which the job is still waited for; None when it is given up on whatever the time. */
  function Deadline(job: Job, view: Option<View>, limits: Thresholds): Option<Instant>
  {
    match view
    case Some(v) => if v.completed then None else Some(job.queuedAt + limits.hardTimeout * MINUTE)
    case None =>
      if job.status != Claimed && job.status != Running then Some(job.updatedAt + limits.dispatchGrace * MINUTE)
      else if job.leaseExpires.None? then None
      else Some(Min(job.leaseExpires.value + limits.leaseGrace * MINUTE, job.queuedAt + limits.hardTimeout * MINUTE))
  }

  /**
   * Every decision is one deadline: an active job is given up on exactly after it, and never given up on once ended.
   */
  lemma GivenUpExactlyAfterDeadline(job: Job, now: Instant, view: Option<View>, limits: Thresholds)
    ensures Classify(job, now, view, limits).Terminalize? <==>
              Active(job.status) && (Deadline(job, view, limits).None? || now > Deadline(job, view, limits).value)
    ensures Classify(job, now, view, limits) == Ignore <==> !Active(job.status)
  {
  }

  /** Once given up on, a job stays given up on with the same ending, which is never a live status. */
  lemma GivingUpIsFinal(job: Job, now: Instant, later: Instant, view: Option<View>, limits: Thresholds)
    requires now <= later && Classify(job, now, view, limits).Terminalize?
    ensures Classify(job, later, view, limits).Terminalize?
    ensures Classify(job, later, view, limits).status == Classify(job, now, view, limits).status
    ensures !Active(Classify(job, now, view, limits).status)
    ensures Classify(job, later, view, limits).cause != Classify(job, now, view, limits).cause ==>
              Classify(job, now, view, limits).cause == HardTimeout
                && Classify(job, later, view, limits).cause == LeaseExpired
  {
    assert forall since, minutes: nat :: LongerThan(since, minutes, now) ==> LongerThan(since, minutes, later);
  }

  /** Silence is bounded: ninety minutes after both its creation and its last write, no view keeps a job alive. */
  lemma NoViewOutlivesTheCeiling(job: Job, now: Instant, view: Option<View>)
    requires Active(job.status)
    requires LongerThan(job.queuedAt, DEFAULTS.hardTimeout, now) && LongerThan(job.updatedAt, DEFAULTS.hardTimeout, now)
    ensures Classify(job, now, view, DEFAULTS).Terminalize?
  {
    assert LongerThan(job.updatedAt, DEFAULTS.dispatchGrace, now);
  }

  // ---- the next attempt

  predicate ResumableKind(kind: Kind)
  {
    kind in {Implementation, Repair, Rebase, HttpE2e}
  }

  /** Only a run somebody cancelled, or work a job does not fully describe, stays stopped. */
  predicate Resumable(job: Job, cause: Cause)
  {
    ResumableKind(job.kind) && cause != Concluded(RunCancelled)
  }

  function AttemptOf(job: Job): nat { if job.resume.Some? then job.resume.value.link.attempt else 0 }

  function RootOf(job: Job, id: JobId): JobId { if job.resume.Some? then job.resume.value.link.root else id }

  function StreakAfter(job: Job, cause: Cause): nat
  {
    if job.resume.Some? && job.resume.value.link.cause == cause then job.resume.value.link.streak + 1 else 1
  }

  /** The next attempt of a stalled job: its work without its lifecycle. */
  function NextAttempt(job: Job, id: JobId, cause: Cause, now: Instant): Job
  {
    var link := Link(id, RootOf(job, id), AttemptOf(job) + 1, cause, StreakAfter(job, cause));
    job.(
      op := AttemptId(job.op, link.attempt),
      status := Queued,
      attempt := job.attempt + 1,
      queuedAt := now,
      updatedAt := now,
      resume := Some(Resume(link, now + ResumeDelay(link.streak) * MINUTE)),
      attempted := None, workflowRun := None, owner := None, leaseExpires := None,
      startedAt := None, finishedAt := None, error := None)
  }

  /** The work a job stands for: what running it again must not change. */
  datatype Work = Work(
    task: TaskId, kind: Kind, payload: Payload, run: Option<RunId>,
    branch: Option<Branch>, baseBranch: Option<Branch>, pinned: Option<Commit>, commit: Option<Commit>)

  function WorkOf(job: Job): Work
  {
    Work(job.task, job.kind, job.payload, job.run, job.branch, job.baseBranch, job.pinned, job.commit)
  }
}
