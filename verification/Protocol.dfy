/**
 * The store shared by everyone who moves work forward, and one step function per service operation. Each operation
 * is one atomic step; what the outside world answers (a dispatch, a GitHub query, an authorisation) is a parameter.
 */
module Protocol {
  import opened Backoff
  import opened Common
  import opened Jobs
  import opened Readiness
  import opened Records

  datatype RunStatus = Running | Succeeded | Failed | Blocked | Cancelled

  datatype Run = Run(task: TaskId, op: OperationId, status: RunStatus, commit: Option<Commit>)

  datatype Task = Task(state: TaskState, repairAttempts: nat, branch: Branch, plan: GatePlan)

  /** Jobs, runs and artifacts are identified by their position, which is the order of creation. */
  datatype Store = Store(externalCi: bool, jobs: seq<Job>, runs: seq<Run>, tasks: map<TaskId, Task>,
      artifacts: seq<Artifact>)

  datatype Refusal = NoTask | WrongState | JobInFlight | NotPermitted | NoBase | NotDispatched | IdentityMissing

  datatype Reply = Accepted(job: JobId) | Replayed(job: JobId) | RefusedFor(why: Refusal)

  datatype Answer = Answer(store: Store, reply: Reply)

  /** What the dispatcher answered, with the workflow run it could name. */
  datatype Start = NotStarted | Started(run: Option<nat>)

  const E2E_LEASE_MINUTES: nat := 75

  // ---- store primitives

  function FindByOp(jobs: seq<Job>, op: OperationId): (r: Option<JobId>)
    ensures r.Some? ==> r.value < |jobs| && jobs[r.value].op == op
    ensures r.None? ==> forall i :: 0 <= i < |jobs| ==> jobs[i].op != op
  {
    if jobs == [] then None
    else
      var earlier := FindByOp(jobs[..|jobs| - 1], op);
      if earlier.Some? then earlier
      else if Last(jobs).op == op then Some(|jobs| - 1)
      else None
  }

  predicate InFlight(jobs: seq<Job>, task: TaskId)
  {
    exists i :: 0 <= i < |jobs| && jobs[i].task == task && Active(jobs[i].status)
  }

  function SetState(s: Store, task: TaskId, state: TaskState): Store
    requires task in s.tasks
  {
    s.(tasks := s.tasks[task := s.tasks[task].(state := state)])
  }

  function CloseRun(runs: seq<Run>, run: Option<RunId>, status: RunStatus): seq<Run>
  {
    if run.Some? && run.value < |runs| && runs[run.value].status == RunStatus.Running
    then runs[run.value := runs[run.value].(status := status)]
    else runs
  }

  function PutJob(s: Store, id: JobId, job: Job): Store
    requires id < |s.jobs|
  {
    s.(jobs := s.jobs[id := job])
  }

  predicate Publishes(job: Job, task: TaskId, branch: Branch)
  {
    job.task == task && job.commit.Some? && job.branch == Some(branch)
  }

  /** The commit published by the newest job of the task on this branch. */
  function InheritedCommit(jobs: seq<Job>, task: TaskId, branch: Branch): (r: Option<Commit>)
    ensures r.None? ==> forall i :: 0 <= i < |jobs| ==> !Publishes(jobs[i], task, branch)
    ensures r.Some? ==> exists i :: 0 <= i < |jobs| && Publishes(jobs[i], task, branch) && jobs[i].commit == r
                          && forall k :: i < k < |jobs| ==> !Publishes(jobs[k], task, branch)
  {
    if jobs == [] then None
    else if Publishes(Last(jobs), task, branch) then
      assert jobs[|jobs| - 1].commit == Last(jobs).commit;
      Last(jobs).commit
    else InheritedCommit(jobs[..|jobs| - 1], task, branch)
  }

  function NewJob(task: TaskId, kind: Kind, op: OperationId, payload: Payload, attempt: nat, now: Instant): Job
  {
    Job(task, kind, op, payload, None, attempt, now, None, JobStatus.Queued,
        None, None, None, None, None, None, None, None, None, None, now, None)
  }

  function Replay(s: Store, id: JobId): Reply
    requires id < |s.jobs|
  {
    if s.jobs[id].run.Some? && s.jobs[id].run.value < |s.runs| then Replayed(id) else RefusedFor(IdentityMissing)
  }

  function WithRun(job: Job, start: Start): Option<nat>
  {
    if start.Started? && start.run.Some? then start.run else job.workflowRun
  }

  predicate RunNamed(runs: seq<Run>, op: OperationId)
  {
    exists i :: 0 <= i < |runs| && runs[i].op == op
  }

  /**
   * Stores the run and the job, then dispatches. A refused dispatch ends both at once. A run is not stored when the
   * operation already has one, and the job is created all the same: it then names a run that nobody can look up, which
   * reads as none.
   */
  function Launch(s: Store, job: Job, start: Start, now: Instant): Answer
  {
    var id, run := |s.jobs|, |s.runs|;
    match start
    case Started(_) =>
      var named := RunNamed(s.runs, job.op);
      var runs := if named then s.runs else s.runs + [Run(job.task, job.op, RunStatus.Running, None)];
      var dispatched := job.(
        run := if named then None else Some(run), status := JobStatus.Dispatched, workflowRun := WithRun(job, start),
        updatedAt := now);
      Answer(s.(jobs := s.jobs + [dispatched], runs := runs), Accepted(id))
    case NotStarted =>
      var blocked := job.(
        run := Some(run), status := JobStatus.Blocked, error := Some(DispatchFailed), finishedAt := Some(now),
            updatedAt := now);
      Answer(s.(jobs := s.jobs + [blocked], runs := s.runs + [Run(job.task, job.op, RunStatus.Failed, None)]),
          RefusedFor(NotDispatched))
  }

  // ---- enqueueing

  datatype Base = Unresolved | NoDependency | Pinned(branch: Branch, commit: Commit)

  /** Work on the task's own branch, from the commit its newest job published there. */
  function ImplementationJob(s: Store, task: TaskId, op: OperationId, payload: Payload, base: Base, now: Instant): Job
    requires task in s.tasks
  {
    var t := s.tasks[task];
    NewJob(task, if t.repairAttempts > 0 then Repair else Implementation, op, payload, t.repairAttempts, now).(
      branch := Some(t.branch),
      commit := InheritedCommit(s.jobs, task, t.branch),
      baseBranch := if base.Pinned? then Some(base.branch) else None,
      pinned := if base.Pinned? then Some(base.commit) else None)
  }

  function RebaseJob(s: Store, task: TaskId, op: OperationId, payload: Payload, source: Branch, commit: Commit,
    original: Commit, now: Instant): Job
    requires task in s.tasks
  {
    NewJob(task, Kind.Rebase, op, payload, s.tasks[task].repairAttempts, now).(
      branch := Some(source), commit := Some(commit), pinned := Some(original))
  }

  function EnqueueImplementation(s: Store, task: TaskId, op: OperationId, payload: Payload, permitted: bool,
      base: Base, start: Start, now: Instant): Answer
  {
    if task !in s.tasks then Answer(s, RefusedFor(NoTask))
    else if FindByOp(s.jobs, op).Some? then Answer(s, Replay(s, FindByOp(s.jobs, op).value))
    else if s.tasks[task].state !in {Planned, Implementing, Verifying} then Answer(s, RefusedFor(WrongState))
    else if InFlight(s.jobs, task) then Answer(s, RefusedFor(JobInFlight))
    else if !permitted then Answer(s, RefusedFor(NotPermitted))
    else if base.Unresolved? then Answer(SetState(s, task, TaskState.Blocked), RefusedFor(NoBase))
    else
      Launch(SetState(s, task, Implementing), ImplementationJob(s, task, op, payload, base, now), start, now)
  }

  function EnqueueRebase(s: Store, task: TaskId, op: OperationId, payload: Payload, source: Branch, commit: Commit,
      original: Commit, permitted: bool, start: Start, now: Instant): Answer
  {
    if task !in s.tasks then Answer(s, RefusedFor(NoTask))
    else if FindByOp(s.jobs, op).Some? then Answer(s, Replay(s, FindByOp(s.jobs, op).value))
    else if s.tasks[task].state !in {TaskState.Ready, Implementing, TaskState.Blocked} then
      Answer(s, RefusedFor(WrongState))
    else if InFlight(s.jobs, task) then Answer(s, RefusedFor(JobInFlight))
    else if !permitted then Answer(s, RefusedFor(NotPermitted))
    else
      Launch(SetState(s, task, Implementing), RebaseJob(s, task, op, payload, source, commit, original, now), start,
          now)
  }

  /** Verification names one commit and opens no run; any task state will do. */
  function EnqueueHttpE2e(s: Store, task: TaskId, op: OperationId, payload: Payload, pin: Option<Commit>,
      permitted: bool, start: Start, now: Instant): Answer
  {
    if !permitted then Answer(s, RefusedFor(NotPermitted))
    else if task !in s.tasks then Answer(s, RefusedFor(NoTask))
    else if FindByOp(s.jobs, op).Some? then Answer(s, Replayed(FindByOp(s.jobs, op).value))
    else if InFlight(s.jobs, task) then Answer(s, RefusedFor(JobInFlight))
    else if pin.None? then Answer(s, RefusedFor(NotPermitted))
    else
      var queued := NewJob(task, HttpE2e, op, payload, 0, now).(pinned := pin);
      match start
      case Started(_) =>
        var dispatched := queued.(status := JobStatus.Dispatched, workflowRun := WithRun(queued, start),
            updatedAt := now);
        Answer(s.(jobs := s.jobs + [dispatched]), Accepted(|s.jobs|))
      case NotStarted =>
        var failed := queued.(status := JobStatus.Failed, error := Some(DispatchFailed), finishedAt := Some(now),
            updatedAt := now);
        Answer(s.(jobs := s.jobs + [failed]), RefusedFor(NotDispatched))
  }

  // ---- running

  /** Only a live job that nobody else holds can be claimed; claiming it sets the lease owner. */
  function Claim(job: Job, owner: Owner, expires: Instant, now: Instant): Option<Job>
  {
    if job.status !in {JobStatus.Queued, JobStatus.Dispatched, JobStatus.Claimed} then None
    else if job.leaseExpires.Some? && job.leaseExpires.value > now && job.owner != Some(owner) then None
    else Some(job.(
      status := JobStatus.Claimed, owner := Some(owner), leaseExpires := Some(expires),
      startedAt := if job.startedAt.Some? then job.startedAt else Some(now), updatedAt := now))
  }

  /** While a lease runs nobody else takes the job; once it has run out, anybody can. */
  lemma LeasesExclude(job: Job, first: Owner, expires: Instant, now: Instant, other: Owner, until: Instant,
      later: Instant)
    requires Claim(job, first, expires, now).Some? && other != first
    ensures Claim(Claim(job, first, expires, now).value, other, until, later).Some? <==> later >= expires
    ensures Claim(Claim(job, first, expires, now).value, first, until, later).Some?
  {
  }

  /**
   * The next attempt carries the work and none of the lifecycle: it is queued, unleased, and records no unpublished
   * commit.
   */
  lemma NextAttemptStartsClean(job: Job, id: JobId, cause: Cause, now: Instant, owner: Owner, expires: Instant)
    ensures var next := NextAttempt(job, id, cause, now);
      && WorkOf(next) == WorkOf(job) && next.attempted.None? && next.error.None? && next.attempt == job.attempt + 1
      && next.status == JobStatus.Queued && Claim(next, owner, expires, now).Some?
      && Claim(next, owner, expires, now).value.startedAt == Some(now)
  {
  }

  /** What an execution runner may write to its own job between claiming it and finishing. */
  datatype RunnerWrite = RunnerWrite(
    status: JobStatus, branch: Option<Branch>, commit: Option<Commit>, attempted: Option<Commit>,
        workflowRun: Option<nat>)

  predicate RunnerMayWrite(job: Job, owner: Owner, w: RunnerWrite)
  {
    && job.status in {JobStatus.Claimed, JobStatus.Running} && job.owner == Some(owner) && job.kind != HttpE2e
    && w.status in {JobStatus.Running, JobStatus.Succeeded, JobStatus.Failed, JobStatus.Blocked}
  }

  function AfterWrite(job: Job, w: RunnerWrite, now: Instant): Job
  {
    job.(status := w.status, branch := w.branch, commit := w.commit, attempted := w.attempted,
         workflowRun := w.workflowRun, updatedAt := now,
         finishedAt := if Active(w.status) then job.finishedAt else Some(now),
         leaseExpires := if Active(w.status) then job.leaseExpires else Some(now))
  }

  // ---- HTTP verification

  datatype Submission = NoFile | Oversized | Malformed | WellFormed(proven: bool)

  /** The complete evidence, then the report that names the job and the commit it was pinned to. */
  function WithReport(s: Store, id: JobId, proven: bool): Store
    requires id < |s.jobs|
  {
    var job := s.jobs[id];
    s.(artifacts := s.artifacts
         + [Artifact(job.task, OtherArtifact, true, Unread)]
         + [Artifact(job.task, ValidationReport, true, Verification(id, job.pinned, proven))])
  }

  function EndVerification(job: Job, accepted: bool, now: Instant): Job
  {
    job.(status := if accepted then JobStatus.Succeeded else JobStatus.Failed,
         leaseExpires := Some(now), finishedAt := Some(now), updatedAt := now,
         error := if accepted then job.error else Some(InfrastructureUnavailable))
  }

  function Began(claimed: Job, workflowRun: Option<nat>): Job
  {
    claimed.(status := JobStatus.Running, workflowRun := if workflowRun.Some? then workflowRun else claimed.workflowRun)
  }

  /**
   * Claims the job for a workflow run and starts it; a failed preparation is recorded as not proven and ends the job.
   */
  function PrepareHttpE2e(s: Store, id: JobId, owner: Owner, workflowRun: Option<nat>, ready: bool, now: Instant): Store
  {
    if id >= |s.jobs| || s.jobs[id].kind != HttpE2e then s
    else
      var claimed := Claim(s.jobs[id], owner, now + E2E_LEASE_MINUTES * MINUTE, now);
      if claimed.None? then s
      else
        var running := Began(claimed.value, workflowRun);
        if ready then PutJob(s, id, running)
        else PutJob(WithReport(s, id, false), id, EndVerification(running, false, now))
  }

  /** Evidence is taken only from the holder of a running verification job's lease. */
  predicate MayRecord(s: Store, id: JobId, owner: Owner)
  {
    id < |s.jobs| && s.jobs[id].kind == HttpE2e && s.jobs[id].status == JobStatus.Running
      && s.jobs[id].owner == Some(owner)
  }

  function RecordHttpE2e(s: Store, id: JobId, owner: Owner, submission: Submission, now: Instant): Store
  {
    if !MayRecord(s, id, owner) then s
    else
      PutJob(WithReport(s, id, submission.WellFormed? && submission.proven), id,
             EndVerification(s.jobs[id], submission.WellFormed?, now))
  }

  // ---- stopping and recovering

  function CancelJob(s: Store, id: JobId, now: Instant): Store
  {
    if id >= |s.jobs| || !Active(s.jobs[id].status) then s
    else
      var job := s.jobs[id];
      var ended := job.(status := JobStatus.Cancelled, finishedAt := Some(now), updatedAt := now,
          error := Some(CancelledByOperator));
      PutJob(s, id, ended).(runs := CloseRun(s.runs, job.run, RunStatus.Cancelled))
  }

  datatype PassResult =
    | Waited(job: JobId)
    | Ignored(job: JobId)
    | Redispatched(job: JobId, attempt: nat)
    | Deferred(job: JobId, notBefore: Instant)
    | ResumedAs(job: JobId, next: JobId)
    | Ended(job: JobId, status: JobStatus, cause: Cause)

  /** One iteration of a reconciler pass: what it leaves, what it reports, and whether it threw. */
  datatype Iteration = Iteration(store: Store, results: seq<PassResult>, threw: bool)

  function Dispatch(s: Store, id: JobId, start: Start, now: Instant): Iteration
    requires id < |s.jobs| && s.jobs[id].resume.Some?
  {
    var job := s.jobs[id];
    match start
    case Started(_) =>
      var dispatched := job.(status := JobStatus.Dispatched, workflowRun := WithRun(job, start), updatedAt := now);
      Iteration(PutJob(s, id, dispatched), [Redispatched(id, job.resume.value.link.attempt)], false)
    case NotStarted =>
      var notBefore := now + BASE_MINUTES * MINUTE;
      var deferred := job.(status := JobStatus.Queued, updatedAt := now,
          resume := Some(job.resume.value.(notBefore := notBefore)));
      Iteration(PutJob(s, id, deferred), [Deferred(id, notBefore)], false)
  }

  function EndStalled(job: Job, status: JobStatus, cause: Cause, now: Instant): Job
  {
    job.(status := status, leaseExpires := Some(now), finishedAt := Some(now), updatedAt := now,
        error := Some(Stalled(cause)))
  }

  /** Work that is not resumed: its run closes, and a task still implementing is blocked. */
  function Stop(s: Store, job: Job): Store
  {
    var closed := s.(runs := CloseRun(s.runs, job.run, RunStatus.Failed));
    if job.task in s.tasks && s.tasks[job.task].state == Implementing
    then SetState(closed, job.task, TaskState.Blocked) else closed
  }

  /** Creating a job whose operation identifier is taken returns the job that has it. */
  function Continue(s: Store, stalled: JobId, next: Job, start: Start, now: Instant): Iteration
  {
    var taken := FindByOp(s.jobs, next.op);
    if taken.Some? && s.jobs[taken.value].resume.None? then Iteration(s, [], true)
    else
      var id := if taken.Some? then taken.value else |s.jobs|;
      var created := if taken.Some? then s else s.(jobs := s.jobs + [next]);
      var report := [ResumedAs(stalled, id)];
      if created.jobs[id].resume.Some? && created.jobs[id].resume.value.notBefore <= now then
        var dispatched := Dispatch(created, id, start, now);
        dispatched.(results := report + dispatched.results)
      else Iteration(created, report, false)
  }

  /** The job as the pass sees it: a run that reports a new address is written to the job first. */
  function Seen(job: Job, view: Option<View>, newUrl: bool, now: Instant): Job
  {
    if job.workflowRun.Some? && view.Some? && newUrl then job.(updatedAt := now) else job
  }

  function Decide(job: Job, view: Option<View>, now: Instant): Decision
  {
    Classify(job, now, if job.workflowRun.Some? then view else None, DEFAULTS)
  }

  /** What a pass does to the job it just looked at, once it has decided about it. */
  function Conclude(s: Store, id: JobId, job: Job, decision: Decision, start: Start, now: Instant): Iteration
    requires id < |s.jobs|
  {
    match decision
    case Ignore => Iteration(PutJob(s, id, job), [Ignored(id)], false)
    case Wait => Iteration(PutJob(s, id, job), [Waited(id)], false)
    case Terminalize(status, cause) =>
      var ended := PutJob(s, id, EndStalled(job, status, cause, now));
      if Resumable(job, cause) then Continue(ended, id, NextAttempt(job, id, cause, now), start, now)
      else Iteration(Stop(ended, job), [Ended(id, status, cause)], false)
  }

  /** Writing the job before judging it changes nothing that is concluded about it. */
  lemma ConcludeOverwrites(s: Store, id: JobId, job: Job, decision: Decision, start: Start, now: Instant)
    requires id < |s.jobs|
    ensures Conclude(PutJob(s, id, job), id, job, decision, start, now) == Conclude(s, id, job, decision, start, now)
  {
    forall b: Job ensures PutJob(PutJob(s, id, job), id, b) == PutJob(s, id, b) {
      assert s.jobs[id := job][id := b] == s.jobs[id := b];
    }
  }

  /** A resumed attempt that is still queued waits out its back-off and is dispatched here; any other job is judged. */
  function Reconcile(s: Store, id: JobId, view: Option<View>, newUrl: bool, start: Start, now: Instant): Iteration
  {
    if id >= |s.jobs| then Iteration(s, [], false)
    else if s.jobs[id].status == JobStatus.Queued && s.jobs[id].resume.Some? then
      if s.jobs[id].resume.value.notBefore > now then Iteration(s, [Waited(id)], false)
      else Dispatch(s, id, start, now)
    else
      var job := Seen(s.jobs[id], view, newUrl, now);
      Conclude(s, id, job, Decide(job, view, now), start, now)
  }
}
