/** The execution runner's body as events of the shared store, and what it leaves there. */
module RunnerEvents {
  import opened Common
  import opened Events
  import opened ExecutionRunners
  import opened Gates
  import opened JobInvariant
  import opened Jobs
  import opened Protocol
  import opened Readiness
  import opened Records

  /** Where the store has the job, its run and its task. */
  function StandingOf(s: Store, id: JobId): Standing
    requires id < |s.jobs|
  {
    var job := s.jobs[id];
    Standing(job.status,
             if job.run.Some? && job.run.value < |s.runs| then Some(s.runs[job.run.value].status) else None,
             if job.task in s.tasks then Some(s.tasks[job.task].state) else None)
  }

  predicate Held(s: Store, id: JobId, owner: Owner)
  {
    && id < |s.jobs| && s.jobs[id].status in {JobStatus.Claimed, JobStatus.Running} && s.jobs[id].owner == Some(owner)
    && s.jobs[id].kind != HttpE2e
  }

  /** A job that is still the runner's, or that it recorded as succeeded. */
  predicate HeldOrDone(s: Store, id: JobId, owner: Owner)
  {
    || Held(s, id, owner)
    || (id < |s.jobs| && s.jobs[id].status == JobStatus.Succeeded && s.jobs[id].owner == Some(owner)
      && s.jobs[id].kind != HttpE2e)
  }

  /** The store the runner found, how it has left it so far, by which events, and whether an error was thrown. */
  datatype Doing = Doing(origin: Store, store: Store, trace: Trace, threw: bool)

  /** What the runner did is a run of the store's events. */
  ghost predicate Traced(d: Doing)
  {
    After(d.origin, d.trace) == d.store && Plainly(d.trace)
  }

  ghost predicate Continues(d: Doing, r: Doing)
  {
    r.origin == d.origin && (Traced(d) ==> Traced(r))
  }

  ghost function Do(d: Doing, e: Event, now: Instant): (r: Doing)
    ensures PlainlyNamed(e) ==> Continues(d, r)
  {
    assert (d.trace + [Moment(e, now)])[..|d.trace|] == d.trace;
    d.(store := Step(d.store, e, now), trace := d.trace + [Moment(e, now)])
  }

  /** The write of a status; what else the runner writes to its job changes nothing that is followed here. */
  function Wrote(job: Job, id: JobId, owner: Owner, status: JobStatus): Event
  {
    RunnerWrote(id, owner, RunnerWrite(status, job.branch, job.commit, job.attempted, job.workflowRun))
  }

  ghost function Write(d: Doing, id: JobId, owner: Owner, status: JobStatus, now: Instant): (r: Doing)
    requires id < |d.store.jobs|
    ensures Continues(d, r)
  {
    Do(d, Wrote(d.store.jobs[id], id, owner, status), now)
  }

  ghost function TestOn(d: Doing, t: TaskId, s: Script, now: Instant): (r: Doing)
    requires t in d.store.tasks
    ensures Continues(d, r)
  {
    if d.store.tasks[t].state != Implementing then d.(threw := true)
    else
      var testing := Do(d, TaskMoved(t, Testing), now);
      if !s.succeeds(TestSuites) || !s.succeeds(TestReports) then testing.(threw := true)
      else
        var reported := Do(testing, ArtifactWritten(Artifact(t, TestReport, true, Unread)), now);
        if !s.testsPass then Do(reported, TaskMoved(t, Implementing), now).(threw := true)
        else Do(reported, TaskMoved(t, Reviewing), now)
  }

  /** What the gate will say once the review report is stored. */
  ghost function GateOf(s: Store, t: TaskId): Gate
    requires t in s.tasks
  {
    var reviewed := Append(s, Artifact(t, ArtifactKind.ReviewReport, true, Unread));
    if OnlyVerificationOwed(reviewed, t)
    then VerificationOwed else if Gates.Met(reviewed, t) then Open else EvidenceMissing
  }

  ghost function ReviewOn(d: Doing, t: TaskId, s: Script, now: Instant): (r: Doing)
    requires t in d.store.tasks
    ensures Continues(d, r)
  {
    if d.store.tasks[t].state != Reviewing || !s.succeeds(Point.ReviewReport) then d.(threw := true)
    else
      Do(d, TaskReviewed(t, s.reviewPasses), now).(
        threw := !s.reviewPasses || GateOf(d.store, t).EvidenceMissing? || !s.succeeds(ReviewAudit))
  }

  ghost function CloseRunOn(d: Doing, id: JobId, now: Instant): (r: Doing)
    requires id < |d.store.jobs|
    ensures Continues(d, r) && r.store.jobs == d.store.jobs && r.store.tasks == d.store.tasks && r.threw == d.threw
    ensures StandingOf(r.store, id) ==
              StandingOf(d.store, id).(run := if StandingOf(d.store, id).run.Some?
                then Some(RunStatus.Succeeded) else None)
  {
    var job := d.store.jobs[id];
    if job.run.Some? then Do(d, RunWritten(job.run.value, RunStatus.Succeeded, job.commit), now) else d
  }

  ghost function CloseOn(d: Doing, id: JobId, owner: Owner, s: Script, now: Instant): (r: Doing)
    requires id < |d.store.jobs|
    ensures Continues(d, r)
  {
    var closed := CloseRunOn(d, id, now);
    if !s.succeeds(JobSuccess) then closed.(threw := true)
    else Write(closed, id, owner, JobStatus.Succeeded, now).(threw := !s.succeeds(SuccessAudit)
      || !s.succeeds(FinalRead))
  }

  /** A script whose gate is what the store will say. */
  ghost function Informed(d: Doing, t: TaskId, s: Script, now: Instant): Script
    requires t in d.store.tasks
  {
    var tested := TestOn(d, t, s, now).store;
    if t in tested.tasks then s.(gate := GateOf(tested, t)) else s
  }

  // ---- single events

  lemma WritingStands(d: Doing, id: JobId, owner: Owner, status: JobStatus, now: Instant)
    requires Held(d.store, id, owner)
        && status in {JobStatus.Running, JobStatus.Succeeded, JobStatus.Failed, JobStatus.Blocked}
    ensures var v := Write(d, id, owner, status, now).store;
      && |v.jobs| == |d.store.jobs| && StandingOf(v, id) == StandingOf(d.store, id).(job := status)
      && v.jobs[id].task == d.store.jobs[id].task && v.tasks == d.store.tasks && v.artifacts == d.store.artifacts
      && (status == JobStatus.Running ==> Held(v, id, owner))
        && (status == JobStatus.Succeeded ==> HeldOrDone(v, id, owner))
  {
  }

  lemma MovingStands(d: Doing, id: JobId, to: TaskState, now: Instant)
    requires id < |d.store.jobs| && d.store.jobs[id].task in d.store.tasks && to != Ready
    ensures var t, v := d.store.jobs[id].task, Do(d, TaskMoved(d.store.jobs[id].task, to), now).store;
      && v.jobs == d.store.jobs && v.artifacts == d.store.artifacts && t in v.tasks
      && v.tasks[t].state == MoveTo(d.store.tasks[t].state, to).task
      && StandingOf(v, id) == StandingOf(d.store, id).(task := Some(v.tasks[t].state))
  {
  }

  lemma ReportingStands(d: Doing, id: JobId, now: Instant)
    requires id < |d.store.jobs|
    ensures var t := d.store.jobs[id].task;
      var v := Do(d, ArtifactWritten(Artifact(t, TestReport, true, Unread)), now).store;
      && v.jobs == d.store.jobs && v.tasks == d.store.tasks && StandingOf(v, id) == StandingOf(d.store, id)
      && HasTestReport(v.artifacts, t)
  {
    var t := d.store.jobs[id].task;
    var report := Artifact(t, TestReport, true, Unread);
    var v := Do(d, ArtifactWritten(report), now).store;
    assert v.artifacts[|d.store.artifacts|] == report;
  }

  lemma TestingStands(d: Doing, id: JobId, s: Script, now: Instant)
    requires id < |d.store.jobs| && d.store.jobs[id].task in d.store.tasks && !d.threw
    ensures var t := d.store.jobs[id].task;
      var r, expected := TestOn(d, t, s, now), Tested(s, d.store.tasks[t].state);
      && r.threw == expected.threw && r.store.jobs == d.store.jobs && t in r.store.tasks
      && r.store.tasks[t].state == expected.task
      && StandingOf(r.store, id) == StandingOf(d.store, id).(task := Some(expected.task))
      && (!r.threw ==> HasTestReport(r.store.artifacts, t))
  {
    var t := d.store.jobs[id].task;
    MovingStands(d, id, Testing, now);
    var testing := Do(d, TaskMoved(t, Testing), now);
    ReportingStands(testing, id, now);
    var reported := Do(testing, ArtifactWritten(Artifact(t, TestReport, true, Unread)), now);
    MovingStands(reported, id, Implementing, now);
    MovingStands(reported, id, Reviewing, now);
  }

  /** Where a review with a test report at hand leaves the task, by what the gate says. */
  function StateAfterReview(gate: Gate, passed: bool, task: TaskState): TaskState
  {
    if !passed then Implementing
    else match gate case EvidenceMissing => task case VerificationOwed => Verifying case Open => TaskState.Ready
  }

  lemma ReviewMoves(s: Store, t: TaskId, passed: bool)
    requires t in s.tasks && s.tasks[t].state == Reviewing && HasTestReport(s.artifacts, t)
    ensures var r := Review(s, t, passed);
      && r.jobs == s.jobs && r.runs == s.runs && t in r.tasks
      && r.tasks[t].state == StateAfterReview(GateOf(s, t), passed, Reviewing)
  {
  }

  lemma ReviewingStands(d: Doing, id: JobId, s: Script, now: Instant)
    requires id < |d.store.jobs| && d.store.jobs[id].task in d.store.tasks && !d.threw
    requires HasTestReport(d.store.artifacts, d.store.jobs[id].task) && s.gate == GateOf(d.store, d.store.jobs[id].task)
    ensures var t := d.store.jobs[id].task;
      var r, expected := ReviewOn(d, t, s, now), Reviewed(s, d.store.tasks[t].state);
      && r.threw == expected.threw && r.store.jobs == d.store.jobs && t in r.store.tasks
      && StandingOf(r.store, id) == StandingOf(d.store, id).(task := Some(expected.task))
  {
    var t := d.store.jobs[id].task;
    if d.store.tasks[t].state == Reviewing && s.succeeds(Point.ReviewReport) {
      ReviewMoves(d.store, t, s.reviewPasses);
    }
  }

  lemma ClosingStands(d: Doing, id: JobId, owner: Owner, s: Script, now: Instant)
    requires Held(d.store, id, owner) && !d.threw
    ensures var r, run := CloseOn(d, id, owner, s, now), StandingOf(d.store, id).run;
      && |r.store.jobs| == |d.store.jobs| && r.store.jobs[id].task == d.store.jobs[id].task
        && r.store.tasks == d.store.tasks
      && StandingOf(r.store, id) == StandingOf(d.store, id).(
           run := if run.Some? then Some(RunStatus.Succeeded) else None,
           job := if s.succeeds(JobSuccess) then JobStatus.Succeeded else d.store.jobs[id].status)
      && r.threw == !(s.succeeds(JobSuccess) && s.succeeds(SuccessAudit) && s.succeeds(FinalRead))
      && HeldOrDone(r.store, id, owner)
  {
    WritingStands(CloseRunOn(d, id, now), id, owner, JobStatus.Succeeded, now);
  }

  // ---- the body and its handler

  /** The part of the body that runs once the commit is published. */
  ghost function FinishOn(d: Doing, id: JobId, owner: Owner, s: Script, now: Instant): (r: Doing)
    requires Held(d.store, id, owner) && d.store.jobs[id].status == JobStatus.Running
    requires d.store.jobs[id].task in d.store.tasks && !d.threw
    ensures Continues(d, r)
    ensures |r.store.jobs| == |d.store.jobs| && HeldOrDone(r.store, id, owner)
    ensures (StandingOf(r.store, id), r.threw)
        == Finished(Informed(d, d.store.jobs[id].task, s, now), StandingOf(d.store, id))
  {
    var t := d.store.jobs[id].task;
    TestingStands(d, id, s, now);
    var tested := TestOn(d, t, s, now);
    if tested.threw || !s.succeeds(Point.CiReport) then tested.(threw := true)
    else
      var informed := s.(gate := GateOf(tested.store, t));
      ReviewingStands(tested, id, informed, now);
      var reviewed := ReviewOn(tested, t, informed, now);
      if reviewed.threw || !s.succeeds(PullRequest) || !s.succeeds(RunSuccess) then reviewed.(threw := true)
      else
        ClosingStands(reviewed, id, owner, s, now);
        CloseOn(reviewed, id, owner, s, now)
  }

  /** The body once its job runs. */
  ghost function WorkOn(d: Doing, id: JobId, owner: Owner, s: Script, rebase: bool, now: Instant): (r: Doing)
    requires Held(d.store, id, owner) && d.store.jobs[id].status == JobStatus.Running && !d.threw
        && s.succeeds(RunningWrite)
    ensures Continues(d, r)
    ensures |r.store.jobs| == |d.store.jobs| && HeldOrDone(r.store, id, owner)
    ensures (StandingOf(r.store, id), r.threw)
        == BodyOf(Met(d, d.store.jobs[id].task, s, now), rebase, StandingOf(d.store, id))
  {
    var t := d.store.jobs[id].task;
    if t !in d.store.tasks then d.(threw := true)
    else if !Published(s, rebase) then
      if rebase && s.succeeds(Guards) && s.succeeds(Workspace) && s.succeeds(Transfer) && s.transferConflicts then
        MovingStands(d, id, TaskState.Blocked, now);
        Do(d, TaskMoved(t, TaskState.Blocked), now).(threw := true)
      else d.(threw := true)
    else FinishOn(d, id, owner, s, now)
  }

  /** The script as a running job meets it: with the gate that the store shows when the review is done. */
  ghost function Met(d: Doing, t: TaskId, s: Script, now: Instant): Script
  {
    if t in d.store.tasks then Informed(d, t, s, now) else s
  }

  ghost function AsMet(d: Doing, id: JobId, owner: Owner, s: Script, now: Instant): Script
    requires id < |d.store.jobs|
  {
    Met(Write(d, id, owner, JobStatus.Running, now), d.store.jobs[id].task, s, now)
  }

  ghost function BodyOn(d: Doing, id: JobId, owner: Owner, s: Script, rebase: bool, now: Instant): (r: Doing)
    requires Held(d.store, id, owner) && !d.threw
    ensures Continues(d, r)
    ensures |r.store.jobs| == |d.store.jobs| && HeldOrDone(r.store, id, owner)
    ensures (StandingOf(r.store, id), r.threw) == BodyOf(AsMet(d, id, owner, s, now), rebase, StandingOf(d.store, id))
  {
    if !s.succeeds(RunningWrite) then d.(threw := true)
    else
      WritingStands(d, id, owner, JobStatus.Running, now);
      WorkOn(Write(d, id, owner, JobStatus.Running, now), id, owner, s, rebase, now)
  }

  predicate TaskBlocked(s: Store, id: JobId)
    requires id < |s.jobs|
  {
    s.jobs[id].task in s.tasks && s.tasks[s.jobs[id].task].state == TaskState.Blocked
  }

  /** A task left testing or reviewing is blocked. */
  ghost function Unstrand(d: Doing, id: JobId, now: Instant): (r: Doing)
    requires id < |d.store.jobs|
    ensures Continues(d, r)
  {
    var t := d.store.jobs[id].task;
    if t in d.store.tasks && d.store.tasks[t].state in {Testing, Reviewing}
    then Do(d, TaskMoved(t, TaskState.Blocked), now) else d
  }

  /** The job ends with its task, even when it was recorded as succeeded a moment ago. */
  ghost function EndJob(d: Doing, id: JobId, owner: Owner, now: Instant): (r: Doing)
    requires id < |d.store.jobs|
    ensures Continues(d, r)
  {
    var ending := if TaskBlocked(d.store, id) then JobStatus.Blocked else JobStatus.Failed;
    if d.store.jobs[id].status == JobStatus.Succeeded then Do(d, SuccessOverwritten(id, owner, ending), now)
    else Do(d, Wrote(d.store.jobs[id], id, owner, ending), now)
  }

  ghost function EndRun(d: Doing, id: JobId, now: Instant): (r: Doing)
    requires id < |d.store.jobs|
    ensures Continues(d, r)
  {
    var job := d.store.jobs[id];
    if job.run.Some? && job.run.value < |d.store.runs| && d.store.runs[job.run.value].status == RunStatus.Running
    then Do(d, RunWritten(job.run.value, if TaskBlocked(d.store, id)
      then RunStatus.Blocked else RunStatus.Failed, job.commit), now)
    else d
  }

  lemma UnstrandStands(d: Doing, id: JobId, now: Instant)
    requires id < |d.store.jobs|
    ensures var r, start := Unstrand(d, id, now), StandingOf(d.store, id);
      && r.store.jobs == d.store.jobs
      && StandingOf(r.store, id) ==
           start.(task := if start.task in {Some(Testing), Some(Reviewing)}
             then Some(TaskState.Blocked) else start.task)
  {
    if d.store.jobs[id].task in d.store.tasks { MovingStands(d, id, TaskState.Blocked, now); }
  }

  lemma EndJobStands(d: Doing, id: JobId, owner: Owner, now: Instant)
    requires HeldOrDone(d.store, id, owner)
    ensures var r, start := EndJob(d, id, owner, now), StandingOf(d.store, id);
      && |r.store.jobs| == |d.store.jobs|
      && StandingOf(r.store, id) ==
           start.(job := if start.task == Some(TaskState.Blocked) then JobStatus.Blocked else JobStatus.Failed)
  {
    if Held(d.store, id, owner) {
      WritingStands(d, id, owner, if TaskBlocked(d.store, id) then JobStatus.Blocked else JobStatus.Failed, now);
    }
  }

  lemma EndRunStands(d: Doing, id: JobId, now: Instant)
    requires id < |d.store.jobs|
    ensures var r, start := EndRun(d, id, now), StandingOf(d.store, id);
      && |r.store.jobs| == |d.store.jobs|
      && StandingOf(r.store, id) ==
           start.(run := if start.run != Some(RunStatus.Running) then start.run
                         else Some(if start.task == Some(TaskState.Blocked)
                           then RunStatus.Blocked else RunStatus.Failed))
  {
  }

  ghost function HandleOn(d: Doing, id: JobId, owner: Owner, now: Instant): (r: Doing)
    requires HeldOrDone(d.store, id, owner)
    ensures Continues(d, r)
    ensures |r.store.jobs| == |d.store.jobs| && StandingOf(r.store, id) == Handled(StandingOf(d.store, id))
  {
    UnstrandStands(d, id, now);
    var moved := Unstrand(d, id, now);
    EndJobStands(moved, id, owner, now);
    var ended := EndJob(moved, id, owner, now);
    EndRunStands(ended, id, now);
    EndRun(ended, id, now)
  }

  /** The events leave the store where the body and its handler are said to leave it. */
  ghost function ExecuteOn(s: Store, id: JobId, owner: Owner, script: Script, rebase: bool, now: Instant): (r: Doing)
    requires Held(s, id, owner)
    ensures Traced(r) && r.origin == s && |r.store.jobs| == |s.jobs|
    ensures var met := AsMet(Doing(s, s, [], false), id, owner, script, now);
            (StandingOf(r.store, id), r.threw) == Executed(met, rebase, StandingOf(s, id))
  {
    var start := Doing(s, s, [], false);
    var body := BodyOn(start, id, owner, script, rebase, now);
    if body.threw then HandleOn(body, id, owner, now) else body
  }

  /** The job is terminal, its run is not running, and its task is neither testing nor reviewing. */
  predicate Quiescent(end: Standing)
  {
    && !Active(end.job) && end.run != Some(RunStatus.Running) && end.task !in {Some(Testing), Some(Reviewing)}
    && (end.job == JobStatus.Succeeded
      ==> end.task in {Some(TaskState.Ready), Some(Verifying)} && end.run in {None, Some(RunStatus.Succeeded)})
  }

  /**
   * Whatever fails, and wherever: what the runner does to the store is a run of its events, which keeps the job
   * invariant, and it leaves nothing half-way.
   */
  lemma RunnerLeavesNothingHalfway(s: Store, id: JobId, owner: Owner, script: Script, rebase: bool, now: Instant)
    requires JobsInv(s.jobs) && Held(s, id, owner)
    ensures var r := ExecuteOn(s, id, owner, script, rebase, now);
      && After(s, r.trace) == r.store && JobsInv(r.store.jobs)
      && |r.store.jobs| == |s.jobs| && Quiescent(StandingOf(r.store, id))
  {
    RunKeepsJobs(s, ExecuteOn(s, id, owner, script, rebase, now).trace);
    RunnerIsQuiescent(AsMet(Doing(s, s, [], false), id, owner, script, now), rebase, StandingOf(s, id));
  }
}
