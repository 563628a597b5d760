/** The main body of an execution runner: whatever fails, and wherever, it leaves nothing half-way. */
module ExecutionRunners {
  import opened Common
  import opened Jobs
  import opened Protocol
  import opened Records

  /** Every place where the body can throw. */
  datatype Point =
    | RunningWrite | Guards | Workspace | Transfer | Build | AttemptWrite | EarlyArtifacts | Push | PublicationWrite
    | RunWrite
    | TestSuites | TestReports | CiReport | ReviewReport | ReviewAudit | PullRequest | RunSuccess | JobSuccess
    | SuccessAudit | FinalRead

  datatype Gate = Open | VerificationOwed | EvidenceMissing

  /** What happens to a run: which operations succeed, and what the tests, the review and the gate conclude. */
  datatype Script = Script(succeeds: Point -> bool, transferConflicts: bool, testsPass: bool, reviewPasses: bool,
      gate: Gate)

  /** Where the job, its run and its task stand. */
  datatype Standing = Standing(job: JobStatus, run: Option<RunStatus>, task: Option<TaskState>)

  /** A task state reached, and whether an error was thrown on the way. */
  datatype Reached = Reached(task: TaskState, threw: bool)

  function MoveTo(task: TaskState, to: TaskState): Reached
  {
    if Allowed(task, to) then Reached(to, false) else Reached(task, true)
  }

  /**
   * Tests run in TESTING and leave it for REVIEWING, or for IMPLEMENTING with an error; an error in between leaves it
   * there.
   */
  function Tested(s: Script, task: TaskState): Reached
  {
    if task != Implementing then Reached(task, true)
    else if !s.succeeds(TestSuites) || !s.succeeds(TestReports) then Reached(Testing, true)
    else if !s.testsPass then Reached(Implementing, true)
    else Reached(Reviewing, false)
  }

  function Reviewed(s: Script, task: TaskState): Reached
  {
    if task != Reviewing || !s.succeeds(Point.ReviewReport) then Reached(task, true)
    else if !s.reviewPasses then Reached(Implementing, true)
    else
      match s.gate
      case EvidenceMissing => Reached(task, true)
      case VerificationOwed => Reached(Verifying, !s.succeeds(ReviewAudit))
      case Open => Reached(TaskState.Ready, !s.succeeds(ReviewAudit))
  }

  /** Everything before the task is touched went well. */
  predicate Published(s: Script, rebase: bool)
  {
    && s.succeeds(RunningWrite) && s.succeeds(Guards) && s.succeeds(Workspace)
    && (rebase ==> s.succeeds(Transfer) && !s.transferConflicts)
    && s.succeeds(Build) && s.succeeds(AttemptWrite) && s.succeeds(EarlyArtifacts) && s.succeeds(Push)
    && s.succeeds(PublicationWrite) && s.succeeds(RunWrite)
  }

  /** What follows publication: testing, review, the pull request, and closing the run and the job. */
  function Finished(s: Script, running: Standing): (Standing, bool)
    requires running.task.Some?
  {
    var tested := Tested(s, running.task.value);
    if tested.threw || !s.succeeds(Point.CiReport) then (running.(task := Some(tested.task)), true)
    else
      var reviewed := Reviewed(s, tested.task);
      var after := running.(task := Some(reviewed.task));
      if reviewed.threw || !s.succeeds(PullRequest) || !s.succeeds(RunSuccess) then (after, true)
      else
        var closed := after.(run := if after.run.Some? then Some(RunStatus.Succeeded) else None);
        if !s.succeeds(JobSuccess) then (closed, true)
        else (closed.(job := JobStatus.Succeeded), !s.succeeds(SuccessAudit) || !s.succeeds(FinalRead))
  }

  /** The guarded part of the body: where it leaves things, and whether it threw. */
  function BodyOf(s: Script, rebase: bool, start: Standing): (Standing, bool)
  {
    if !s.succeeds(RunningWrite) then (start, true)
    else
      var running := start.(job := JobStatus.Running);
      if running.task.None? then (running, true)
      else if !Published(s, rebase) then
        if rebase && s.succeeds(Guards) && s.succeeds(Workspace) && s.succeeds(Transfer) && s.transferConflicts
        then (running.(task := Some(MoveTo(running.task.value, TaskState.Blocked).task)), true)
        else (running, true)
      else Finished(s, running)
  }

  /**
   * The error handler: a task stranded in TESTING or REVIEWING is blocked, and the job and its open run end with it.
   */
  function Handled(now: Standing): Standing
  {
    var stranded := now.task == Some(Testing) || now.task == Some(Reviewing);
    var task := if stranded then Some(TaskState.Blocked) else now.task;
    var job := if task == Some(TaskState.Blocked) then JobStatus.Blocked else JobStatus.Failed;
    Standing(job, if now.run != Some(RunStatus.Running) then now.run
                  else Some(if job == JobStatus.Blocked then RunStatus.Blocked else RunStatus.Failed), task)
  }

  function Executed(s: Script, rebase: bool, start: Standing): (Standing, bool)
  {
    var (now, threw) := BodyOf(s, rebase, start);
    (if threw then Handled(now) else now, threw)
  }

  /**
   * Once the body finishes, by success or by an error anywhere, the job is terminal, its run is not running and its
   * task is neither testing nor reviewing; and it succeeds only with the task ready or waiting for its verification
   * alone.
   */
  lemma RunnerIsQuiescent(s: Script, rebase: bool, start: Standing)
    ensures var (end, threw) := Executed(s, rebase, start);
      && !Active(end.job) && end.run != Some(RunStatus.Running) && end.task !in {Some(Testing), Some(Reviewing)}
      && (end.job == JobStatus.Succeeded <==> !threw)
      && (!threw ==>
            && end.task in {Some(TaskState.Ready), Some(Verifying)}
            && end.run in {None, Some(RunStatus.Succeeded)})
      && (threw ==> (end.job == JobStatus.Blocked <==> end.task == Some(TaskState.Blocked)))
  {
  }

  /** The body did everything its success stands for, up to closing the run. */
  predicate DidItsWork(s: Script, rebase: bool, start: Standing)
  {
    && Published(s, rebase) && start.task == Some(Implementing)
    && s.succeeds(TestSuites) && s.succeeds(TestReports) && s.testsPass && s.succeeds(Point.CiReport)
    && s.succeeds(Point.ReviewReport) && s.reviewPasses && !s.gate.EvidenceMissing? && s.succeeds(ReviewAudit)
    && s.succeeds(PullRequest) && s.succeeds(RunSuccess)
  }

  /**
   * A job can be recorded as failed although its run succeeded and its task moved on: exactly when an error comes after
   * the work was done and its run closed.
   */
  lemma FailedJobOfASucceededRun(s: Script, rebase: bool, start: Standing)
    requires start.run == Some(RunStatus.Running)
    ensures var (end, _) := Executed(s, rebase, start);
      (end.job == JobStatus.Failed && end.run == Some(RunStatus.Succeeded)) <==>
        DidItsWork(s, rebase, start) && !(s.succeeds(JobSuccess) && s.succeeds(SuccessAudit) && s.succeeds(FinalRead))
  {
  }

  class ExecutionRunner {
    var job: JobStatus
    var run: Option<RunStatus>
    var task: Option<TaskState>

    constructor (run: Option<RunStatus>, task: Option<TaskState>)
      ensures Now() == Standing(JobStatus.Claimed, run, task)
    {
      job := JobStatus.Claimed;
      this.run, this.task := run, task;
    }

    function Now(): Standing
      reads this
    {
      Standing(job, run, task)
    }

    /** A transition that the table of states does not allow is refused. */
    method Move(to: TaskState) returns (threw: bool)
      requires task.Some?
      modifies this`task
      ensures task.Some? && Reached(task.value, threw) == MoveTo(old(task).value, to)
    {
      if !Allowed(task.value, to) { return true; }
      task := Some(to);
      threw := false;
    }

    method TaskTest(s: Script) returns (threw: bool)
      requires task.Some?
      modifies this`task
      ensures task.Some? && Reached(task.value, threw) == Tested(s, old(task).value)
    {
      if task.value != Implementing { return true; }
      threw := Move(Testing);
      if !s.succeeds(TestSuites) || !s.succeeds(TestReports) { return true; }
      if !s.testsPass {
        threw := Move(Implementing);
        return true;
      }
      threw := Move(Reviewing);
    }

    method TaskReview(s: Script) returns (threw: bool)
      requires task.Some?
      modifies this`task
      ensures task.Some? && Reached(task.value, threw) == Reviewed(s, old(task).value)
    {
      if task.value != Reviewing || !s.succeeds(Point.ReviewReport) { return true; }
      if !s.reviewPasses {
        threw := Move(Implementing);
        return true;
      }
      match s.gate {
        case EvidenceMissing => return true;
        case VerificationOwed => threw := Move(Verifying);
        case Open => threw := Move(TaskState.Ready);
      }
      if !s.succeeds(ReviewAudit) { threw := true; }
    }

    method Body(s: Script, rebase: bool) returns (threw: bool)
      modifies this
      ensures (Now(), threw) == BodyOf(s, rebase, old(Now()))
    {
      if !s.succeeds(RunningWrite) { return true; }
      job := JobStatus.Running;
      if task.None? || !s.succeeds(Guards) || !s.succeeds(Workspace) { return true; }
      if rebase {
        if !s.succeeds(Transfer) { return true; }
        if s.transferConflicts {
          threw := Move(TaskState.Blocked);
          return true;
        }
      }
      if !s.succeeds(Build) || !s.succeeds(AttemptWrite) || !s.succeeds(EarlyArtifacts) || !s.succeeds(Push) {
        return true;
      }
      if !s.succeeds(PublicationWrite) || !s.succeeds(RunWrite) { return true; }
      threw := TaskTest(s);
      if threw || !s.succeeds(Point.CiReport) { return true; }
      threw := TaskReview(s);
      if threw || !s.succeeds(PullRequest) || !s.succeeds(RunSuccess) { return true; }
      if run.Some? { run := Some(RunStatus.Succeeded); }
      if !s.succeeds(JobSuccess) { return true; }
      job := JobStatus.Succeeded;
      if !s.succeeds(SuccessAudit) || !s.succeeds(FinalRead) { return true; }
    }

    method Handle()
      modifies this
      ensures Now() == Handled(old(Now()))
      ensures !Active(job) && run != Some(RunStatus.Running) && task !in {Some(Testing), Some(Reviewing)}
      ensures task == old(task) || (old(task) in {Some(Testing), Some(Reviewing)} && task == Some(TaskState.Blocked))
    {
      var seen := task;
      var stranded := seen.Some? && (seen.value == Testing || seen.value == Reviewing);
      if stranded {
        var refused := Move(TaskState.Blocked);
      }
      job := if seen == Some(TaskState.Blocked) || stranded then JobStatus.Blocked else JobStatus.Failed;
      if run.Some? && run.value == RunStatus.Running {
        run := Some(if job == JobStatus.Blocked then RunStatus.Blocked else RunStatus.Failed);
      }
    }

    method Execute(s: Script, rebase: bool) returns (threw: bool)
      modifies this
      ensures (Now(), threw) == Executed(s, rebase, old(Now()))
      ensures !Active(job) && run != Some(RunStatus.Running) && task !in {Some(Testing), Some(Reviewing)}
    {
      RunnerIsQuiescent(s, rebase, Now());
      threw := Body(s, rebase);
      if threw { Handle(); }
    }
  }
}
