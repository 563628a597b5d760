/** The services themselves, which read and rewrite the stored records step by step. */
module ControlPlanes {
  import opened Backoff
  import opened Common
  import opened Gates
  import opened Jobs
  import opened Promises
  import opened Protocol
  import opened Readiness
  import opened ReadySoundness
  import opened Records
  import opened Recovery

  class ControlPlane {
    const externalCi: bool
    var jobs: seq<Job>
    var runs: seq<Run>
    var tasks: map<TaskId, Task>
    var artifacts: seq<Artifact>

    ghost function State(): Store
      reads this
    {
      Store(externalCi, jobs, runs, tasks, artifacts)
    }

    constructor (externalCi: bool, tasks: map<TaskId, Task>)
      ensures State() == Store(externalCi, [], [], tasks, [])
    {
      this.externalCi := externalCi;
      this.tasks := tasks;
      jobs, runs, artifacts := [], [], [];
    }

    // ---- lookups

    method JobByOperation(op: OperationId) returns (found: Option<JobId>)
      ensures found == FindByOp(jobs, op)
    {
      for i := 0 to |jobs|
        invariant FindByOp(jobs[..i], op).None?
      {
        assert jobs[..i + 1][..i] == jobs[..i];
        if jobs[i].op == op {
          FirstStays(jobs, i, op);
          return Some(i);
        }
      }
      assert jobs[..|jobs|] == jobs;
      found := None;
    }

    static lemma {:induction false} FirstStays(jobs: seq<Job>, i: JobId, op: OperationId)
      requires i < |jobs| && jobs[i].op == op && FindByOp(jobs[..i], op).None?
      ensures FindByOp(jobs, op) == Some(i)
    {
      var n := |jobs| - 1;
      if i == n {
      } else {
        assert jobs[..n][..i] == jobs[..i];
        FirstStays(jobs[..n], i, op);
      }
    }

    method HasJobInFlight(task: TaskId) returns (r: bool)
      ensures r == InFlight(jobs, task)
    {
      for i := 0 to |jobs|
        invariant forall k :: 0 <= k < i ==> !(jobs[k].task == task && Active(jobs[k].status))
      {
        if jobs[i].task == task && Active(jobs[i].status) { return true; }
      }
      r := false;
    }

    /** The last job, in order of creation, that published a commit on the branch. */
    method PublishedCommit(task: TaskId, branch: Branch) returns (commit: Option<Commit>)
      ensures commit == InheritedCommit(jobs, task, branch)
    {
      commit := None;
      for i := 0 to |jobs|
        invariant commit == InheritedCommit(jobs[..i], task, branch)
      {
        assert jobs[..i + 1][..i] == jobs[..i];
        if Publishes(jobs[i], task, branch) { commit := jobs[i].commit; }
      }
      assert jobs[..|jobs|] == jobs;
    }

    // ---- enqueueing

    method HasRun(op: OperationId) returns (r: bool)
      ensures r == RunNamed(runs, op)
    {
      for i := 0 to |runs|
        invariant forall k :: 0 <= k < i ==> runs[k].op != op
      {
        if runs[i].op == op { return true; }
      }
      r := false;
    }

    /**
     * Saves the run, unless the operation has one, and the queued job; marks the job as dispatching, then records what
     * the dispatcher answered. Updating a run stores it even when saving it did not.
     */
    method SaveAndDispatch(job: Job, start: Start, now: Instant) returns (reply: Reply)
      requires job.status == JobStatus.Queued
      modifies this`jobs, this`runs
      ensures Answer(State(), reply) == Launch(old(State()), job, start, now)
    {
      var runId, jobId := |runs|, |jobs|;
      var named := HasRun(job.op);
      var run := Run(job.task, job.op, RunStatus.Running, None);
      if !named { runs := runs + [run]; }
      var current := job.(run := if named then None else Some(runId));
      jobs := jobs + [current];
      current := current.(status := JobStatus.Dispatching, updatedAt := now);
      jobs := jobs[jobId := current];
      match start {
        case Started(_) =>
          current := current.(status := JobStatus.Dispatched, workflowRun := WithRun(current, start), updatedAt := now);
          reply := Accepted(jobId);
        case NotStarted =>
          current := current.(run := Some(runId), status := JobStatus.Blocked, error := Some(DispatchFailed),
                              finishedAt := Some(now), updatedAt := now);
          runs := runs[..runId] + [run.(status := RunStatus.Failed)];
          reply := RefusedFor(NotDispatched);
      }
      jobs := jobs[jobId := current];
      assert jobs == old(jobs) + [current];
    }

    method Enqueue(task: TaskId, op: OperationId, payload: Payload, permitted: bool, base: Base, start: Start,
        now: Instant) returns (reply: Reply)
      modifies this`jobs, this`runs, this`tasks
      ensures Answer(State(), reply)
          == EnqueueImplementation(old(State()), task, op, payload, permitted, base, start, now)
      ensures EnqueuePromise(old(State()), Answer(State(), reply), task, op)
    {
      ImplementationPromise(State(), task, op, payload, permitted, base, start, now);
      if task !in tasks { return RefusedFor(NoTask); }
      var existing := JobByOperation(op);
      if existing.Some? {
        var run := jobs[existing.value].run;
        return if run.Some? && run.value < |runs| then Replayed(existing.value) else RefusedFor(IdentityMissing);
      }
      reply := EnqueueNew(task, op, payload, permitted, base, start, now);
    }

    method EnqueueNew(task: TaskId, op: OperationId, payload: Payload, permitted: bool, base: Base, start: Start,
        now: Instant) returns (reply: Reply)
      requires task in tasks && FindByOp(jobs, op).None?
      modifies this`jobs, this`runs, this`tasks
      ensures Answer(State(), reply)
          == EnqueueImplementation(old(State()), task, op, payload, permitted, base, start, now)
    {
      if tasks[task].state !in {Planned, Implementing, Verifying} { return RefusedFor(WrongState); }
      var busy := HasJobInFlight(task);
      if busy { return RefusedFor(JobInFlight); }
      if !permitted { return RefusedFor(NotPermitted); }
      if base.Unresolved? {
        tasks := tasks[task := tasks[task].(state := TaskState.Blocked)];
        return RefusedFor(NoBase);
      }
      if tasks[task].state == Planned { tasks := tasks[task := tasks[task].(state := Implementing)]; }
      if tasks[task].state == Verifying { tasks := tasks[task := tasks[task].(state := Implementing)]; }
      assert tasks == old(tasks)[task := old(tasks)[task].(state := Implementing)];
      var job := BuildJob(task, op, payload, base, now);
      reply := SaveAndDispatch(job, start, now);
    }

    method BuildJob(task: TaskId, op: OperationId, payload: Payload, base: Base, now: Instant) returns (job: Job)
      requires task in tasks
      ensures job == ImplementationJob(State(), task, op, payload, base, now)
    {
      var t := tasks[task];
      var previous := PublishedCommit(task, t.branch);
      job := NewJob(task, if t.repairAttempts > 0 then Repair else Implementation, op, payload, t.repairAttempts, now).(
        branch := Some(t.branch),
        commit := previous,
        baseBranch := if base.Pinned? then Some(base.branch) else None,
        pinned := if base.Pinned? then Some(base.commit) else None);
    }

    method EnqueueTransfer(task: TaskId, op: OperationId, payload: Payload, source: Branch, commit: Commit,
        original: Commit, permitted: bool, start: Start, now: Instant)
      returns (reply: Reply)
      modifies this`jobs, this`runs, this`tasks
      ensures Answer(State(), reply)
          == EnqueueRebase(old(State()), task, op, payload, source, commit, original, permitted, start, now)
      ensures EnqueuePromise(old(State()), Answer(State(), reply), task, op)
    {
      RebasePromise(State(), task, op, payload, source, commit, original, permitted, start, now);
      if task !in tasks { return RefusedFor(NoTask); }
      var existing := JobByOperation(op);
      if existing.Some? {
        var run := jobs[existing.value].run;
        return if run.Some? && run.value < |runs| then Replayed(existing.value) else RefusedFor(IdentityMissing);
      }
      if tasks[task].state !in {TaskState.Ready, Implementing, TaskState.Blocked} { return RefusedFor(WrongState); }
      var busy := HasJobInFlight(task);
      if busy { return RefusedFor(JobInFlight); }
      if !permitted { return RefusedFor(NotPermitted); }
      if tasks[task].state != Implementing { tasks := tasks[task := tasks[task].(state := Implementing)]; }
      assert tasks == old(tasks)[task := old(tasks)[task].(state := Implementing)];
      var job := NewJob(task, Kind.Rebase, op, payload, tasks[task].repairAttempts, now).(
        branch := Some(source), commit := Some(commit), pinned := Some(original));
      reply := SaveAndDispatch(job, start, now);
    }

    method EnqueueVerification(task: TaskId, op: OperationId, payload: Payload, pin: Option<Commit>, permitted: bool,
        start: Start, now: Instant)
      returns (reply: Reply)
      modifies this`jobs
      ensures Answer(State(), reply) == EnqueueHttpE2e(old(State()), task, op, payload, pin, permitted, start, now)
      ensures EnqueuePromise(old(State()), Answer(State(), reply), task, op)
    {
      VerificationPromise(State(), task, op, payload, pin, permitted, start, now);
      if !permitted { return RefusedFor(NotPermitted); }
      if task !in tasks { return RefusedFor(NoTask); }
      var existing := JobByOperation(op);
      if existing.Some? { return Replayed(existing.value); }
      var busy := HasJobInFlight(task);
      if busy { return RefusedFor(JobInFlight); }
      if pin.None? { return RefusedFor(NotPermitted); }
      var id := |jobs|;
      var job := NewJob(task, HttpE2e, op, payload, 0, now).(pinned := pin);
      jobs := jobs + [job];
      job := job.(status := JobStatus.Dispatching, updatedAt := now);
      jobs := jobs[id := job];
      match start {
        case Started(_) =>
          job := job.(status := JobStatus.Dispatched, workflowRun := WithRun(job, start), updatedAt := now);
          reply := Accepted(id);
        case NotStarted =>
          job := job.(status := JobStatus.Failed, error := Some(DispatchFailed), finishedAt := Some(now),
              updatedAt := now);
          reply := RefusedFor(NotDispatched);
      }
      jobs := jobs[id := job];
      assert jobs == old(jobs) + [job];
    }

    // ---- claiming and cancelling

    /** Only an active job that nobody else holds is claimed, and its lease then belongs to the claimer. */
    method ClaimExecutionJob(id: JobId, owner: Owner, expires: Instant, now: Instant) returns (claimed: Option<Job>)
      modifies this`jobs
      ensures claimed == if id < |old(jobs)| then Claim(old(jobs)[id], owner, expires, now) else None
      ensures jobs == if claimed.Some? then old(jobs)[id := claimed.value] else old(jobs)
      ensures claimed.Some? ==> Active(old(jobs)[id].status)
      ensures claimed.Some? ==> claimed.value.owner == Some(owner) && claimed.value.leaseExpires == Some(expires)
      ensures forall other, until: Instant, later: Instant :: claimed.Some? && other != owner ==>
                (Claim(jobs[id], other, until, later).Some? <==> later >= expires)
    {
      if id >= |jobs| || jobs[id].status !in {JobStatus.Queued, JobStatus.Dispatched, JobStatus.Claimed} {
        return None;
      }
      var value := jobs[id];
      if value.leaseExpires.Some? && value.leaseExpires.value > now && value.owner != Some(owner) { return None; }
      value := value.(status := JobStatus.Claimed, owner := Some(owner), leaseExpires := Some(expires),
                      startedAt := if value.startedAt.Some? then value.startedAt else Some(now), updatedAt := now);
      jobs := jobs[id := value];
      claimed := Some(value);
    }

    /** Cancelling an ended job changes nothing; a live one ends together with its open run. */
    method CancelExecutionJob(id: JobId, now: Instant)
      modifies this`jobs, this`runs
      ensures State() == CancelJob(old(State()), id, now)
      ensures CancelPromise(old(State()), State(), id)
    {
      CancelKeepsPromise(State(), id, now);
      if id >= |jobs| || !Active(jobs[id].status) { return; }
      var job := jobs[id];
      var ended := job.(status := JobStatus.Cancelled, finishedAt := Some(now), updatedAt := now,
                        error := Some(CancelledByOperator));
      jobs := jobs[id := ended];
      if job.run.Some? && job.run.value < |runs| && runs[job.run.value].status == RunStatus.Running {
        runs := runs[job.run.value := runs[job.run.value].(status := RunStatus.Cancelled)];
      }
    }

    // ---- HTTP verification

    method PersistEvidence(id: JobId, job: Job, proven: bool) returns (report: ArtifactId)
      requires id < |jobs| && job.task == jobs[id].task && job.pinned == jobs[id].pinned
      modifies this`artifacts
      ensures State() == WithReport(old(State()), id, proven)
      ensures report == |artifacts| - 1 && artifacts[report].content == Verification(id, job.pinned, proven)
    {
      artifacts := artifacts + [Artifact(job.task, OtherArtifact, true, Unread)];
      artifacts := artifacts + [Artifact(job.task, ValidationReport, true, Verification(id, job.pinned, proven))];
      report := |artifacts| - 1;
    }

    method Prepare(id: JobId, owner: Owner, workflowRun: Option<nat>, ready: bool, now: Instant)
      modifies this`jobs, this`artifacts
      ensures State() == PrepareHttpE2e(old(State()), id, owner, workflowRun, ready, now)
      ensures PreparePromise(old(State()), State(), id, owner, ready)
    {
      PrepareKeepsPromise(State(), id, owner, workflowRun, ready, now);
      if id >= |jobs| || jobs[id].kind != HttpE2e { return; }
      var claimed := Claim(jobs[id], owner, now + E2E_LEASE_MINUTES * MINUTE, now);
      if claimed.None? { return; }
      var job := claimed.value;
      jobs := jobs[id := job];
      job := Began(job, workflowRun);
      jobs := jobs[id := job];
      if !ready {
        var report := PersistEvidence(id, job, false);
        jobs := jobs[id := EndVerification(job, false, now)];
      }
    }

    method Record(id: JobId, owner: Owner, submission: Submission, now: Instant) returns (report: Option<ArtifactId>)
      modifies this`jobs, this`artifacts
      ensures State() == RecordHttpE2e(old(State()), id, owner, submission, now)
      ensures report.Some? <==> MayRecord(old(State()), id, owner)
      ensures RecordPromise(old(State()), State(), id, owner, submission)
    {
      RecordKeepsPromise(State(), id, owner, submission, now);
      if id >= |jobs| || jobs[id].kind != HttpE2e { return None; }
      if jobs[id].status != JobStatus.Running { return None; }
      if jobs[id].owner != Some(owner) { return None; }
      var job := jobs[id];
      var accepted, proven := false, false;
      match submission {
        case WellFormed(p) => accepted, proven := true, p;
        case _ => {}
      }
      var written := PersistEvidence(id, job, proven);
      jobs := jobs[id := EndVerification(job, accepted, now)];
      report := Some(written);
    }

    // ---- recovery

    /** Marks the attempt as dispatching, asks for a runner, and puts the attempt back in the queue when refused. */
    method DispatchAttempt(id: JobId, start: Start, now: Instant) returns (result: PassResult)
      requires id < |jobs| && jobs[id].resume.Some?
      modifies this`jobs
      ensures Iteration(State(), [result], false) == Dispatch(old(State()), id, start, now)
    {
      var job := jobs[id];
      var dispatching := job.(status := JobStatus.Dispatching, updatedAt := now);
      jobs := jobs[id := dispatching];
      match start {
        case Started(_) =>
          jobs := jobs[id := dispatching.(status := JobStatus.Dispatched, workflowRun := WithRun(job, start),
              updatedAt := now)];
          result := Redispatched(id, job.resume.value.link.attempt);
        case NotStarted =>
          var notBefore := now + BASE_MINUTES * MINUTE;
          jobs := jobs[id := job.(status := JobStatus.Queued, updatedAt := now,
              resume := Some(job.resume.value.(notBefore := notBefore)))];
          result := Deferred(id, notBefore);
      }
    }

    /** Work that is not resumed: the run closes, and a task still implementing is blocked. */
    method StopWork(job: Job)
      modifies this`runs, this`tasks
      ensures State() == Stop(old(State()), job)
    {
      if job.run.Some? && job.run.value < |runs| && runs[job.run.value].status == RunStatus.Running {
        runs := runs[job.run.value := runs[job.run.value].(status := RunStatus.Failed)];
      }
      if job.task in tasks && tasks[job.task].state == Implementing {
        tasks := tasks[job.task := tasks[job.task].(state := TaskState.Blocked)];
      }
    }

    /** One iteration of the pass. */
    method ReconcileJob(id: JobId, o: Observation) returns (results: seq<PassResult>, threw: bool)
      modifies this`jobs, this`runs, this`tasks
      ensures Iteration(State(), results, threw) == Reconcile(old(State()), id, o.view, o.newUrl, o.start, o.now)
      ensures RecoveryPromise(old(State()), State(), threw)
    {
      IterationKeepsPromise(State(), id, o);
      results, threw := [], false;
      if id >= |jobs| { return; }
      if jobs[id].status == JobStatus.Queued && jobs[id].resume.Some? {
        if jobs[id].resume.value.notBefore > o.now { results := [Waited(id)]; return; }
        var dispatched := DispatchAttempt(id, o.start, o.now);
        results := [dispatched];
        return;
      }
      var job := Seen(jobs[id], o.view, o.newUrl, o.now);
      jobs := jobs[id := job];
      var decision := Decide(job, o.view, o.now);
      ConcludeOverwrites(old(State()), id, job, decision, o.start, o.now);
      assert State() == PutJob(old(State()), id, job);
      results, threw := Carry(id, job, decision, o);
    }

    method Carry(id: JobId, job: Job, decision: Decision, o: Observation) returns (results: seq<PassResult>,
        threw: bool)
      requires id < |jobs| && jobs[id] == job
      modifies this`jobs, this`runs, this`tasks
      ensures Iteration(State(), results, threw) == Conclude(old(State()), id, job, decision, o.start, o.now)
    {
      threw := false;
      match decision {
        case Ignore => results := [Ignored(id)];
        case Wait => results := [Waited(id)];
        case Terminalize(status, cause) =>
          jobs := jobs[id := EndStalled(job, status, cause, o.now)];
          if !Resumable(job, cause) {
            StopWork(job);
            results := [Ended(id, status, cause)];
          } else {
            results, threw := CreateNext(id, NextAttempt(job, id, cause, o.now), o);
          }
      }
    }

    /** Creating a job under an identifier that is taken yields the job that has it. */
    method CreateNext(stalled: JobId, next: Job, o: Observation) returns (results: seq<PassResult>, threw: bool)
      modifies this`jobs
      ensures Iteration(State(), results, threw) == Continue(old(State()), stalled, next, o.start, o.now)
    {
      var duplicate := JobByOperation(next.op);
      var id := |jobs|;
      if duplicate.Some? { id := duplicate.value; } else { jobs := jobs + [next]; }
      if duplicate.Some? && jobs[id].resume.None? { return [], true; }
      results, threw := [ResumedAs(stalled, id)], false;
      if jobs[id].resume.Some? && jobs[id].resume.value.notBefore <= o.now {
        var dispatched := DispatchAttempt(id, o.start, o.now);
        results := results + [dispatched];
      }
    }

    /** One reconciler pass over every job in flight when it begins. */
    method RecoverStalledWork(observe: JobId -> Observation) returns (results: seq<PassResult>, threw: bool)
      modifies this`jobs, this`runs, this`tasks
      ensures Iteration(State(), results, threw) == Pass(old(State()), ActiveIds(old(jobs)), observe)
      ensures RecoveryPromise(old(State()), State(), threw) && StallsEnd(old(State()), State(), observe)
    {
      PassKeepsPromise(State(), observe);
      results, threw := ReconcileAll(ActiveIds(jobs), observe);
    }

    method ReconcileAll(ids: seq<JobId>, observe: JobId -> Observation) returns (results: seq<PassResult>, threw: bool)
      modifies this`jobs, this`runs, this`tasks
      ensures Iteration(State(), results, threw) == Pass(old(State()), ids, observe)
    {
      results, threw := [], false;
      for k := 0 to |ids|
        invariant !threw && Iteration(State(), results, threw) == Pass(old(State()), ids[..k], observe)
      {
        assert ids[..k + 1][..k] == ids[..k];
        var more;
        more, threw := ReconcileJob(ids[k], observe(ids[k]));
        results := results + more;
        if threw {
          PassStopsWhenThrown(old(State()), ids, k + 1, observe);
          return;
        }
      }
      assert ids[..|ids|] == ids;
    }

    static lemma {:induction false} PassStopsWhenThrown(s: Store, ids: seq<JobId>, k: nat,
        observe: JobId -> Observation)
      requires k <= |ids| && Pass(s, ids[..k], observe).threw
      ensures Pass(s, ids, observe) == Pass(s, ids[..k], observe)
    {
      if k == |ids| {
        assert ids[..k] == ids;
      } else {
        var init := ids[..|ids| - 1];
        assert init[..k] == ids[..k];
        PassStopsWhenThrown(s, init, k, observe);
      }
    }

    // ---- the gates

    method TaskBlockers(task: TaskId) returns (blockers: seq<GateBlocker>)
      requires task in tasks
      ensures blockers == [] <==> Met(State(), task)
      ensures OnlyVerificationOwed(State(), task)
          <==> blockers != [] && forall b :: b in blockers ==> b == NoProvenVerification
    {
      var latest := LatestCommit(runs, task);
      blockers := GateBlockers(artifacts, task, latest, tasks[task].plan, externalCi);
      var plan := tasks[task].plan;
      var without := plan.(owesHttpE2e := false);
      assert Demanded(plan, externalCi) == Demanded(without, externalCi);
      CiIsDemanded(plan, externalCi);
      if forall b :: b in blockers ==> b == NoProvenVerification {
        assert forall kind :: kind in Demanded(plan, externalCi) ==> Missing(kind) !in blockers;
        assert NoExactCi !in blockers;
      }
      assert forall b :: b in blockers ==> b.Missing? || b == NoExactCi || b == NoProvenVerification;
    }

    /** The manifest is written from everything recorded for the task, then the task becomes READY. */
    method PromoteToReady(task: TaskId)
      requires task in tasks
      modifies this`artifacts, this`tasks
      ensures State() == Promote(old(State()), task)
    {
      var latest := LatestCommit(runs, task);
      var cited := None;
      if OwesVerification(tasks[task].plan, externalCi) && latest.Some? {
        cited := FindLatestReport(artifacts, task, latest.value, true);
      }
      artifacts := artifacts + [Artifact(task, FinalChangeManifest, true, Manifest(latest, cited))];
      tasks := tasks[task := tasks[task].(state := TaskState.Ready)];
    }

    method TaskReview(task: TaskId, passed: bool)
      modifies this`artifacts, this`tasks
      ensures State() == Review(old(State()), task, passed)
      ensures GatePromise(old(State()), State(), task)
    {
      ReviewKeepsPromise(State(), task, passed);
      if task !in tasks || tasks[task].state != Reviewing { return; }
      if !HasTestReport(artifacts, task) { return; }
      artifacts := artifacts + [Artifact(task, ReviewReport, true, Unread)];
      if !passed {
        tasks := tasks[task := tasks[task].(state := Implementing)];
        return;
      }
      var blockers := TaskBlockers(task);
      if blockers != [] && forall b :: b in blockers ==> b == NoProvenVerification {
        tasks := tasks[task := tasks[task].(state := Verifying)];
        return;
      }
      if blockers != [] { return; }
      PromoteToReady(task);
    }

    method TaskCompleteVerification(task: TaskId)
      modifies this`artifacts, this`tasks
      ensures State() == CompleteVerification(old(State()), task)
      ensures GatePromise(old(State()), State(), task)
      ensures BecomesReady(old(tasks), tasks, task) <==>
                task in old(tasks) && old(tasks)[task].state == Verifying && old(Met(State(), task))
    {
      CompletionKeepsPromise(State(), task);
      if task !in tasks || tasks[task].state != Verifying { return; }
      var blockers := TaskBlockers(task);
      if blockers != [] { return; }
      PromoteToReady(task);
    }
  }
}
