/** What each service operation promises its caller, whatever the store holds. */
module Promises {
  import opened Common
  import opened Gates
  import opened JobInvariant
  import opened Jobs
  import opened NameCollisions
  import opened Protocol
  import opened Readiness
  import opened ReadySoundness
  import opened Records
  import opened Recovery

  /** Old jobs stay as they were, other tasks too, and no task gets a second job in flight. */
  ghost predicate OnlyAdds(s: Store, after: Store, task: TaskId)
  {
    && s.jobs <= after.jobs && s.runs <= after.runs && after.artifacts == s.artifacts
    && (OneInFlight(s.jobs) ==> OneInFlight(after.jobs))
    && forall t :: t != task ==> TaskUntouched(s, after, t)
  }

  /**
   * Asking for work: accepted means that the task had nothing in flight and has exactly the new job now; a replay and
   * every refusal before the dispatch change nothing; a refused dispatch leaves nothing in flight and no open run.
   */
  ghost predicate EnqueuePromise(s: Store, a: Answer, task: TaskId, op: OperationId)
  {
    && OnlyAdds(s, a.store, task)
    && match a.reply
       case Accepted(id) =>
         && id == |s.jobs| && |a.store.jobs| == id + 1 && !InFlight(s.jobs, task) && FindByOp(s.jobs, op).None?
         && Live(a.store, task, id) && a.store.jobs[id].op == op
       case Replayed(id) => a.store == s && FindByOp(s.jobs, op) == Some(id)
       case RefusedFor(why) =>
         match why
         case NotDispatched =>
           && |a.store.jobs| == |s.jobs| + 1 && !InFlight(a.store.jobs, task)
             && RunClosed(a.store.runs, Last(a.store.jobs).run)
         case NoBase =>
           a.store.jobs == s.jobs && a.store.runs == s.runs && task in a.store.tasks
             && a.store.tasks[task].state == TaskState.Blocked
         case JobInFlight => a.store == s && InFlight(s.jobs, task) && FindByOp(s.jobs, op).None?
         case NoTask => a.store == s && task !in s.tasks
         case _ => a.store == s
  }

  lemma LaunchPromise(s: Store, job: Job, start: Start, now: Instant)
    requires !InFlight(s.jobs, job.task) && FindByOp(s.jobs, job.op).None?
    ensures EnqueuePromise(s, Launch(s, job, start, now), job.task, job.op)
  {
    var a := Launch(s, job, start, now);
    if OneInFlight(s.jobs) { LaunchKeepsOne(s, job, start, now); }
    assert a.store.jobs[..|s.jobs|] == s.jobs && a.store.runs[..|s.runs|] == s.runs;
    assert forall i :: 0 <= i < |s.jobs| ==> a.store.jobs[i] == s.jobs[i];
  }

  lemma LaunchAfterMove(s: Store, job: Job, start: Start, now: Instant)
    requires job.task in s.tasks && !InFlight(s.jobs, job.task) && FindByOp(s.jobs, job.op).None?
    ensures EnqueuePromise(s, Launch(SetState(s, job.task, Implementing), job, start, now), job.task, job.op)
  {
    var t := SetState(s, job.task, Implementing);
    LaunchPromise(t, job, start, now);
    var after := Launch(t, job, start, now).store;
    forall u | u != job.task ensures TaskUntouched(s, after, u) { assert TaskUntouched(t, after, u); }
  }

  lemma ImplementationPromise(s: Store, task: TaskId, op: OperationId, payload: Payload, permitted: bool, base: Base,
      start: Start, now: Instant)
    ensures EnqueuePromise(s, EnqueueImplementation(s, task, op, payload, permitted, base, start, now), task, op)
  {
    if task in s.tasks && FindByOp(s.jobs, op).None? && !InFlight(s.jobs, task) {
      LaunchAfterMove(s, ImplementationJob(s, task, op, payload, base, now), start, now);
    }
  }

  lemma RebasePromise(s: Store, task: TaskId, op: OperationId, payload: Payload, source: Branch, commit: Commit,
      original: Commit, permitted: bool, start: Start, now: Instant)
    ensures EnqueuePromise(s, EnqueueRebase(s, task, op, payload, source, commit, original, permitted, start, now),
        task, op)
  {
    if task in s.tasks && FindByOp(s.jobs, op).None? && !InFlight(s.jobs, task) {
      LaunchAfterMove(s, RebaseJob(s, task, op, payload, source, commit, original, now), start, now);
    }
  }

  lemma VerificationPromise(s: Store, task: TaskId, op: OperationId, payload: Payload, pin: Option<Commit>,
      permitted: bool, start: Start, now: Instant)
    ensures EnqueuePromise(s, EnqueueHttpE2e(s, task, op, payload, pin, permitted, start, now), task, op)
  {
    var a := EnqueueHttpE2e(s, task, op, payload, pin, permitted, start, now);
    if OneInFlight(s.jobs) { VerificationKeepsOne(s, task, op, payload, pin, permitted, start, now); }
    if |a.store.jobs| > |s.jobs| {
      assert a.store.jobs[..|s.jobs|] == s.jobs;
      assert forall i :: 0 <= i < |s.jobs| ==> a.store.jobs[i] == s.jobs[i];
    }
  }

  /** One job is rewritten, the rest of the jobs stay, and no task gets a second job in flight. */
  ghost predicate RewritesOne(s: Store, after: Store, id: JobId)
  {
    && |after.jobs| == |s.jobs| && (forall i :: 0 <= i < |s.jobs| && i != id ==> after.jobs[i] == s.jobs[i])
    && (OneInFlight(s.jobs) ==> OneInFlight(after.jobs))
    && (id < |s.jobs| ==> SameIdentity(s.jobs[id], after.jobs[id]) && WorkOf(s.jobs[id]) == WorkOf(after.jobs[id]))
  }

  lemma RewritingOne(s: Store, after: Store, id: JobId)
    requires id < |s.jobs| && |after.jobs| == |s.jobs| && after.jobs == s.jobs[id := after.jobs[id]]
    requires SameIdentity(s.jobs[id], after.jobs[id]) && WorkOf(s.jobs[id]) == WorkOf(after.jobs[id])
    requires Active(after.jobs[id].status) ==> Active(s.jobs[id].status)
    ensures RewritesOne(s, after, id)
  {
    if OneInFlight(s.jobs) { EndingKeepsOne(s.jobs, id, after.jobs[id]); }
  }

  /** Cancelling ends a live job with its open run; everything else, and every job that had ended, stays. */
  ghost predicate CancelPromise(s: Store, after: Store, id: JobId)
  {
    && RewritesOne(s, after, id) && after.tasks == s.tasks && after.artifacts == s.artifacts
    && if id < |s.jobs| && Active(s.jobs[id].status)
       then after.jobs[id].status == JobStatus.Cancelled && RunClosed(after.runs, s.jobs[id].run)
       else after == s
  }

  lemma CancelKeepsPromise(s: Store, id: JobId, now: Instant)
    ensures CancelPromise(s, CancelJob(s, id, now), id)
  {
    if id < |s.jobs| && Active(s.jobs[id].status) { RewritingOne(s, CancelJob(s, id, now), id); }
  }

  /**
   * A verification ends with exactly one report: of its own job, task and pinned commit, and the newest of all
   * artifacts.
   */
  ghost predicate ReportedOnce(s: Store, after: Store, id: JobId, proven: bool)
  {
    && id < |s.jobs| && id < |after.jobs| && !Active(after.jobs[id].status) && s.artifacts <= after.artifacts
    && |after.artifacts| == |s.artifacts| + 2 && !after.artifacts[|s.artifacts|].content.Verification?
    && Last(after.artifacts)
      == Artifact(s.jobs[id].task, ValidationReport, true, Verification(id, s.jobs[id].pinned, proven))
  }

  /** Preparing claims the job and either starts it without a word about its evidence, or ends it as not proven. */
  ghost predicate PreparePromise(s: Store, after: Store, id: JobId, owner: Owner, ready: bool)
  {
    && RewritesOne(s, after, id) && after.runs == s.runs && after.tasks == s.tasks
    && (after != s ==> id < |s.jobs| && s.jobs[id].kind == HttpE2e && Active(s.jobs[id].status))
    && (after != s && ready ==>
          after.artifacts == s.artifacts && after.jobs[id].status == JobStatus.Running
            && after.jobs[id].owner == Some(owner))
    && (after != s && !ready ==> ReportedOnce(s, after, id, false) && after.jobs[id].status == JobStatus.Failed)
  }

  lemma PrepareKeepsPromise(s: Store, id: JobId, owner: Owner, workflowRun: Option<nat>, ready: bool, now: Instant)
    ensures PreparePromise(s, PrepareHttpE2e(s, id, owner, workflowRun, ready, now), id, owner, ready)
  {
    var after := PrepareHttpE2e(s, id, owner, workflowRun, ready, now);
    if after != s { RewritingOne(s, after, id); }
  }

  /** Evidence counts only from the holder of the running job's lease, and is then the job's one report. */
  ghost predicate RecordPromise(s: Store, after: Store, id: JobId, owner: Owner, submission: Submission)
  {
    && RewritesOne(s, after, id) && after.runs == s.runs && after.tasks == s.tasks
    && if MayRecord(s, id, owner)
       then ReportedOnce(s, after, id, submission == WellFormed(true))
            && (after.jobs[id].status == JobStatus.Succeeded <==> submission.WellFormed?)
       else after == s
  }

  lemma RecordKeepsPromise(s: Store, id: JobId, owner: Owner, submission: Submission, now: Instant)
    ensures RecordPromise(s, RecordHttpE2e(s, id, owner, submission, now), id, owner, submission)
  {
    if MayRecord(s, id, owner) { RewritingOne(s, RecordHttpE2e(s, id, owner, submission, now), id); }
  }

  /**
   * An iteration on jobs that callers named plainly conserves each task's work, throws nothing, and keeps what it
   * relies on.
   */
  ghost predicate RecoveryPromise(s: Store, after: Store, threw: bool)
  {
    JobsInv(s.jobs) && RunsBelong(s) ==> !threw && JobsInv(after.jobs) && RunsBelong(after) && Conserves(s, after)
  }

  lemma IterationKeepsPromise(s: Store, id: JobId, o: Observation)
    ensures var r := Reconcile(s, id, o.view, o.newUrl, o.start, o.now); RecoveryPromise(s, r.store, r.threw)
  {
    if JobsInv(s.jobs) && RunsBelong(s) {
      IterationConserves(s, id, o);
      IterationKeepsRuns(s, id, o);
      ReconcileKeeps(s, id, o.view, o.newUrl, o.start, o.now);
    }
  }

  /** A pass besides leaves none of the jobs alive that it found stalled. */
  ghost predicate StallsEnd(s: Store, after: Store, observe: JobId -> Observation)
  {
    JobsInv(s.jobs) && RunsBelong(s) ==>
      forall id :: 0 <= id < |s.jobs| && Active(s.jobs[id].status) && Recovery.Stalled(s.jobs[id], observe(id))
        ==> id < |after.jobs| && !Active(after.jobs[id].status)
  }

  lemma {:induction false} ActiveIdsGrow(jobs: seq<Job>)
    ensures forall j, k :: 0 <= j < k < |ActiveIds(jobs)| ==> ActiveIds(jobs)[j] != ActiveIds(jobs)[k]
    ensures forall j :: 0 <= j < |ActiveIds(jobs)| ==> ActiveIds(jobs)[j] < |jobs|
  {
    if jobs != [] { ActiveIdsGrow(jobs[..|jobs| - 1]); }
  }

  lemma PassKeepsPromise(s: Store, observe: JobId -> Observation)
    ensures var p := Pass(s, ActiveIds(s.jobs), observe);
      RecoveryPromise(s, p.store, p.threw) && StallsEnd(s, p.store, observe)
  {
    if JobsInv(s.jobs) && RunsBelong(s) {
      var ids := ActiveIds(s.jobs);
      PassConserves(s, ids, observe);
      ActiveIdsGrow(s.jobs);
      forall id: JobId | id < |s.jobs| && Active(s.jobs[id].status) && Recovery.Stalled(s.jobs[id], observe(id))
        ensures id < |Pass(s, ids, observe).store.jobs| && !Active(Pass(s, ids, observe).store.jobs[id].status)
      {
        PassEndsStalls(s, ids, observe, id);
      }
    }
  }

  /**
   * Only the one task moves, nothing but artifacts is added, and it becomes READY only on a manifest of a gate that was
   * met.
   */
  ghost predicate GatePromise(s: Store, after: Store, task: TaskId)
  {
    && after.jobs == s.jobs && after.runs == s.runs && s.artifacts <= after.artifacts
    && (forall t :: t != task ==> TaskUntouched(s, after, t))
    && (BecomesReady(s.tasks, after.tasks, task)
      ==> PromotedOn(after, task, s.tasks[task].plan, LatestCommit(s.runs, task)))
  }

  lemma ReviewKeepsPromise(s: Store, task: TaskId, passed: bool)
    ensures GatePromise(s, Review(s, task, passed), task)
    ensures task in s.tasks && s.tasks[task].state == Reviewing
              && BecomesReady(s.tasks, Review(s, task, passed).tasks, task)
            ==> passed
  {
    ReviewPromotes(s, task, passed, task);
  }

  lemma CompletionKeepsPromise(s: Store, task: TaskId)
    ensures GatePromise(s, CompleteVerification(s, task), task)
    ensures BecomesReady(s.tasks, CompleteVerification(s, task).tasks, task) <==>
            task in s.tasks && s.tasks[task].state == Verifying && Met(s, task)
  {
    CompletionPromotes(s, task, task);
  }
}
