/** What every run keeps about jobs: identities, resume chains, and one job in flight per task. */
module JobInvariant {
  import opened Common
  import opened Events
  import opened Jobs
  import opened Protocol
  import opened Records

  /** The next attempt carries on what the stalled one was. */
  predicate SameOrigin(a: Job, b: Job)
  {
    a.task == b.task && a.kind == b.kind && a.payload == b.payload && a.run == b.run
  }

  /** A resumed job continues an ended one, of the same root, as the next attempt under the root's operation. */
  predicate Linked(jobs: seq<Job>, i: JobId)
    requires i < |jobs|
  {
    match jobs[i].resume
    case None => jobs[i].op.suffix == Plain
    case Some(r) =>
      var l := r.link;
      && l.of < i && l.root < i && jobs[l.root].resume.None?
      && !Active(jobs[l.of].status) && RootOf(jobs[l.of], l.of) == l.root
      && l.attempt == AttemptOf(jobs[l.of]) + 1
      && jobs[i].op == AttemptId(jobs[l.root].op, l.attempt)
      && jobs[i].attempt == jobs[l.of].attempt + 1
      && l.streak == StreakAfter(jobs[l.of], l.cause)
      && SameOrigin(jobs[l.of], jobs[i])
  }

  ghost predicate AllLinked(jobs: seq<Job>)
  {
    forall i :: 0 <= i < |jobs| ==> Linked(jobs, i)
  }

  ghost predicate OpsDistinct(jobs: seq<Job>)
  {
    forall i, j :: 0 <= i < j < |jobs| ==> jobs[i].op != jobs[j].op
  }

  ghost predicate OneInFlight(jobs: seq<Job>)
  {
    forall i, j :: 0 <= i < j < |jobs| && jobs[i].task == jobs[j].task
      ==> !Active(jobs[i].status) || !Active(jobs[j].status)
  }

  ghost predicate JobsInv(jobs: seq<Job>)
  {
    AllLinked(jobs) && OpsDistinct(jobs) && OneInFlight(jobs)
  }

  // ---- the four things an operation does to jobs

  /** What no write to a stored job changes. */
  predicate SameIdentity(a: Job, b: Job)
  {
    && SameOrigin(a, b) && a.op == b.op && a.attempt == b.attempt && a.queuedAt == b.queuedAt
    && (a.resume.None? <==> b.resume.None?)
    && (a.resume.Some? ==> a.resume.value.link == b.resume.value.link)
  }

  lemma UpdateKeeps(jobs: seq<Job>, i: JobId, b: Job)
    requires JobsInv(jobs) && i < |jobs| && SameIdentity(jobs[i], b)
    requires Active(jobs[i].status) || !Active(b.status)
    ensures JobsInv(jobs[i := b])
  {
    var after := jobs[i := b];
    forall k | 0 <= k < |after| ensures Linked(after, k) {
      assert Linked(jobs, k);
    }
  }

  lemma AppendKeepsOthers(jobs: seq<Job>, b: Job)
    requires JobsInv(jobs)
    requires Linked(jobs + [b], |jobs|)
    requires forall i :: 0 <= i < |jobs| ==> jobs[i].op != b.op
    requires Active(b.status) ==> !InFlight(jobs, b.task)
    ensures JobsInv(jobs + [b])
  {
    var after := jobs + [b];
    forall k | 0 <= k < |after| ensures Linked(after, k) {
      if k < |jobs| { assert Linked(jobs, k); }
    }
  }

  /** The identifier of an active job's next attempt is not in use. */
  lemma NextIdIsFree(jobs: seq<Job>, i: JobId, k: JobId)
    requires AllLinked(jobs) && OpsDistinct(jobs)
    requires i < |jobs| && k < |jobs| && Active(jobs[i].status)
    ensures jobs[k].op != AttemptId(jobs[i].op, AttemptOf(jobs[i]) + 1)
  {
    assert Linked(jobs, i) && Linked(jobs, k);
    assert Linked(jobs, RootOf(jobs[i], i));
    if jobs[k].resume.Some? {
      var l := jobs[k].resume.value.link;
      assert Linked(jobs, l.root) && Linked(jobs, l.of);
    }
  }

  /** Ending an active job and appending its next attempt. */
  lemma ResumeKeeps(jobs: seq<Job>, i: JobId, ended: Job, cause: Cause, now: Instant)
    requires JobsInv(jobs) && i < |jobs| && Active(jobs[i].status)
    requires SameIdentity(jobs[i], ended) && !Active(ended.status)
    ensures JobsInv(jobs[i := ended] + [NextAttempt(ended, i, cause, now)])
    ensures FindByOp(jobs[i := ended], NextAttempt(ended, i, cause, now).op).None?
  {
    var mid, next := jobs[i := ended], NextAttempt(ended, i, cause, now);
    UpdateKeeps(jobs, i, ended);
    forall k | 0 <= k < |mid| ensures mid[k].op != next.op {
      NextIdIsFree(jobs, i, k);
    }
    assert Linked(mid, i);
    assert Linked(mid, RootOf(ended, i));
    assert Linked(mid + [next], |mid|);
    forall k | 0 <= k < |mid| && mid[k].task == next.task ensures !Active(mid[k].status) {
      if k != i { assert mid[k] == jobs[k]; }
    }
    AppendKeepsOthers(mid, next);
  }

  // ---- every event

  lemma LaunchKeeps(s: Store, job: Job, start: Start, now: Instant)
    requires JobsInv(s.jobs) && job.resume.None? && job.op.suffix == Plain
    requires FindByOp(s.jobs, job.op).None? && !InFlight(s.jobs, job.task)
    ensures JobsInv(Launch(s, job, start, now).store.jobs)
    ensures s.jobs <= Launch(s, job, start, now).store.jobs
  {
    var after := Launch(s, job, start, now).store.jobs;
    AppendKeepsOthers(s.jobs, Last(after));
  }

  /** The launched job is the one in flight of its task. */
  ghost predicate OnlyLaunched(s: Store, after: Store, job: Job)
  {
    && |after.jobs| == |s.jobs| + 1 && Active(after.jobs[|s.jobs|].status)
    && forall i :: 0 <= i < |s.jobs| && after.jobs[i].task == job.task ==> !Active(after.jobs[i].status)
  }

  /** It has an open run of its own. */
  ghost predicate RunOpened(s: Store, after: Store, job: Job)
  {
    && |after.jobs| == |s.jobs| + 1 && after.jobs[|s.jobs|].run == Some(|s.runs|)
    && after.runs == s.runs + [Run(job.task, job.op, RunStatus.Running, None)]
  }

  /** Nothing of the task is in flight and the run written for the attempt is not open. */
  ghost predicate NothingLaunched(s: Store, after: Store, task: TaskId)
  {
    !InFlight(after.jobs, task) && |after.runs| == |s.runs| + 1 && Last(after.runs).status != RunStatus.Running
  }

  /**
   * A dispatch that is refused leaves nothing in flight and no open run. One that goes through leaves exactly its own
   * job, with a run of its own exactly when no run had the operation; otherwise it has none at all.
   */
  lemma LaunchOutcome(s: Store, job: Job, start: Start, now: Instant)
    requires JobsInv(s.jobs) && job.resume.None? && job.op.suffix == Plain
    requires FindByOp(s.jobs, job.op).None? && !InFlight(s.jobs, job.task)
    ensures var a := Launch(s, job, start, now);
      && (a.reply == RefusedFor(NotDispatched) <==> start.NotStarted?)
      && (start.NotStarted? ==> NothingLaunched(s, a.store, job.task))
      && (start.Started? ==>
            && a.reply == Accepted(|s.jobs|) && OnlyLaunched(s, a.store, job)
            && (RunOpened(s, a.store, job) <==> !RunNamed(s.runs, job.op))
            && (RunNamed(s.runs, job.op) ==> a.store.runs == s.runs && Last(a.store.jobs).run.None?))
  {
    var jobs := Launch(s, job, start, now).store.jobs;
    assert jobs[..|s.jobs|] == s.jobs;
    assert forall i :: 0 <= i < |s.jobs| ==> jobs[i] == s.jobs[i];
  }

  lemma EnqueueImplementationKeeps(s: Store, task: TaskId, op: OperationId, payload: Payload, permitted: bool,
      base: Base, start: Start, now: Instant)
    requires JobsInv(s.jobs) && op.suffix == Plain
    ensures var after := EnqueueImplementation(s, task, op, payload, permitted, base, start, now).store.jobs;
            JobsInv(after) && s.jobs <= after
  {
    var after := EnqueueImplementation(s, task, op, payload, permitted, base, start, now).store.jobs;
    if after != s.jobs {
      LaunchKeeps(SetState(s, task, Implementing), ImplementationJob(s, task, op, payload, base, now), start, now);
    }
  }

  lemma EnqueueRebaseKeeps(s: Store, task: TaskId, op: OperationId, payload: Payload, source: Branch, commit: Commit,
      original: Commit, permitted: bool, start: Start, now: Instant)
    requires JobsInv(s.jobs) && op.suffix == Plain
    ensures var after := EnqueueRebase(s, task, op, payload, source, commit, original, permitted, start,
        now).store.jobs;
            JobsInv(after) && s.jobs <= after
  {
    var after := EnqueueRebase(s, task, op, payload, source, commit, original, permitted, start, now).store.jobs;
    if after != s.jobs {
      LaunchKeeps(SetState(s, task, Implementing), RebaseJob(s, task, op, payload, source, commit, original, now),
          start, now);
    }
  }

  lemma EnqueueHttpE2eKeeps(s: Store, task: TaskId, op: OperationId, payload: Payload, pin: Option<Commit>,
      permitted: bool, start: Start, now: Instant)
    requires JobsInv(s.jobs) && op.suffix == Plain
    ensures var after := EnqueueHttpE2e(s, task, op, payload, pin, permitted, start, now).store.jobs;
            JobsInv(after) && s.jobs <= after
  {
    var after := EnqueueHttpE2e(s, task, op, payload, pin, permitted, start, now).store.jobs;
    if after != s.jobs { AppendKeepsOthers(s.jobs, Last(after)); }
  }

  /** The event rewrites at most one stored job. */
  predicate WritesOneJob(e: Event)
  {
    || e.JobClaimed? || e.RunnerWrote? || e.SuccessOverwritten? || e.VerificationPrepared? || e.EvidenceRecorded?
    || e.JobCancelled?
  }

  /** One job is written within its identity; it was live, or it had ended and stays ended. */
  predicate WrittenOnce(before: seq<Job>, after: seq<Job>, id: JobId)
  {
    || after == before
    || (id < |before| && |after| == |before| && after == before[id := after[id]] && SameIdentity(before[id], after[id])
        && (Active(before[id].status) || !Active(after[id].status)))
  }

  lemma RunnerWritesOnce(s: Store, e: Event, now: Instant)
    requires e.JobClaimed? || e.RunnerWrote? || e.SuccessOverwritten? || e.JobCancelled?
    ensures WrittenOnce(s.jobs, Step(s, e, now).jobs, e.id)
    ensures !e.SuccessOverwritten? ==> Frozen(s.jobs, Step(s, e, now).jobs)
  {
  }

  lemma VerificationWritesOnce(s: Store, e: Event, now: Instant)
    requires e.VerificationPrepared? || e.EvidenceRecorded?
    ensures WrittenOnce(s.jobs, Step(s, e, now).jobs, e.id) && Frozen(s.jobs, Step(s, e, now).jobs)
  {
  }

  lemma WritingKeeps(before: seq<Job>, after: seq<Job>, id: JobId)
    requires JobsInv(before) && WrittenOnce(before, after, id)
    ensures JobsInv(after)
  {
    if after != before { UpdateKeeps(before, id, after[id]); }
  }

  /**
   * Every write by a claimer, a runner, the recorder or an operator keeps a job's identity and brings no job back. All
   * of them touch live jobs only, but for the handler of a job just recorded as succeeded.
   */
  lemma WriteKeeps(s: Store, e: Event, now: Instant)
    requires JobsInv(s.jobs) && WritesOneJob(e)
    ensures JobsInv(Step(s, e, now).jobs)
    ensures !e.SuccessOverwritten? ==> Frozen(s.jobs, Step(s, e, now).jobs)
  {
    if e.VerificationPrepared? || e.EvidenceRecorded? {
      VerificationWritesOnce(s, e, now);
    } else {
      RunnerWritesOnce(s, e, now);
    }
    WritingKeeps(s.jobs, Step(s, e, now).jobs, e.id);
  }

  /**
   * Ended jobs stay as they ended; only the time of their last write may move, when a run's address is recorded late.
   */
  ghost predicate Frozen(before: seq<Job>, after: seq<Job>)
  {
    && |before| <= |after|
    && forall i :: 0 <= i < |before| && !Active(before[i].status)
         ==> after[i] == before[i].(updatedAt := after[i].updatedAt)
  }

  /** Ended jobs stay ended, and those of HTTP verification stay as they ended. */
  ghost predicate Settled(before: seq<Job>, after: seq<Job>)
  {
    && |before| <= |after|
    && forall i :: 0 <= i < |before| && !Active(before[i].status) ==>
         && !Active(after[i].status) && SameIdentity(before[i], after[i])
         && (before[i].kind == HttpE2e ==> after[i] == before[i].(updatedAt := after[i].updatedAt))
  }

  lemma DispatchKeeps(s: Store, id: JobId, start: Start, now: Instant)
    requires JobsInv(s.jobs) && id < |s.jobs| && s.jobs[id].resume.Some? && Active(s.jobs[id].status)
    ensures var after := Dispatch(s, id, start, now).store.jobs;
            JobsInv(after) && Frozen(s.jobs, after) && |after| == |s.jobs|
  {
    UpdateKeeps(s.jobs, id, Dispatch(s, id, start, now).store.jobs[id]);
  }

  lemma ConcludeKeeps(s: Store, id: JobId, job: Job, decision: Decision, start: Start, now: Instant)
    requires JobsInv(s.jobs) && id < |s.jobs|
    requires SameIdentity(s.jobs[id], job) && s.jobs[id].(updatedAt := job.updatedAt) == job
    requires decision.Terminalize? ==> Active(job.status) && !Active(decision.status)
    ensures var r := Conclude(s, id, job, decision, start, now);
            JobsInv(r.store.jobs) && Frozen(s.jobs, r.store.jobs) && !r.threw
  {
    if decision.Terminalize? && Resumable(job, decision.cause) {
      ResumedJobs(s, id, job, decision.status, decision.cause, start, now);
    } else {
      var written := if decision.Terminalize? then EndStalled(job, decision.status, decision.cause, now) else job;
      UpdateKeeps(s.jobs, id, written);
    }
  }

  lemma EndingIsFinal(job: Job, view: Option<View>, now: Instant)
    ensures Decide(job, view, now).Terminalize? ==> Active(job.status) && !Active(Decide(job, view, now).status)
  {
  }

  lemma ReconcileKeeps(s: Store, id: JobId, view: Option<View>, newUrl: bool, start: Start, now: Instant)
    requires JobsInv(s.jobs)
    ensures var r := Reconcile(s, id, view, newUrl, start, now);
            JobsInv(r.store.jobs) && Frozen(s.jobs, r.store.jobs) && !r.threw
  {
    if id < |s.jobs| {
      if s.jobs[id].status == JobStatus.Queued && s.jobs[id].resume.Some? {
        if s.jobs[id].resume.value.notBefore <= now { DispatchKeeps(s, id, start, now); }
      } else {
        var job := Seen(s.jobs[id], view, newUrl, now);
        var decision := Decide(job, view, now);
        EndingIsFinal(job, view, now);
        ConcludeKeeps(s, id, job, decision, start, now);
      }
    }
  }

  /** A resumed stall: the job ends before its successor exists, and the successor is new. */
  lemma ResumedJobs(s: Store, id: JobId, job: Job, status: JobStatus, cause: Cause, start: Start, now: Instant)
    requires JobsInv(s.jobs) && id < |s.jobs| && Active(s.jobs[id].status) && !Active(status)
    requires SameIdentity(s.jobs[id], job)
    ensures var ended := PutJob(s, id, EndStalled(job, status, cause, now));
            var r := Continue(ended, id, NextAttempt(job, id, cause, now), start, now);
            && JobsInv(r.store.jobs) && Frozen(s.jobs, r.store.jobs) && !r.threw
            && |r.store.jobs| == |s.jobs| + 1
            && r.store.jobs[..|s.jobs|] == ended.jobs
  {
    var end := EndStalled(job, status, cause, now);
    var ended, next := PutJob(s, id, end), NextAttempt(job, id, cause, now);
    assert NextAttempt(end, id, cause, now) == next;
    ResumeKeeps(s.jobs, id, end, cause, now);
    var created := ended.jobs + [next];
    var r := Continue(ended, id, next, start, now);
    if next.resume.value.notBefore <= now { UpdateKeeps(created, |s.jobs|, r.store.jobs[|s.jobs|]); }
  }

  /** The event is the late failure of a job that was recorded as succeeded. */
  predicate FailsLate(s: Store, e: Event)
  {
    e.SuccessOverwritten? && Overwrites(s, e.id, e.owner, e.ending)
  }

  /** Every event keeps the invariant and leaves ended jobs ended, as long as callers name their operations plainly. */
  lemma StepKeepsJobs(s: Store, e: Event, now: Instant)
    requires JobsInv(s.jobs) && PlainlyNamed(e)
    ensures JobsInv(Step(s, e, now).jobs)
    ensures Settled(s.jobs, Step(s, e, now).jobs)
  {
    if e.SuccessOverwritten? { WriteKeeps(s, e, now); } else { StepFreezes(s, e, now); }
  }

  lemma StepFreezes(s: Store, e: Event, now: Instant)
    requires JobsInv(s.jobs) && PlainlyNamed(e) && !e.SuccessOverwritten?
    ensures JobsInv(Step(s, e, now).jobs)
    ensures Frozen(s.jobs, Step(s, e, now).jobs)
  {
    match e
    case ImplementationEnqueued(task, op, payload, permitted, base, start) =>
      EnqueueImplementationKeeps(s, task, op, payload, permitted, base, start, now);
    case RebaseEnqueued(task, op, payload, source, commit, original, permitted, start) =>
      EnqueueRebaseKeeps(s, task, op, payload, source, commit, original, permitted, start, now);
    case VerificationEnqueued(task, op, payload, pin, permitted, start) =>
      EnqueueHttpE2eKeeps(s, task, op, payload, pin, permitted, start, now);
    case Reconciled(id, view, newUrl, start) => ReconcileKeeps(s, id, view, newUrl, start, now);
    case _ =>
      if WritesOneJob(e) {
        WriteKeeps(s, e, now);
      } else {
        OtherEventsKeepJobs(s, e, now);
      }
  }

  /** An event rewrites a job that had ended exactly when it is such a late failure. */
  lemma StepFreezesExactlyWhen(s: Store, e: Event, now: Instant)
    requires JobsInv(s.jobs) && PlainlyNamed(e)
    ensures Frozen(s.jobs, Step(s, e, now).jobs) <==> !FailsLate(s, e)
  {
    if e.SuccessOverwritten? {
      if FailsLate(s, e) { assert Step(s, e, now).jobs[e.id].status == e.ending; }
    } else {
      StepFreezes(s, e, now);
    }
  }

  predicate TouchesJobs(e: Event)
  {
    || e.ImplementationEnqueued? || e.RebaseEnqueued? || e.VerificationEnqueued? || WritesOneJob(e) || e.Reconciled?
  }

  lemma OtherEventsKeepJobs(s: Store, e: Event, now: Instant)
    requires !TouchesJobs(e)
    ensures Step(s, e, now).jobs == s.jobs
  {
  }

  /** The invariant over whole runs: at most one job of a task is ever in flight, whatever the interleaving. */
  lemma {:induction false} RunKeepsJobs(s: Store, trace: Trace)
    requires JobsInv(s.jobs) && Plainly(trace)
    ensures JobsInv(After(s, trace).jobs)
    ensures Settled(s.jobs, After(s, trace).jobs)
  {
    if trace != [] {
      var init := trace[..|trace| - 1];
      assert forall i :: 0 <= i < |init| ==> init[i] == trace[i];
      RunKeepsJobs(s, init);
      StepKeepsJobs(After(s, init), Last(trace).event, Last(trace).now);
      SettledChains(s.jobs, After(s, init).jobs, After(s, trace).jobs);
    }
  }

  lemma SettledChains(a: seq<Job>, b: seq<Job>, c: seq<Job>)
    requires Settled(a, b) && Settled(b, c)
    ensures Settled(a, c)
  {
  }

  /** No step of the run rewrites a job that had ended. */
  ghost predicate AlwaysFrozen(s: Store, trace: Trace)
  {
    trace != [] ==>
      && AlwaysFrozen(s, trace[..|trace| - 1])
      && Frozen(After(s, trace[..|trace| - 1]).jobs, After(s, trace).jobs)
  }

  ghost predicate NeverFailsLate(s: Store, trace: Trace)
  {
    trace != [] ==>
      && NeverFailsLate(s, trace[..|trace| - 1])
      && !FailsLate(After(s, trace[..|trace| - 1]), Last(trace).event)
  }

  /** Over whole runs: ended jobs stay as they ended exactly when no job fails after it was recorded as succeeded. */
  lemma {:induction false} EndedJobsStayExactlyWhen(s: Store, trace: Trace)
    requires JobsInv(s.jobs) && Plainly(trace)
    ensures AlwaysFrozen(s, trace) <==> NeverFailsLate(s, trace)
  {
    if trace != [] {
      var init := trace[..|trace| - 1];
      assert forall i :: 0 <= i < |init| ==> init[i] == trace[i];
      EndedJobsStayExactlyWhen(s, init);
      RunKeepsJobs(s, init);
      StepFreezesExactlyWhen(After(s, init), Last(trace).event, Last(trace).now);
    }
  }

  /** Evidence that arrives after a job was ended, by a reconciler pass or otherwise, changes nothing at all. */
  lemma LateEvidenceChangesNothing(s: Store, trace: Trace, id: JobId, owner: Owner, submission: Submission,
      now: Instant)
    requires JobsInv(s.jobs) && Plainly(trace) && id < |s.jobs| && !Active(s.jobs[id].status)
    ensures RecordHttpE2e(After(s, trace), id, owner, submission, now) == After(s, trace)
  {
    RunKeepsJobs(s, trace);
  }
}
