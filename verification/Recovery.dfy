/** A reconciler pass over everything in flight, and what it does to each task's work. */
module Recovery {
  import opened Common
  import opened Events
  import opened JobInvariant
  import opened Jobs
  import opened Protocol
  import opened Records

  /** What the outside world shows the pass when it reaches a job. */
  datatype Observation = Observation(view: Option<View>, newUrl: bool, start: Start, now: Instant)

  /** The pass over the listed jobs, in order; an iteration that throws ends it. */
  function Pass(s: Store, ids: seq<JobId>, observe: JobId -> Observation): Iteration
  {
    if ids == [] then Iteration(s, [], false)
    else
      var before := Pass(s, ids[..|ids| - 1], observe);
      if before.threw then before
      else
        var o := observe(Last(ids));
        var r := Reconcile(before.store, Last(ids), o.view, o.newUrl, o.start, o.now);
        r.(results := before.results + r.results)
  }

  /** The jobs in flight when the pass begins. */
  function ActiveIds(jobs: seq<Job>): (r: seq<JobId>)
    ensures forall i: JobId :: i in r <==> i < |jobs| && Active(jobs[i].status)
  {
    if jobs == [] then []
    else ActiveIds(jobs[..|jobs| - 1]) + if Active(Last(jobs).status) then [|jobs| - 1] else []
  }

  /** Every job's run belongs to the job's task. */
  ghost predicate RunsBelong(s: Store)
  {
    forall i :: 0 <= i < |s.jobs| && s.jobs[i].run.Some? ==>
      s.jobs[i].run.value < |s.runs| && s.runs[s.jobs[i].run.value].task == s.jobs[i].task
  }

  predicate Live(s: Store, t: TaskId, i: JobId)
  {
    i < |s.jobs| && s.jobs[i].task == t && Active(s.jobs[i].status)
  }

  ghost predicate RunsUntouched(s: Store, after: Store, t: TaskId)
  {
    |after.runs| == |s.runs| && forall r :: 0 <= r < |s.runs| && s.runs[r].task == t ==> after.runs[r] == s.runs[r]
  }

  predicate TaskUntouched(s: Store, after: Store, t: TaskId)
  {
    (t in s.tasks <==> t in after.tasks) && (t in s.tasks ==> after.tasks[t] == s.tasks[t])
  }

  /** Some live job of the task stands for the work. */
  ghost predicate Carries(s: Store, t: TaskId, work: Work)
  {
    exists j: JobId :: Live(s, t, j) && WorkOf(s.jobs[j]) == work
  }

  /** The task's work goes on, under the same task state and open run; a task without work gets none. */
  ghost predicate Kept(s: Store, after: Store, t: TaskId)
  {
    && TaskUntouched(s, after, t) && RunsUntouched(s, after, t)
    && (forall i: JobId :: Live(s, t, i) ==> Carries(after, t, WorkOf(s.jobs[i])))
    && (!InFlight(s.jobs, t) ==> !InFlight(after.jobs, t))
  }

  predicate RunClosed(runs: seq<Run>, run: Option<RunId>)
  {
    run.Some? && run.value < |runs| ==> runs[run.value].status != RunStatus.Running
  }

  /** The task's work stopped for good: nothing in flight, its run closed, and the task not left implementing. */
  ghost predicate GivenUp(s: Store, after: Store, t: TaskId)
  {
    && InFlight(s.jobs, t) && !InFlight(after.jobs, t)
    && (forall i: JobId :: Live(s, t, i) ==> RunClosed(after.runs, s.jobs[i].run))
    && (t in after.tasks ==> after.tasks[t].state != Implementing)
  }

  ghost predicate SameRunTasks(s: Store, after: Store)
  {
    |s.runs| == |after.runs| && forall r :: 0 <= r < |s.runs| ==> after.runs[r].task == s.runs[r].task
  }

  /** Every task's work is either carried on unchanged or stopped for good. */
  ghost predicate Conserves(s: Store, after: Store)
  {
    && SameRunTasks(s, after)
    && forall t :: Kept(s, after, t) || GivenUp(s, after, t)
  }

  lemma ConservesChains(a: Store, b: Store, c: Store)
    requires RunsBelong(a) && Conserves(a, b) && Conserves(b, c)
    ensures Conserves(a, c)
  {
    forall t: TaskId ensures Kept(a, c, t) || GivenUp(a, c, t) {
      assert Kept(a, b, t) || GivenUp(a, b, t);
      assert Kept(b, c, t) || GivenUp(b, c, t);
      if Kept(a, b, t) && Kept(b, c, t) {
        forall i: JobId | Live(a, t, i) ensures Carries(c, t, WorkOf(a.jobs[i])) {
          var j: JobId :| Live(b, t, j) && WorkOf(b.jobs[j]) == WorkOf(a.jobs[i]);
          assert Carries(c, t, WorkOf(b.jobs[j]));
        }
        assert Kept(a, c, t);
      } else if Kept(a, b, t) {
        forall i: JobId | Live(a, t, i) ensures RunClosed(c.runs, a.jobs[i].run) {
          var j: JobId :| Live(b, t, j) && WorkOf(b.jobs[j]) == WorkOf(a.jobs[i]);
          assert RunClosed(c.runs, b.jobs[j].run);
        }
        assert GivenUp(a, c, t);
      } else {
        assert GivenUp(a, c, t);
      }
    }
  }

  // ---- one iteration

  lemma UpdatedJobStaysLive(s: Store, id: JobId, b: Job)
    requires id < |s.jobs| && WorkOf(s.jobs[id]) == WorkOf(b) && (Active(s.jobs[id].status) <==> Active(b.status))
    ensures Conserves(s, PutJob(s, id, b))
  {
    var after := PutJob(s, id, b);
    forall t: TaskId ensures Kept(s, after, t) {
      forall i: JobId | Live(s, t, i) ensures Carries(after, t, WorkOf(s.jobs[i])) {
        assert Live(after, t, i);
      }
      if InFlight(after.jobs, t) {
        var i :| 0 <= i < |after.jobs| && after.jobs[i].task == t && Active(after.jobs[i].status);
        assert s.jobs[i].task == t && Active(s.jobs[i].status);
      }
    }
  }

  /** The job ended and its next attempt, which carries the same work, is the only change. */
  lemma ResumptionConserves(s: Store, id: JobId, ended: Job, next: Job)
    requires id < |s.jobs| && Active(s.jobs[id].status) && !Active(ended.status) && ended.task == s.jobs[id].task
    requires Active(next.status) && WorkOf(next) == WorkOf(s.jobs[id])
    ensures Conserves(s, PutJob(s, id, ended).(jobs := s.jobs[id := ended] + [next]))
  {
    var n := |s.jobs|;
    var after := PutJob(s, id, ended).(jobs := s.jobs[id := ended] + [next]);
    assert after.jobs[n] == next;
    forall t: TaskId ensures Kept(s, after, t) {
      forall i: JobId | Live(s, t, i) ensures Carries(after, t, WorkOf(s.jobs[i])) {
        if i == id { assert Live(after, t, n); } else { assert Live(after, t, i); }
      }
      if InFlight(after.jobs, t) {
        var i :| 0 <= i < |after.jobs| && after.jobs[i].task == t && Active(after.jobs[i].status);
        if i == n { assert Live(s, t, id); } else { assert Live(s, t, i); }
      }
    }
  }

  /** Work that is not resumed stops: its job was the task's only one in flight. */
  lemma StoppingConserves(s: Store, id: JobId, job: Job, ended: Job)
    requires RunsBelong(s) && OneInFlight(s.jobs) && id < |s.jobs| && Active(s.jobs[id].status)
    requires job.task == s.jobs[id].task && job.run == s.jobs[id].run && ended.task == job.task && !Active(ended.status)
    ensures Conserves(s, Stop(PutJob(s, id, ended), job))
    ensures GivenUp(s, Stop(PutJob(s, id, ended), job), job.task)
  {
    var after := Stop(PutJob(s, id, ended), job);
    assert Live(s, job.task, id);
    forall i: JobId | Live(s, job.task, i) ensures i == id { }
    forall t: TaskId ensures Kept(s, after, t) || GivenUp(s, after, t) {
      if t != job.task {
        forall i: JobId | Live(s, t, i) ensures Carries(after, t, WorkOf(s.jobs[i])) {
          assert Live(after, t, i);
        }
      }
    }
  }

  lemma ConcludeConserves(s: Store, id: JobId, job: Job, decision: Decision, start: Start, now: Instant)
    requires JobsInv(s.jobs) && RunsBelong(s) && id < |s.jobs|
    requires s.jobs[id].(updatedAt := job.updatedAt) == job
    requires decision.Terminalize? ==> Active(job.status) && !Active(decision.status)
    ensures var after := Conclude(s, id, job, decision, start, now).store;
      && Conserves(s, after)
      && (decision.Terminalize? && !Resumable(job, decision.cause) ==> GivenUp(s, after, job.task))
      && (decision.Terminalize? && Resumable(job, decision.cause)
        ==> Kept(s, after, job.task) && Carries(after, job.task, WorkOf(job)))
  {
    if decision.Terminalize? {
      var ended := EndStalled(job, decision.status, decision.cause, now);
      if Resumable(job, decision.cause) {
        ResumedConserves(s, id, job, decision.status, decision.cause, start, now);
      } else {
        StoppingConserves(s, id, job, ended);
      }
    } else {
      UpdatedJobStaysLive(s, id, job);
    }
  }

  lemma ResumedConserves(s: Store, id: JobId, job: Job, status: JobStatus, cause: Cause, start: Start, now: Instant)
    requires JobsInv(s.jobs) && RunsBelong(s) && id < |s.jobs| && Active(s.jobs[id].status) && !Active(status)
    requires s.jobs[id].(updatedAt := job.updatedAt) == job
    ensures var ended := PutJob(s, id, EndStalled(job, status, cause, now));
            var after := Continue(ended, id, NextAttempt(job, id, cause, now), start, now).store;
            Conserves(s, after) && Kept(s, after, job.task) && Carries(after, job.task, WorkOf(job))
  {
    var end, next := EndStalled(job, status, cause, now), NextAttempt(job, id, cause, now);
    var ended := PutJob(s, id, end);
    ResumeKeeps(s.jobs, id, end, cause, now);
    assert NextAttempt(end, id, cause, now) == next;
    var r := Continue(ended, id, next, start, now).store;
    var last := if next.resume.value.notBefore <= now
                then Dispatch(ended.(jobs := ended.jobs + [next]), |s.jobs|, start, now).store.jobs[|s.jobs|] else next;
    assert r.jobs == s.jobs[id := end] + [last];
    assert r == ended.(jobs := s.jobs[id := end] + [last]);
    ResumptionConserves(s, id, end, last);
    assert Live(r, job.task, |s.jobs|) && WorkOf(r.jobs[|s.jobs|]) == WorkOf(job);
    assert Live(s, job.task, id);
    assert Kept(s, r, job.task) || GivenUp(s, r, job.task);
  }

  /**
   * One iteration: a job given up on resumably is carried on by one new attempt of the same work, with the task and its
   * run untouched; one given up on otherwise leaves nothing in flight, its run closed and the task not implementing.
   */
  lemma IterationConserves(s: Store, id: JobId, o: Observation)
    requires JobsInv(s.jobs) && RunsBelong(s)
    ensures Conserves(s, Reconcile(s, id, o.view, o.newUrl, o.start, o.now).store)
  {
    if id < |s.jobs| {
      if s.jobs[id].status == JobStatus.Queued && s.jobs[id].resume.Some? {
        UpdatedJobStaysLive(s, id, s.jobs[id]);
        assert PutJob(s, id, s.jobs[id]) == s;
        UpdatedJobStaysLive(s, id, Dispatch(s, id, o.start, o.now).store.jobs[id]);
      } else {
        var job := Seen(s.jobs[id], o.view, o.newUrl, o.now);
        EndingIsFinal(job, o.view, o.now);
        ConcludeConserves(s, id, job, Decide(job, o.view, o.now), o.start, o.now);
      }
    } else {
      NothingConserves(s);
    }
  }

  lemma NothingConserves(s: Store)
    ensures Conserves(s, s)
  {
    forall t: TaskId ensures Kept(s, s, t) {
      forall i: JobId | Live(s, t, i) ensures Carries(s, t, WorkOf(s.jobs[i])) { }
    }
  }

  // ---- a whole pass

  /** Only the listed job is rewritten, within its identity and work. */
  ghost predicate TouchesOnly(before: seq<Job>, after: seq<Job>, id: JobId)
  {
    && |before| <= |after|
    && (forall i :: 0 <= i < |before| && i != id ==> after[i] == before[i])
    && (id < |before| ==> SameIdentity(before[id], after[id]) && WorkOf(before[id]) == WorkOf(after[id]))
  }

  lemma ConcludeTouchesOne(s: Store, id: JobId, job: Job, decision: Decision, start: Start, now: Instant)
    requires JobsInv(s.jobs) && id < |s.jobs|
    requires s.jobs[id].(updatedAt := job.updatedAt) == job
    requires decision.Terminalize? ==> Active(job.status) && !Active(decision.status)
    ensures var after := Conclude(s, id, job, decision, start, now).store.jobs;
            TouchesOnly(s.jobs, after, id) && (decision.Terminalize? ==> after[id].status == decision.status)
  {
    if decision.Terminalize? && Resumable(job, decision.cause) {
      ResumedJobs(s, id, job, decision.status, decision.cause, start, now);
      var after := Conclude(s, id, job, decision, start, now).store.jobs;
      forall i | 0 <= i < |s.jobs|
        ensures after[i] == s.jobs[id := EndStalled(job, decision.status, decision.cause, now)][i]
      {
        assert after[i] == after[..|s.jobs|][i];
      }
    }
  }

  /** The job is one a pass judges, and would give up on. */
  predicate Stalled(job: Job, o: Observation)
  {
    && !(job.status == JobStatus.Queued && job.resume.Some?)
    && Decide(Seen(job, o.view, o.newUrl, o.now), o.view, o.now).Terminalize?
  }

  lemma IterationTouchesOne(s: Store, id: JobId, o: Observation)
    requires JobsInv(s.jobs)
    ensures var after := Reconcile(s, id, o.view, o.newUrl, o.start, o.now).store.jobs;
            TouchesOnly(s.jobs, after, id) && (id < |s.jobs| && Stalled(s.jobs[id], o) ==> !Active(after[id].status))
  {
    if id < |s.jobs| && !(s.jobs[id].status == JobStatus.Queued && s.jobs[id].resume.Some?) {
      var job := Seen(s.jobs[id], o.view, o.newUrl, o.now);
      EndingIsFinal(job, o.view, o.now);
      ConcludeTouchesOne(s, id, job, Decide(job, o.view, o.now), o.start, o.now);
    }
  }

  lemma ContinueKeepsRuns(s: Store, stalled: JobId, next: Job, start: Start, now: Instant)
    requires RunsBelong(s) && (next.run.Some? ==> next.run.value < |s.runs| && s.runs[next.run.value].task == next.task)
    ensures RunsBelong(Continue(s, stalled, next, start, now).store)
  {
    var after := Continue(s, stalled, next, start, now).store;
    assert after.runs == s.runs;
    forall i | 0 <= i < |after.jobs| && after.jobs[i].run.Some?
      ensures after.jobs[i].run.value < |after.runs| && after.runs[after.jobs[i].run.value].task == after.jobs[i].task
    {
      assert i < |s.jobs| ==> after.jobs[i].run == s.jobs[i].run && after.jobs[i].task == s.jobs[i].task;
    }
  }

  lemma EndingKeepsRuns(s: Store, id: JobId, job: Job, status: JobStatus, cause: Cause, start: Start, now: Instant)
    requires RunsBelong(s) && id < |s.jobs| && job.run == s.jobs[id].run && job.task == s.jobs[id].task
    ensures RunsBelong(Conclude(s, id, job, Terminalize(status, cause), start, now).store)
  {
    var ended := PutJob(s, id, EndStalled(job, status, cause, now));
    SameJobsKeepRuns(s, ended);
    SameJobsKeepRuns(s, Stop(ended, job));
    ContinueKeepsRuns(ended, id, NextAttempt(job, id, cause, now), start, now);
  }

  lemma IterationKeepsRuns(s: Store, id: JobId, o: Observation)
    requires RunsBelong(s)
    ensures RunsBelong(Reconcile(s, id, o.view, o.newUrl, o.start, o.now).store)
  {
    if id < |s.jobs| && !(s.jobs[id].status == JobStatus.Queued && s.jobs[id].resume.Some?) {
      var job := Seen(s.jobs[id], o.view, o.newUrl, o.now);
      var d := Decide(job, o.view, o.now);
      if d.Terminalize? {
        EndingKeepsRuns(s, id, job, d.status, d.cause, o.start, o.now);
      } else {
        SameJobsKeepRuns(s, PutJob(s, id, job));
      }
    } else {
      SameJobsKeepRuns(s, Reconcile(s, id, o.view, o.newUrl, o.start, o.now).store);
    }
  }

  /** A whole pass conserves every task's work, never throws, and keeps the invariant. */
  lemma {:induction false} PassConserves(s: Store, ids: seq<JobId>, observe: JobId -> Observation)
    requires JobsInv(s.jobs) && RunsBelong(s)
    ensures var p := Pass(s, ids, observe);
            !p.threw && JobsInv(p.store.jobs) && RunsBelong(p.store) && Conserves(s, p.store)
  {
    if ids == [] {
      NothingConserves(s);
    } else {
      var init, id := ids[..|ids| - 1], Last(ids);
      PassConserves(s, init, observe);
      var mid, o := Pass(s, init, observe).store, observe(id);
      IterationConserves(mid, id, o);
      IterationKeepsRuns(mid, id, o);
      ReconcileKeeps(mid, id, o.view, o.newUrl, o.start, o.now);
      ConservesChains(s, mid, Reconcile(mid, id, o.view, o.newUrl, o.start, o.now).store);
    }
  }

  /** The work of a task that a pass does not stop is carried, afterwards, by exactly one job. */
  lemma CarriedByExactlyOne(s: Store, ids: seq<JobId>, observe: JobId -> Observation, t: TaskId, i: JobId)
    requires JobsInv(s.jobs) && RunsBelong(s) && Live(s, t, i)
    requires InFlight(Pass(s, ids, observe).store.jobs, t)
    ensures exists j: JobId :: Live(Pass(s, ids, observe).store, t, j)
              && WorkOf(Pass(s, ids, observe).store.jobs[j]) == WorkOf(s.jobs[i])
              && forall k: JobId :: Live(Pass(s, ids, observe).store, t, k) ==> k == j
  {
    PassConserves(s, ids, observe);
    var after := Pass(s, ids, observe).store;
    assert Kept(s, after, t) || GivenUp(s, after, t);
    assert Carries(after, t, WorkOf(s.jobs[i]));
    var j: JobId :| Live(after, t, j) && WorkOf(after.jobs[j]) == WorkOf(s.jobs[i]);
    forall k: JobId | Live(after, t, k) ensures k == j { }
  }

  /** Every listed job that is stalled has ended by the time the pass is over. */
  lemma {:induction false} PassEndsStalls(s: Store, ids: seq<JobId>, observe: JobId -> Observation, id: JobId)
    requires JobsInv(s.jobs) && RunsBelong(s) && id < |s.jobs|
    requires forall j, k :: 0 <= j < k < |ids| ==> ids[j] != ids[k]
    ensures var after := Pass(s, ids, observe).store.jobs;
      && |after| >= |s.jobs| && (id !in ids ==> after[id] == s.jobs[id])
      && (id in ids && Stalled(s.jobs[id], observe(id)) ==> !Active(after[id].status))
  {
    if ids != [] {
      var init, last := ids[..|ids| - 1], Last(ids);
      assert ids == init + [last];
      assert last !in init;
      PassEndsStalls(s, init, observe, id);
      PassConserves(s, init, observe);
      IterationTouchesOne(Pass(s, init, observe).store, last, observe(last));
    }
  }

  // ---- runs belong to their jobs' tasks, whatever happens

  lemma SameJobsKeepRuns(s: Store, after: Store)
    requires RunsBelong(s) && |after.jobs| == |s.jobs| && |after.runs| >= |s.runs|
    requires forall i :: 0 <= i < |s.jobs|
               ==> after.jobs[i].run == s.jobs[i].run && after.jobs[i].task == s.jobs[i].task
    requires forall r :: 0 <= r < |s.runs| ==> after.runs[r].task == s.runs[r].task
    ensures RunsBelong(after)
  {
  }

  lemma LaunchKeepsRuns(s: Store, job: Job, start: Start, now: Instant)
    requires RunsBelong(s)
    ensures RunsBelong(Launch(s, job, start, now).store)
  {
    var after := Launch(s, job, start, now).store;
    var n := |s.jobs|;
    assert after.jobs[..n] == s.jobs
        && (after.jobs[n].run.Some? ==> after.jobs[n].run == Some(|s.runs|) && Last(after.runs).task == job.task)
          && after.jobs[n].task == job.task;
    forall i | 0 <= i < |after.jobs| && after.jobs[i].run.Some?
      ensures after.jobs[i].run.value < |after.runs| && after.runs[after.jobs[i].run.value].task == after.jobs[i].task
    {
      if i < n { assert after.jobs[i] == s.jobs[i]; }
    }
  }

  lemma ImplementationKeepsRuns(s: Store, task: TaskId, op: OperationId, payload: Payload, permitted: bool,
      base: Base, start: Start, now: Instant)
    requires RunsBelong(s)
    ensures RunsBelong(EnqueueImplementation(s, task, op, payload, permitted, base, start, now).store)
  {
    if task in s.tasks {
      LaunchKeepsRuns(SetState(s, task, Implementing), ImplementationJob(s, task, op, payload, base, now), start, now);
    }
  }

  lemma RebaseKeepsRuns(s: Store, task: TaskId, op: OperationId, payload: Payload, source: Branch, commit: Commit,
      original: Commit, permitted: bool, start: Start, now: Instant)
    requires RunsBelong(s)
    ensures RunsBelong(EnqueueRebase(s, task, op, payload, source, commit, original, permitted, start, now).store)
  {
    if task in s.tasks {
      LaunchKeepsRuns(SetState(s, task, Implementing), RebaseJob(s, task, op, payload, source, commit, original, now),
          start, now);
    }
  }

  lemma VerificationKeepsRuns(s: Store, task: TaskId, op: OperationId, payload: Payload, pin: Option<Commit>,
      permitted: bool, start: Start, now: Instant)
    requires RunsBelong(s)
    ensures RunsBelong(EnqueueHttpE2e(s, task, op, payload, pin, permitted, start, now).store)
  {
    var after := EnqueueHttpE2e(s, task, op, payload, pin, permitted, start, now).store;
    var n := |s.jobs|;
    if |after.jobs| > n { assert after.jobs[..n] == s.jobs && after.jobs[n].run.None?; }
    assert forall i :: 0 <= i < n ==> after.jobs[i] == s.jobs[i];
  }

  lemma EnqueueKeepsRuns(s: Store, e: Event, now: Instant)
    requires RunsBelong(s) && (e.ImplementationEnqueued? || e.RebaseEnqueued? || e.VerificationEnqueued?)
    ensures RunsBelong(Step(s, e, now))
  {
    match e
    case ImplementationEnqueued(task, op, payload, permitted, base, start) =>
      ImplementationKeepsRuns(s, task, op, payload, permitted, base, start, now);
    case RebaseEnqueued(task, op, payload, source, commit, original, permitted, start) =>
      RebaseKeepsRuns(s, task, op, payload, source, commit, original, permitted, start, now);
    case VerificationEnqueued(task, op, payload, pin, permitted, start) =>
      VerificationKeepsRuns(s, task, op, payload, pin, permitted, start, now);
  }

  /** Whatever callers name their operations. */
  lemma StepKeepsRuns(s: Store, e: Event, now: Instant)
    requires RunsBelong(s)
    ensures RunsBelong(Step(s, e, now))
  {
    if e.ImplementationEnqueued? || e.RebaseEnqueued? || e.VerificationEnqueued? {
      EnqueueKeepsRuns(s, e, now);
    } else if e.Reconciled? {
      IterationKeepsRuns(s, e.id, Observation(e.view, e.newUrl, e.start, now));
    } else {
      SameJobsKeepRuns(s, Step(s, e, now));
    }
  }

  /** So the conservation laws of a pass hold in every state that a run reaches. */
  lemma {:induction false} PassConservesInEveryRun(s: Store, trace: Trace, ids: seq<JobId>,
      observe: JobId -> Observation)
    requires JobsInv(s.jobs) && RunsBelong(s) && Plainly(trace)
    ensures JobsInv(After(s, trace).jobs) && RunsBelong(After(s, trace))
    ensures var p := Pass(After(s, trace), ids, observe); !p.threw && Conserves(After(s, trace), p.store)
  {
    if trace != [] {
      var init := trace[..|trace| - 1];
      assert forall i :: 0 <= i < |init| ==> init[i] == trace[i];
      PassConservesInEveryRun(s, init, ids, observe);
      StepKeepsJobs(After(s, init), Last(trace).event, Last(trace).now);
      StepKeepsRuns(After(s, init), Last(trace).event, Last(trace).now);
    }
    PassConserves(After(s, trace), ids, observe);
  }
}
