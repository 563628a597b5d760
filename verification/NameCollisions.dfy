/**
 * What a reconciler iteration does to resumed work when callers name their operations as they like: the resume marker
 * is not reserved, so the identifier of a next attempt may already be somebody else's.
 */
module NameCollisions {
  import opened Common
  import opened Events
  import opened JobInvariant
  import opened Jobs
  import opened Protocol
  import opened Records
  import opened Recovery

  function Iterate(s: Store, id: JobId, o: Observation): Iteration
  {
    Reconcile(s, id, o.view, o.newUrl, o.start, o.now)
  }

  /** The iteration gives up on the job and would have its work resumed. */
  predicate ResumesStall(s: Store, id: JobId, o: Observation)
  {
    && id < |s.jobs| && Recovery.Stalled(s.jobs[id], o)
    && Resumable(s.jobs[id], Decide(Seen(s.jobs[id], o.view, o.newUrl, o.now), o.view, o.now).cause)
  }

  /** The job that already has the identifier of the next attempt. */
  function Holder(s: Store, id: JobId): Option<JobId>
    requires id < |s.jobs|
  {
    FindByOp(s.jobs, AttemptId(s.jobs[id].op, AttemptOf(s.jobs[id]) + 1))
  }

  /** An attempt that a pass dispatches when it comes upon it, whatever has become of it since. */
  predicate Due(job: Job, now: Instant)
  {
    job.resume.Some? && job.resume.value.notBefore <= now
  }

  function EndedJob(s: Store, id: JobId, o: Observation): Job
    requires id < |s.jobs| && Recovery.Stalled(s.jobs[id], o)
  {
    var job := Seen(s.jobs[id], o.view, o.newUrl, o.now);
    var d := Decide(job, o.view, o.now);
    EndStalled(job, d.status, d.cause, o.now)
  }

  lemma EndedJobIsDead(s: Store, id: JobId, o: Observation)
    requires id < |s.jobs| && Recovery.Stalled(s.jobs[id], o)
    ensures var end := EndedJob(s, id, o);
      && Active(s.jobs[id].status) && !Active(end.status) && WorkOf(end) == WorkOf(s.jobs[id])
        && end.op == s.jobs[id].op
      && end.resume == s.jobs[id].resume
  {
    EndingIsFinal(Seen(s.jobs[id], o.view, o.newUrl, o.now), o.view, o.now);
  }

  lemma {:induction false} SameOpsSameFind(a: seq<Job>, b: seq<Job>, op: OperationId)
    requires |a| == |b| && forall i :: 0 <= i < |a| ==> a[i].op == b[i].op
    ensures FindByOp(a, op) == FindByOp(b, op)
  {
    if a != [] { SameOpsSameFind(a[..|a| - 1], b[..|b| - 1], op); }
  }

  function NextJob(s: Store, id: JobId, o: Observation): Job
    requires id < |s.jobs| && Recovery.Stalled(s.jobs[id], o)
  {
    var job := Seen(s.jobs[id], o.view, o.newUrl, o.now);
    NextAttempt(job, id, Decide(job, o.view, o.now).cause, o.now)
  }

  lemma WritingKeepsNames(jobs: seq<Job>, id: JobId, b: Job, op: OperationId)
    requires id < |jobs| && b.op == jobs[id].op
    ensures FindByOp(jobs[id := b], op) == FindByOp(jobs, op)
  {
    SameOpsSameFind(jobs[id := b], jobs, op);
  }

  lemma StallContinues(s: Store, id: JobId, o: Observation)
    requires ResumesStall(s, id, o)
    ensures var next := NextJob(s, id, o);
      && Iterate(s, id, o) == Continue(PutJob(s, id, EndedJob(s, id, o)), id, next, o.start, o.now)
      && next.op == AttemptId(s.jobs[id].op, AttemptOf(s.jobs[id]) + 1) && next.resume.Some? && Active(next.status)
      && WorkOf(next) == WorkOf(s.jobs[id])
  {
  }

  /** With the identifier free: the job has ended and one attempt of the same work was appended. */
  ghost predicate Appended(s: Store, id: JobId, end: Job, r: Iteration)
    requires id < |s.jobs|
  {
    && !r.threw && |r.store.jobs| == |s.jobs| + 1
    && r.store == s.(jobs := s.jobs[id := end] + [Last(r.store.jobs)])
    && Active(Last(r.store.jobs).status) && WorkOf(Last(r.store.jobs)) == WorkOf(s.jobs[id])
  }

  /**
   * With the identifier held by a due attempt: the job has ended and the holder is in flight, even when it had ended.
   */
  ghost predicate Revived(s: Store, id: JobId, end: Job, k: JobId, r: Iteration)
    requires id < |s.jobs| && k < |s.jobs|
  {
    && !r.threw && |r.store.jobs| == |s.jobs|
    && r.store == s.(jobs := s.jobs[id := end][k := r.store.jobs[k]])
    && Active(r.store.jobs[k].status) && WorkOf(r.store.jobs[k]) == WorkOf(s.jobs[k])
  }

  /** Any other holder leaves the ended job to itself; one that was never resumed makes the pass throw as well. */
  ghost predicate HeldBy(s: Store, id: JobId, end: Job, k: JobId, now: Instant, r: Iteration)
    requires id < |s.jobs| && k < |s.jobs|
  {
    if Due(s.jobs[k], now) then Revived(s, id, end, k, r)
    else r.store == PutJob(s, id, end) && (r.threw <==> s.jobs[k].resume.None?)
  }

  lemma NextIsHeldAlike(s: Store, id: JobId, o: Observation)
    requires ResumesStall(s, id, o)
    ensures FindByOp(s.jobs[id := EndedJob(s, id, o)], NextJob(s, id, o).op) == Holder(s, id)
  {
    StallContinues(s, id, o);
    EndedJobIsDead(s, id, o);
    WritingKeepsNames(s.jobs, id, EndedJob(s, id, o), NextJob(s, id, o).op);
  }

  lemma FreeNameAppends(s: Store, id: JobId, o: Observation)
    requires ResumesStall(s, id, o) && Holder(s, id).None?
    ensures Appended(s, id, EndedJob(s, id, o), Iterate(s, id, o))
  {
    NextIsHeldAlike(s, id, o);
    StallContinues(s, id, o);
    ContinueAppends(PutJob(s, id, EndedJob(s, id, o)), id, NextJob(s, id, o), o.start, o.now);
  }

  lemma HeldNameRevives(s: Store, id: JobId, o: Observation, k: JobId)
    requires ResumesStall(s, id, o) && Holder(s, id) == Some(k)
    ensures HeldBy(s, id, EndedJob(s, id, o), k, o.now, Iterate(s, id, o))
  {
    NextIsHeldAlike(s, id, o);
    StallContinues(s, id, o);
    EndedJobIsDead(s, id, o);
    ContinueRevives(PutJob(s, id, EndedJob(s, id, o)), id, k, NextJob(s, id, o), o.start, o.now);
  }

  /**
   * What an iteration does with the work of a stalled job depends on who holds the next identifier, and on nothing
   * else.
   */
  lemma ContinuesExactlyWhenNameIsFree(s: Store, id: JobId, o: Observation)
    requires ResumesStall(s, id, o)
    ensures Holder(s, id).None? ==> Appended(s, id, EndedJob(s, id, o), Iterate(s, id, o))
    ensures Holder(s, id).Some? ==> HeldBy(s, id, EndedJob(s, id, o), Holder(s, id).value, o.now, Iterate(s, id, o))
  {
    if Holder(s, id).None? { FreeNameAppends(s, id, o); } else { HeldNameRevives(s, id, o, Holder(s, id).value); }
  }

  lemma ContinueAppends(s: Store, stalled: JobId, next: Job, start: Start, now: Instant)
    requires FindByOp(s.jobs, next.op).None? && next.resume.Some? && Active(next.status)
    ensures var r := Continue(s, stalled, next, start, now);
      && !r.threw && |r.store.jobs| == |s.jobs| + 1 && r.store == s.(jobs := s.jobs + [Last(r.store.jobs)])
      && Active(Last(r.store.jobs).status) && WorkOf(Last(r.store.jobs)) == WorkOf(next)
  {
    var created := s.jobs + [next];
    var r := Continue(s, stalled, next, start, now);
    assert created[|s.jobs| := Last(r.store.jobs)] == s.jobs + [Last(r.store.jobs)];
  }

  lemma ContinueRevives(s: Store, stalled: JobId, k: JobId, next: Job, start: Start, now: Instant)
    requires FindByOp(s.jobs, next.op) == Some(k)
    ensures var r := Continue(s, stalled, next, start, now);
      if Due(s.jobs[k], now) then
        && !r.threw && |r.store.jobs| == |s.jobs| && r.store == PutJob(s, k, r.store.jobs[k])
        && Active(r.store.jobs[k].status) && WorkOf(r.store.jobs[k]) == WorkOf(s.jobs[k])
      else r.store == s && (r.threw <==> s.jobs[k].resume.None?)
  {
  }

  // ---- one job in flight

  /** Some other job of the holder's task is in flight. */
  predicate HolderHasOther(s: Store, id: JobId, k: JobId)
    requires k < |s.jobs|
  {
    exists j :: 0 <= j < |s.jobs| && j != id && j != k && s.jobs[j].task == s.jobs[k].task && Active(s.jobs[j].status)
  }

  /** The stall brings back an attempt of a task that has moved on to another job. */
  predicate Revives(s: Store, id: JobId, o: Observation)
  {
    && ResumesStall(s, id, o) && Holder(s, id).Some?
    && Due(s.jobs[Holder(s, id).value], o.now) && HolderHasOther(s, id, Holder(s, id).value)
  }

  lemma EndingKeepsOne(jobs: seq<Job>, id: JobId, b: Job)
    requires OneInFlight(jobs) && id < |jobs| && b.task == jobs[id].task
        && (Active(b.status) ==> Active(jobs[id].status))
    ensures OneInFlight(jobs[id := b])
  {
  }

  lemma AppendingKeepsOne(jobs: seq<Job>, b: Job)
    requires OneInFlight(jobs) && (Active(b.status) ==> !InFlight(jobs, b.task))
    ensures OneInFlight(jobs + [b])
  {
  }

  lemma RevivingKeepsOneExactly(s: Store, id: JobId, end: Job, k: JobId, h: Job)
    requires OneInFlight(s.jobs) && id < |s.jobs| && k < |s.jobs|
    requires end.task == s.jobs[id].task && !Active(end.status) && h.task == s.jobs[k].task && Active(h.status)
    ensures OneInFlight(s.jobs[id := end][k := h]) <==> !HolderHasOther(s, id, k)
  {
    var after := s.jobs[id := end][k := h];
    if HolderHasOther(s, id, k) {
      var j :| 0 <= j < |s.jobs| && j != id && j != k && s.jobs[j].task == s.jobs[k].task && Active(s.jobs[j].status);
      assert after[j] == s.jobs[j] && after[k] == h;
    } else {
      EndingKeepsOne(s.jobs, id, end);
      forall i, j | 0 <= i < j < |after| && after[i].task == after[j].task
        ensures !Active(after[i].status) || !Active(after[j].status)
      {
        if i != k && j != k { assert after[i] == s.jobs[id := end][i] && after[j] == s.jobs[id := end][j]; }
      }
    }
  }

  /**
   * In any store with one job in flight per task, an iteration keeps it so exactly when it does not bring back an
   * attempt of a task that has another job in flight by now.
   */
  lemma KeepsOneInFlightExactlyWhen(s: Store, id: JobId, o: Observation)
    requires OneInFlight(s.jobs)
    ensures OneInFlight(Iterate(s, id, o).store.jobs) <==> !Revives(s, id, o)
  {
    if ResumesStall(s, id, o) {
      ContinuesExactlyWhenNameIsFree(s, id, o);
      EndedJobIsDead(s, id, o);
      var end, after := EndedJob(s, id, o), Iterate(s, id, o).store.jobs;
      EndingKeepsOne(s.jobs, id, end);
      match Holder(s, id)
      case None =>
        assert !InFlight(s.jobs[id := end], end.task);
        AppendingKeepsOne(s.jobs[id := end], Last(after));
      case Some(k) =>
        if Due(s.jobs[k], o.now) { RevivingKeepsOneExactly(s, id, end, k, after[k]); }
    } else {
      if id < |s.jobs| {
        UnresumedTouchesOne(s, id, o);
        EndingKeepsOne(s.jobs, id, Iterate(s, id, o).store.jobs[id]);
      }
    }
  }

  /** An iteration that resumes nothing rewrites at most the job it looked at, and never brings it back. */
  lemma UnresumedTouchesOne(s: Store, id: JobId, o: Observation)
    requires !ResumesStall(s, id, o) && id < |s.jobs|
    ensures var after := Iterate(s, id, o).store.jobs;
      && |after| == |s.jobs| && after == s.jobs[id := after[id]] && WorkOf(after[id]) == WorkOf(s.jobs[id])
      && (Active(after[id].status) ==> Active(s.jobs[id].status))
  {
    if Recovery.Stalled(s.jobs[id], o) { EndedJobIsDead(s, id, o); } else { UnstalledUpdates(s, id, o); }
  }

  // ---- conservation

  /** Nothing of the job's task would be left hanging by its end: its run is closed and the task is not implementing. */
  predicate AtRest(s: Store, job: Job)
  {
    RunClosed(s.runs, job.run) && (job.task in s.tasks ==> s.tasks[job.task].state != Implementing)
  }

  /** What the holder of the next identifier must be for the stalled work not to be lost. */
  predicate HolderCarriesOn(s: Store, id: JobId, now: Instant)
    requires id < |s.jobs|
  {
    match Holder(s, id)
    case None => true
    case Some(k) =>
      if !Due(s.jobs[k], now) then AtRest(s, s.jobs[id])
      else if s.jobs[k].task == s.jobs[id].task then WorkOf(s.jobs[k]) == WorkOf(s.jobs[id])
      else AtRest(s, s.jobs[id]) && InFlight(s.jobs, s.jobs[k].task)
  }

  lemma OnlyLive(s: Store, id: JobId)
    requires OneInFlight(s.jobs) && id < |s.jobs| && Active(s.jobs[id].status)
    ensures InFlight(s.jobs, s.jobs[id].task) && forall i: JobId :: Live(s, s.jobs[id].task, i) <==> i == id
  {
    assert Live(s, s.jobs[id].task, id);
  }

  lemma OthersKept(s: Store, after: Store, t: TaskId)
    requires after.runs == s.runs && after.tasks == s.tasks && |after.jobs| == |s.jobs|
    requires forall i :: 0 <= i < |s.jobs| && s.jobs[i].task == t ==> after.jobs[i] == s.jobs[i]
    requires forall i :: 0 <= i < |s.jobs| ==> after.jobs[i].task == s.jobs[i].task
    ensures Kept(s, after, t)
  {
    forall i: JobId | Live(s, t, i) ensures Carries(after, t, WorkOf(s.jobs[i])) { assert Live(after, t, i); }
    if InFlight(after.jobs, t) {
      var i :| 0 <= i < |after.jobs| && after.jobs[i].task == t && Active(after.jobs[i].status);
      assert Live(s, t, i);
    }
  }

  /** The task of a job that just ended with nothing put in its place. */
  lemma AbandonedExactly(s: Store, id: JobId, after: Store)
    requires OneInFlight(s.jobs) && id < |s.jobs| && Active(s.jobs[id].status)
    requires after.runs == s.runs && after.tasks == s.tasks && !InFlight(after.jobs, s.jobs[id].task)
    ensures var t := s.jobs[id].task; (Kept(s, after, t) || GivenUp(s, after, t)) <==> AtRest(s, s.jobs[id])
  {
    OnlyLive(s, id);
    assert Live(s, s.jobs[id].task, id);
  }

  lemma AbandoningConservesExactly(s: Store, id: JobId, end: Job)
    requires OneInFlight(s.jobs) && id < |s.jobs| && Active(s.jobs[id].status)
    requires end.task == s.jobs[id].task && !Active(end.status)
    ensures Conserves(s, PutJob(s, id, end)) <==> AtRest(s, s.jobs[id])
  {
    var after, task := PutJob(s, id, end), s.jobs[id].task;
    OnlyLive(s, id);
    assert forall i :: 0 <= i < |s.jobs| && i != id
             ==> after.jobs[i] == s.jobs[i] && (s.jobs[i].task == task ==> !Live(s, task, i));
    AbandonedExactly(s, id, after);
    forall t: TaskId | t != task ensures Kept(s, after, t) { OthersKept(s, after, t); }
  }

  /** The holder's task, which gets a live job whatever it had before. */
  lemma HolderTaskExactly(s: Store, after: Store, u: TaskId, k: JobId)
    requires after.runs == s.runs && after.tasks == s.tasks && |after.jobs| == |s.jobs| && Live(after, u, k)
    requires forall i :: 0 <= i < |s.jobs| && i != k && s.jobs[i].task == u ==> after.jobs[i] == s.jobs[i]
    requires k < |s.jobs| && WorkOf(after.jobs[k]) == WorkOf(s.jobs[k])
    ensures (Kept(s, after, u) || GivenUp(s, after, u)) <==> InFlight(s.jobs, u)
  {
    assert InFlight(after.jobs, u);
    forall i: JobId | Live(s, u, i) ensures Carries(after, u, WorkOf(s.jobs[i])) {
      assert Live(after, u, i);
    }
  }

  lemma RevivingOtherConservesExactly(s: Store, id: JobId, end: Job, k: JobId, h: Job)
    requires OneInFlight(s.jobs) && id < |s.jobs| && k < |s.jobs| && Active(s.jobs[id].status)
    requires end.task == s.jobs[id].task && !Active(end.status) && WorkOf(h) == WorkOf(s.jobs[k]) && Active(h.status)
    requires s.jobs[k].task != s.jobs[id].task
    ensures Conserves(s, s.(jobs := s.jobs[id := end][k := h]))
        <==> AtRest(s, s.jobs[id]) && InFlight(s.jobs, s.jobs[k].task)
  {
    var after, task, u := s.(jobs := s.jobs[id := end][k := h]), s.jobs[id].task, s.jobs[k].task;
    assert after.jobs[k] == h && after.jobs[id] == end;
    assert forall i :: 0 <= i < |s.jobs| && i != id && i != k ==> after.jobs[i] == s.jobs[i];
    OnlyLive(s, id);
    forall i | 0 <= i < |after.jobs| && after.jobs[i].task == task ensures !Active(after.jobs[i].status) {
      assert i != id ==> !Live(s, task, i);
    }
    AbandonedExactly(s, id, after);
    HolderTaskExactly(s, after, u, k);
    forall t: TaskId | t != task && t != u ensures Kept(s, after, t) { OthersKept(s, after, t); }
  }

  lemma RevivingOwnConservesExactly(s: Store, id: JobId, end: Job, k: JobId, h: Job)
    requires OneInFlight(s.jobs) && id < |s.jobs| && k < |s.jobs| && k != id && Active(s.jobs[id].status)
    requires end.task == s.jobs[id].task && !Active(end.status) && WorkOf(h) == WorkOf(s.jobs[k]) && Active(h.status)
    requires s.jobs[k].task == s.jobs[id].task
    ensures Conserves(s, s.(jobs := s.jobs[id := end][k := h])) <==> WorkOf(s.jobs[k]) == WorkOf(s.jobs[id])
  {
    var after, task := s.(jobs := s.jobs[id := end][k := h]), s.jobs[id].task;
    assert after.jobs[k] == h && after.jobs[id] == end;
    assert forall i :: 0 <= i < |s.jobs| && i != id && i != k ==> after.jobs[i] == s.jobs[i];
    OnlyLive(s, id);
    assert Live(after, task, k);
    forall j: JobId | j != k ensures !Live(after, task, j) {
      assert j != id ==> !Live(s, task, j);
    }
    assert InFlight(after.jobs, task);
    assert Live(s, task, id);
    assert Carries(after, task, WorkOf(s.jobs[id])) <==> WorkOf(h) == WorkOf(s.jobs[id]);
    assert (Kept(s, after, task) || GivenUp(s, after, task)) <==> WorkOf(s.jobs[k]) == WorkOf(s.jobs[id]);
    forall t: TaskId | t != task ensures Kept(s, after, t) { OthersKept(s, after, t); }
  }

  /**
   * In any store with one job in flight per task, whatever callers name their operations: an iteration carries each
   * task's work on or stops it for good exactly when the holder of the stalled job's next identifier, if there is one,
   * carries that work on or nothing is left to carry.
   */
  lemma ConservesExactlyWhen(s: Store, id: JobId, o: Observation)
    requires OneInFlight(s.jobs) && RunsBelong(s)
    ensures Conserves(s, Iterate(s, id, o).store) <==> (ResumesStall(s, id, o) ==> HolderCarriesOn(s, id, o.now))
  {
    if ResumesStall(s, id, o) {
      ContinuesExactlyWhenNameIsFree(s, id, o);
      EndedJobIsDead(s, id, o);
      var end, after := EndedJob(s, id, o), Iterate(s, id, o).store;
      match Holder(s, id)
      case None => ResumptionConserves(s, id, end, Last(after.jobs));
      case Some(k) =>
        if !Due(s.jobs[k], o.now) { AbandoningConservesExactly(s, id, end); }
        else if k == id {
          assert s.jobs[id := end][id := after.jobs[id]] == s.jobs[id := after.jobs[id]];
          UpdatedJobStaysLive(s, id, after.jobs[id]);
        }
        else if s.jobs[k].task == s.jobs[id].task { RevivingOwnConservesExactly(s, id, end, k, after.jobs[k]); }
        else { RevivingOtherConservesExactly(s, id, end, k, after.jobs[k]); }
    } else {
      UnresumedConserves(s, id, o);
    }
  }

  lemma UnresumedConserves(s: Store, id: JobId, o: Observation)
    requires OneInFlight(s.jobs) && RunsBelong(s) && !ResumesStall(s, id, o)
    ensures Conserves(s, Iterate(s, id, o).store)
  {
    if id >= |s.jobs| {
      NothingConserves(s);
    } else if Recovery.Stalled(s.jobs[id], o) {
      EndedJobIsDead(s, id, o);
      StoppingConserves(s, id, Seen(s.jobs[id], o.view, o.newUrl, o.now), EndedJob(s, id, o));
    } else {
      UnstalledUpdates(s, id, o);
      UpdatedJobStaysLive(s, id, Iterate(s, id, o).store.jobs[id]);
    }
  }

  lemma UnstalledUpdates(s: Store, id: JobId, o: Observation)
    requires id < |s.jobs| && !Recovery.Stalled(s.jobs[id], o)
    ensures var b := Iterate(s, id, o).store.jobs[id];
      Iterate(s, id, o).store == PutJob(s, id, b) && WorkOf(b) == WorkOf(s.jobs[id])
        && (Active(b.status) <==> Active(s.jobs[id].status))
  {
    assert s.jobs[id := s.jobs[id]] == s.jobs;
  }

  // ---- whole runs

  /** At every moment of the run each task has at most one job in flight. */
  ghost predicate AlwaysOneInFlight(s: Store, trace: Trace)
  {
    OneInFlight(After(s, trace).jobs) && (trace != [] ==> AlwaysOneInFlight(s, trace[..|trace| - 1]))
  }

  predicate RevivesAt(s: Store, m: Moment)
  {
    m.event.Reconciled? && Revives(s, m.event.id, Observation(m.event.view, m.event.newUrl, m.event.start, m.now))
  }

  ghost predicate NeverRevives(s: Store, trace: Trace)
  {
    trace != [] ==> NeverRevives(s, trace[..|trace| - 1]) && !RevivesAt(After(s, trace[..|trace| - 1]), Last(trace))
  }

  lemma LaunchKeepsOne(s: Store, job: Job, start: Start, now: Instant)
    requires OneInFlight(s.jobs) && !InFlight(s.jobs, job.task)
    ensures OneInFlight(Launch(s, job, start, now).store.jobs)
  {
    AppendingKeepsOne(s.jobs, Last(Launch(s, job, start, now).store.jobs));
  }

  lemma ImplementationKeepsOne(s: Store, task: TaskId, op: OperationId, payload: Payload, permitted: bool, base: Base,
      start: Start, now: Instant)
    requires OneInFlight(s.jobs)
    ensures OneInFlight(EnqueueImplementation(s, task, op, payload, permitted, base, start, now).store.jobs)
  {
    if task in s.tasks && !InFlight(s.jobs, task) {
      LaunchKeepsOne(SetState(s, task, Implementing), ImplementationJob(s, task, op, payload, base, now), start, now);
    }
  }

  lemma RebaseKeepsOne(s: Store, task: TaskId, op: OperationId, payload: Payload, source: Branch, commit: Commit,
      original: Commit, permitted: bool, start: Start, now: Instant)
    requires OneInFlight(s.jobs)
    ensures OneInFlight(EnqueueRebase(s, task, op, payload, source, commit, original, permitted, start, now).store.jobs)
  {
    if task in s.tasks && !InFlight(s.jobs, task) {
      LaunchKeepsOne(SetState(s, task, Implementing), RebaseJob(s, task, op, payload, source, commit, original, now),
          start, now);
    }
  }

  lemma VerificationKeepsOne(s: Store, task: TaskId, op: OperationId, payload: Payload, pin: Option<Commit>,
      permitted: bool, start: Start, now: Instant)
    requires OneInFlight(s.jobs)
    ensures OneInFlight(EnqueueHttpE2e(s, task, op, payload, pin, permitted, start, now).store.jobs)
  {
    var after := EnqueueHttpE2e(s, task, op, payload, pin, permitted, start, now).store.jobs;
    if |after| > |s.jobs| { AppendingKeepsOne(s.jobs, Last(after)); }
  }

  lemma EnqueueKeepsOne(s: Store, e: Event, now: Instant)
    requires OneInFlight(s.jobs) && (e.ImplementationEnqueued? || e.RebaseEnqueued? || e.VerificationEnqueued?)
    ensures OneInFlight(Step(s, e, now).jobs)
  {
    match e
    case ImplementationEnqueued(task, op, payload, permitted, base, start) =>
      ImplementationKeepsOne(s, task, op, payload, permitted, base, start, now);
    case RebaseEnqueued(task, op, payload, source, commit, original, permitted, start) =>
      RebaseKeepsOne(s, task, op, payload, source, commit, original, permitted, start, now);
    case VerificationEnqueued(task, op, payload, pin, permitted, start) =>
      VerificationKeepsOne(s, task, op, payload, pin, permitted, start, now);
  }

  lemma WriteKeepsOne(s: Store, e: Event, now: Instant)
    requires OneInFlight(s.jobs) && WritesOneJob(e)
    ensures OneInFlight(Step(s, e, now).jobs)
  {
    var after := Step(s, e, now).jobs;
    if after != s.jobs { EndingKeepsOne(s.jobs, e.id, after[e.id]); }
  }

  lemma StepKeepsOneExactly(s: Store, m: Moment)
    requires OneInFlight(s.jobs)
    ensures OneInFlight(Step(s, m.event, m.now).jobs) <==> !RevivesAt(s, m)
  {
    var e := m.event;
    match e
    case ImplementationEnqueued(_, _, _, _, _, _) => EnqueueKeepsOne(s, e, m.now);
    case RebaseEnqueued(_, _, _, _, _, _, _, _) => EnqueueKeepsOne(s, e, m.now);
    case VerificationEnqueued(_, _, _, _, _, _) => EnqueueKeepsOne(s, e, m.now);
    case Reconciled(id, view, newUrl, start) =>
      KeepsOneInFlightExactlyWhen(s, id, Observation(view, newUrl, start, m.now));
    case _ => if WritesOneJob(e) { WriteKeepsOne(s, e, m.now); } else { OtherEventsKeepJobs(s, e, m.now); }
  }

  /**
   * Whatever callers name their operations, a task never has two jobs in flight exactly in the runs that revive
   * nothing.
   */
  lemma {:induction false} OneInFlightExactlyInRunsThatReviveNothing(s: Store, trace: Trace)
    requires OneInFlight(s.jobs)
    ensures AlwaysOneInFlight(s, trace) <==> NeverRevives(s, trace)
  {
    if trace != [] {
      var init := trace[..|trace| - 1];
      OneInFlightExactlyInRunsThatReviveNothing(s, init);
      if AlwaysOneInFlight(s, init) { StepKeepsOneExactly(After(s, init), Last(trace)); }
    }
  }

  lemma {:induction false} RunKeepsRuns(s: Store, trace: Trace)
    requires RunsBelong(s)
    ensures RunsBelong(After(s, trace))
  {
    if trace != [] {
      RunKeepsRuns(s, trace[..|trace| - 1]);
      StepKeepsRuns(After(s, trace[..|trace| - 1]), Last(trace).event, Last(trace).now);
    }
  }

  /** So in every run that revived nothing so far, the next iteration conserves work exactly under that condition. */
  lemma ConservesExactlyWhenInEveryRun(s: Store, trace: Trace, id: JobId, o: Observation)
    requires OneInFlight(s.jobs) && RunsBelong(s) && NeverRevives(s, trace)
    ensures var v := After(s, trace);
      Conserves(v, Iterate(v, id, o).store) <==> (ResumesStall(v, id, o) ==> HolderCarriesOn(v, id, o.now))
  {
    OneInFlightExactlyInRunsThatReviveNothing(s, trace);
    RunKeepsRuns(s, trace);
    ConservesExactlyWhen(After(s, trace), id, o);
  }
}
