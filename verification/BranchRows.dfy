/** The stored jobs as the rows whose branches and commits are followed: what holds of the rows holds of the jobs. */
module BranchRows {
  import opened Common
  import opened Events
  import opened Jobs
  import opened Protocol
  import opened Readiness
  import opened Records
  import opened Recovery
  import B = BranchContinuity

  function RowOf(job: Job): B.Row { B.Row(job.branch, job.commit, job.attempted) }

  function RowsOf(jobs: seq<Job>): (rows: seq<B.Row>)
    ensures |rows| == |jobs| && forall i :: 0 <= i < |jobs| ==> rows[i] == RowOf(jobs[i])
  {
    seq(|jobs|, i requires 0 <= i < |jobs| => RowOf(jobs[i]))
  }

  /** Branch names carry the task they belong to. */
  ghost predicate BranchOwned(s: Store, task: TaskId)
  {
    task in s.tasks ==> forall i :: 0 <= i < |s.jobs| && s.jobs[i].branch == Some(s.tasks[task].branch)
                          ==> s.jobs[i].task == task
  }

  /** Looking for a branch alone finds what looking for the task's job on the branch finds. */
  lemma {:induction false} InheritsAlike(jobs: seq<Job>, task: TaskId, branch: Branch)
    requires forall i :: 0 <= i < |jobs| && jobs[i].branch == Some(branch) ==> jobs[i].task == task
    ensures B.Inherited(RowsOf(jobs), branch) == InheritedCommit(jobs, task, branch)
  {
    if jobs != [] {
      var init := jobs[..|jobs| - 1];
      assert RowsOf(jobs)[..|jobs| - 1] == RowsOf(init);
      InheritsAlike(init, task, branch);
    }
  }

  /** What an operation of the protocol does to the rows; `run` is the stored run that a transfer starts from. */
  function RowEvents(s: Store, e: Event, now: Instant, run: nat): seq<B.Event>
  {
    match e
    case ImplementationEnqueued(task, op, payload, permitted, base, start) =>
      if task in s.tasks
        && |EnqueueImplementation(s, task, op, payload, permitted, base, start, now).store.jobs| > |s.jobs|
      then [B.Enqueued(s.tasks[task].branch)] else []
    case RebaseEnqueued(task, op, payload, source, commit, original, permitted, start) =>
      if |EnqueueRebase(s, task, op, payload, source, commit, original, permitted, start, now).store.jobs| > |s.jobs|
      then [B.RebaseEnqueued(run)] else []
    case VerificationEnqueued(task, op, payload, pin, permitted, start) =>
      if |EnqueueHttpE2e(s, task, op, payload, pin, permitted, start, now).store.jobs| > |s.jobs|
      then [B.VerificationEnqueued] else []
    case Reconciled(id, view, newUrl, start) =>
      if |Reconcile(s, id, view, newUrl, start, now).store.jobs| > |s.jobs| then [B.Resumed(id)] else []
    case _ => []
  }

  lemma OneRowEvent(w: B.World, e: B.Event)
    ensures B.After(w, []) == w && B.After(w, [e]) == B.Step(w, e)
  {
    assert [e][..0] == [];
  }

  lemma RowsAppend(jobs: seq<Job>, job: Job)
    ensures RowsOf(jobs + [job]) == RowsOf(jobs) + [RowOf(job)]
  {
  }

  lemma LaunchedRow(s: Store, job: Job, start: Start, now: Instant)
    ensures RowsOf(Launch(s, job, start, now).store.jobs) == RowsOf(s.jobs) + [RowOf(job)]
  {
    RowsAppend(s.jobs, Last(Launch(s, job, start, now).store.jobs));
  }

  lemma EnqueuedRow(s: Store, task: TaskId, op: OperationId, payload: Payload, permitted: bool, base: Base,
      start: Start, now: Instant)
    ensures var after := EnqueueImplementation(s, task, op, payload, permitted, base, start, now).store.jobs;
      RowsOf(after) == if task in s.tasks && |after| > |s.jobs|
                       then RowsOf(s.jobs)
                         + [B.Row(Some(s.tasks[task].branch), InheritedCommit(s.jobs, task, s.tasks[task].branch),
                             None)]
                       else RowsOf(s.jobs)
  {
    if task in s.tasks {
      LaunchedRow(SetState(s, task, Implementing), ImplementationJob(s, task, op, payload, base, now), start, now);
    }
  }

  lemma ImplementationRows(s: Store, w: B.World, e: Event, now: Instant)
    requires e.ImplementationEnqueued? && w.rows == RowsOf(s.jobs) && BranchOwned(s, e.task)
    ensures RowsOf(Step(s, e, now).jobs) == B.After(w, RowEvents(s, e, now, 0)).rows
  {
    EnqueuedRow(s, e.task, e.op, e.payload, e.permitted, e.base, e.start, now);
    if e.task in s.tasks {
      InheritsAlike(s.jobs, e.task, s.tasks[e.task].branch);
      OneRowEvent(w, B.Enqueued(s.tasks[e.task].branch));
    }
  }

  lemma TransferredRow(s: Store, task: TaskId, op: OperationId, payload: Payload, source: Branch, commit: Commit,
      original: Commit, permitted: bool, start: Start, now: Instant)
    ensures var after := EnqueueRebase(s, task, op, payload, source, commit, original, permitted, start,
        now).store.jobs;
      RowsOf(after) == if |after| > |s.jobs|
                       then RowsOf(s.jobs) + [B.Row(Some(source), Some(commit), None)] else RowsOf(s.jobs)
  {
    if task in s.tasks {
      LaunchedRow(SetState(s, task, Implementing), RebaseJob(s, task, op, payload, source, commit, original, now),
          start, now);
    }
  }

  lemma TransferRows(s: Store, w: B.World, e: Event, now: Instant, run: nat)
    requires e.RebaseEnqueued? && w.rows == RowsOf(s.jobs) && run < |w.runs| && w.runs[run] == (e.source, e.commit)
    ensures RowsOf(Step(s, e, now).jobs) == B.After(w, RowEvents(s, e, now, run)).rows
  {
    TransferredRow(s, e.task, e.op, e.payload, e.source, e.commit, e.original, e.permitted, e.start, now);
    OneRowEvent(w, B.RebaseEnqueued(run));
  }

  lemma VerificationRows(s: Store, w: B.World, e: Event, now: Instant)
    requires e.VerificationEnqueued? && w.rows == RowsOf(s.jobs)
    ensures RowsOf(Step(s, e, now).jobs) == B.After(w, RowEvents(s, e, now, 0)).rows
  {
    var after := Step(s, e, now);
    if |after.jobs| > |s.jobs| {
      OneRowEvent(w, B.VerificationEnqueued);
      RowsAppend(s.jobs, Last(after.jobs));
    }
  }

  lemma SameRows(a: seq<Job>, b: seq<Job>)
    requires |a| == |b| && forall i :: 0 <= i < |a| ==> RowOf(a[i]) == RowOf(b[i])
    ensures RowsOf(a) == RowsOf(b)
  {
  }

  lemma ContinueRows(s: Store, stalled: JobId, next: Job, start: Start, now: Instant)
    ensures var after := Continue(s, stalled, next, start, now).store.jobs;
      RowsOf(after) == if |after| > |s.jobs| then RowsOf(s.jobs) + [RowOf(next)] else RowsOf(s.jobs)
  {
    var after := Continue(s, stalled, next, start, now).store.jobs;
    SameRows(after, if |after| > |s.jobs| then s.jobs + [next] else s.jobs);
    RowsAppend(s.jobs, next);
  }

  lemma EndingRows(s: Store, id: JobId, job: Job, status: JobStatus, cause: Cause, start: Start, now: Instant)
    requires id < |s.jobs| && RowOf(job) == RowOf(s.jobs[id])
    ensures var after := Conclude(s, id, job, Terminalize(status, cause), start, now).store.jobs;
      RowsOf(after) == if |after| > |s.jobs|
                       then RowsOf(s.jobs) + [RowOf(s.jobs[id]).(attempted := None)] else RowsOf(s.jobs)
  {
    var ended := PutJob(s, id, EndStalled(job, status, cause, now));
    SameRows(ended.jobs, s.jobs);
    ContinueRows(ended, id, NextAttempt(job, id, cause, now), start, now);
  }

  lemma ReconcileRows(s: Store, id: JobId, o: Observation)
    ensures var after := Reconcile(s, id, o.view, o.newUrl, o.start, o.now).store.jobs;
      RowsOf(after) == if id < |s.jobs| && |after| > |s.jobs|
                       then RowsOf(s.jobs) + [RowOf(s.jobs[id]).(attempted := None)] else RowsOf(s.jobs)
  {
    if id < |s.jobs| && !(s.jobs[id].status == JobStatus.Queued && s.jobs[id].resume.Some?) {
      var job := Seen(s.jobs[id], o.view, o.newUrl, o.now);
      var d := Decide(job, o.view, o.now);
      if d.Terminalize? {
        EndingRows(s, id, job, d.status, d.cause, o.start, o.now);
      } else {
        SameRows(s.jobs, PutJob(s, id, job).jobs);
      }
    } else {
      SameRows(s.jobs, Reconcile(s, id, o.view, o.newUrl, o.start, o.now).store.jobs);
    }
  }

  lemma ResumedRows(s: Store, w: B.World, e: Event, now: Instant)
    requires e.Reconciled? && w.rows == RowsOf(s.jobs)
    ensures RowsOf(Step(s, e, now).jobs) == B.After(w, RowEvents(s, e, now, 0)).rows
  {
    ReconcileRows(s, e.id, Observation(e.view, e.newUrl, e.start, now));
    OneRowEvent(w, B.Resumed(e.id));
    if e.id >= |s.jobs| { assert Step(s, e, now) == s; }
  }

  /** The event is one of an execution runner, whose writes follow the checkout and the push. */
  predicate OfRunner(e: Event) { e.RunnerWrote? }

  /** What must be true of a step for the rows to follow it. */
  ghost predicate Followed(s: Store, w: B.World, e: Event, run: nat)
  {
    && (e.ImplementationEnqueued? ==> BranchOwned(s, e.task))
    && (e.RebaseEnqueued? ==> run < |w.runs| && w.runs[run] == (e.source, e.commit))
  }

  lemma OtherRows(s: Store, w: B.World, e: Event, now: Instant, run: nat)
    requires w.rows == RowsOf(s.jobs) && !OfRunner(e)
    requires !e.ImplementationEnqueued? && !e.RebaseEnqueued? && !e.VerificationEnqueued? && !e.Reconciled?
    ensures RowsOf(Step(s, e, now).jobs) == B.After(w, RowEvents(s, e, now, run)).rows
  {
    if e.VerificationPrepared? || e.EvidenceRecorded? {
      VerifyingRows(s, e, now);
    } else {
      SameRows(Step(s, e, now).jobs, s.jobs);
    }
  }

  lemma VerifyingRows(s: Store, e: Event, now: Instant)
    requires e.VerificationPrepared? || e.EvidenceRecorded?
    ensures RowsOf(Step(s, e, now).jobs) == RowsOf(s.jobs)
  {
    SameRows(Step(s, e, now).jobs, s.jobs);
  }

  /** Every operation other than a runner's own write does to the jobs what the branch events do to the rows. */
  lemma RowsFollow(s: Store, w: B.World, e: Event, now: Instant, run: nat)
    requires w.rows == RowsOf(s.jobs) && !OfRunner(e) && Followed(s, w, e, run)
    ensures RowsOf(Step(s, e, now).jobs) == B.After(w, RowEvents(s, e, now, run)).rows
  {
    match e
    case ImplementationEnqueued(_, _, _, _, _, _) => ImplementationRows(s, w, e, now);
    case RebaseEnqueued(_, _, _, _, _, _, _, _) => TransferRows(s, w, e, now, run);
    case VerificationEnqueued(_, _, _, _, _, _) => VerificationRows(s, w, e, now);
    case Reconciled(_, _, _, _) => ResumedRows(s, w, e, now);
    case _ => OtherRows(s, w, e, now, run);
  }

  // ---- runs of both

  /**
   * One move of the whole system: an operation of the protocol, a write of a runner together with the branch events it
   * stands for, or anything that happens to branches and workspaces without a job being written.
   */
  datatype Move =
    | Operation(moment: Moment, run: nat)
    | RunnerMove(moment: Moment, events: seq<B.Event>)
    | BranchMove(events: seq<B.Event>)

  datatype System = System(store: Store, world: B.World)

  ghost function Moved(y: System, m: Move): System
  {
    match m
    case Operation(moment, run) =>
      System(Step(y.store, moment.event, moment.now),
          B.After(y.world, RowEvents(y.store, moment.event, moment.now, run)))
    case RunnerMove(moment, events) => System(Step(y.store, moment.event, moment.now), B.After(y.world, events))
    case BranchMove(events) => y.(world := B.After(y.world, events))
  }

  /** A runner writes to its job what it writes to the row: the branch, the published and the attempted commit. */
  ghost predicate Sound(y: System, m: Move)
  {
    match m
    case Operation(moment, run) => !OfRunner(moment.event) && Followed(y.store, y.world, moment.event, run)
    case RunnerMove(moment, events) =>
      OfRunner(moment.event) && RowsOf(Step(y.store, moment.event, moment.now).jobs) == B.After(y.world, events).rows
    case BranchMove(events) => B.After(y.world, events).rows == y.world.rows
  }

  ghost function Run(y: System, moves: seq<Move>): System
  {
    if moves == [] then y else Moved(Run(y, moves[..|moves| - 1]), Last(moves))
  }

  ghost predicate AllSound(y: System, moves: seq<Move>)
  {
    moves != [] ==> AllSound(y, moves[..|moves| - 1]) && Sound(Run(y, moves[..|moves| - 1]), Last(moves))
  }

  /**
   * In every run of the job protocol beside its branches, each commit stored on a job is an identifier of nothing, or
   * one that origin carried on that job's branch, or the base of a rebase branch; a task branch still contains it.
   */
  lemma {:induction false} StoredCommitsAreCarried(y: System, moves: seq<Move>)
    requires B.Inv(y.world) && y.world.rows == RowsOf(y.store.jobs) && AllSound(y, moves)
    ensures var v := Run(y, moves);
      && B.Inv(v.world) && v.world.rows == RowsOf(v.store.jobs)
      && forall i :: 0 <= i < |v.store.jobs| && v.store.jobs[i].branch.Some? && v.store.jobs[i].commit.Some? ==>
           B.PairOk(v.world, v.store.jobs[i].branch.value, v.store.jobs[i].commit.value)
  {
    if moves != [] {
      var before, m := Run(y, moves[..|moves| - 1]), Last(moves);
      StoredCommitsAreCarried(y, moves[..|moves| - 1]);
      match m
      case Operation(moment, run) =>
        RowsFollow(before.store, before.world, moment.event, moment.now, run);
        B.RunKeeps(before.world, RowEvents(before.store, moment.event, moment.now, run));
      case RunnerMove(_, events) => B.RunKeeps(before.world, events);
      case BranchMove(events) => B.RunKeeps(before.world, events);
    }
    JobsLikeRows(Run(y, moves));
  }

  lemma JobsLikeRows(y: System)
    requires B.Inv(y.world) && y.world.rows == RowsOf(y.store.jobs)
    ensures forall i :: 0 <= i < |y.store.jobs| && y.store.jobs[i].branch.Some? && y.store.jobs[i].commit.Some? ==>
              B.PairOk(y.world, y.store.jobs[i].branch.value, y.store.jobs[i].commit.value)
  {
    forall i | 0 <= i < |y.store.jobs| && y.store.jobs[i].branch.Some? && y.store.jobs[i].commit.Some?
      ensures B.PairOk(y.world, y.store.jobs[i].branch.value, y.store.jobs[i].commit.value)
    {
      assert B.RowOk(y.world, y.world.rows[i]);
    }
  }
}
