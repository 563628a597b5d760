/** Chains of resumed attempts, and how long a repeated cause keeps them waiting. */
module ResumeChains {
  import opened Backoff
  import opened Common
  import opened Events
  import opened JobInvariant
  import opened Jobs
  import opened Protocol
  import opened Records

  /** The attempts from the root to `i`. */
  function Chain(jobs: seq<Job>, i: JobId): (r: seq<JobId>)
    requires AllLinked(jobs) && i < |jobs|
    ensures r != [] && Last(r) == i && forall k :: 0 <= k < |r| ==> r[k] < |jobs|
    decreases i
  {
    assert Linked(jobs, i);
    if jobs[i].resume.None? then [i] else Chain(jobs, jobs[i].resume.value.link.of) + [i]
  }

  /** The causes that ended the attempts before `i`, oldest first. */
  function Causes(jobs: seq<Job>, i: JobId): seq<Cause>
    requires AllLinked(jobs) && i < |jobs|
    decreases i
  {
    assert Linked(jobs, i);
    if jobs[i].resume.None? then [] else Causes(jobs, jobs[i].resume.value.link.of) + [jobs[i].resume.value.link.cause]
  }

  /**
   * Along a chain the root, its operation and the work's origin stay fixed, attempts count 0, 1, 2, ..., each attempt
   * but the last has ended, and no two attempts share an operation identifier.
   */
  lemma {:induction false} ChainCounts(jobs: seq<Job>, i: JobId)
    requires AllLinked(jobs) && i < |jobs|
    ensures var c := Chain(jobs, i);
      && |c| == AttemptOf(jobs[i]) + 1 && c[0] == RootOf(jobs[i], i)
      && (forall k :: 0 <= k < |c|
            ==> AttemptOf(jobs[c[k]]) == k && RootOf(jobs[c[k]], c[k]) == c[0] && SameOrigin(jobs[c[0]], jobs[c[k]]))
      && (forall k :: 0 < k < |c| ==>
            && jobs[c[k]].op == AttemptId(jobs[c[0]].op, k) && jobs[c[k]].resume.Some?
            && jobs[c[k]].resume.value.link.of == c[k - 1])
      && (forall k :: 0 <= k < |c| - 1 ==> !Active(jobs[c[k]].status))
      && jobs[c[0]].op.suffix == Plain
    decreases i
  {
    assert Linked(jobs, i);
    if jobs[i].resume.Some? {
      ChainCounts(jobs, jobs[i].resume.value.link.of);
    }
  }

  lemma ChainIdsDistinct(jobs: seq<Job>, i: JobId)
    requires AllLinked(jobs) && i < |jobs|
    ensures var c := Chain(jobs, i); forall j, k :: 0 <= j < k < |c| ==> jobs[c[j]].op != jobs[c[k]].op
  {
    ChainCounts(jobs, i);
  }

  /** The counter carried from attempt to attempt is the length of the longest constant suffix of the causes. */
  lemma {:induction false} StreakIsTrailingRun(jobs: seq<Job>, i: JobId)
    requires AllLinked(jobs) && i < |jobs| && jobs[i].resume.Some?
    ensures jobs[i].resume.value.link.streak == TrailingRun(Causes(jobs, i)) >= 1
    decreases i
  {
    assert Linked(jobs, i);
    var l := jobs[i].resume.value.link;
    var earlier := Causes(jobs, l.of);
    var causes := earlier + [l.cause];
    assert causes[..|causes| - 1] == earlier;
    assert Linked(jobs, l.of);
    if jobs[l.of].resume.Some? {
      StreakIsTrailingRun(jobs, l.of);
      assert Last(earlier) == jobs[l.of].resume.value.link.cause;
    }
  }

  // ---- back-off over runs

  /** The attempt with which the current streak of one cause began. */
  function StreakStart(jobs: seq<Job>, i: JobId): (r: JobId)
    requires AllLinked(jobs) && i < |jobs|
    ensures r <= i
    decreases i
  {
    assert Linked(jobs, i);
    if jobs[i].resume.None? || jobs[i].resume.value.link.streak <= 1
    then i else StreakStart(jobs, jobs[i].resume.value.link.of)
  }

  /** When the stall that began the current streak was found: the next attempt is created at that instant. */
  function FirstStall(jobs: seq<Job>, i: JobId): Instant
    requires AllLinked(jobs) && i < |jobs|
  {
    jobs[StreakStart(jobs, i)].queuedAt
  }

  ghost predicate WaitsEnough(jobs: seq<Job>, i: JobId)
    requires AllLinked(jobs) && i < |jobs|
  {
    jobs[i].resume.Some? ==>
      jobs[i].resume.value.notBefore >= FirstStall(jobs, i) + LeastWait(jobs[i].resume.value.link.streak) * MINUTE
  }

  /** A resumed attempt that is under way was allowed to start. */
  predicate StartedInTime(job: Job, clock: Instant)
  {
    job.resume.Some? && Active(job.status) && job.status != JobStatus.Queued ==> job.resume.value.notBefore <= clock
  }

  ghost predicate BackoffInv(jobs: seq<Job>, clock: Instant)
  {
    && AllLinked(jobs)
    && forall i :: 0 <= i < |jobs| ==> WaitsEnough(jobs, i) && StartedInTime(jobs[i], clock)
  }

  /** A claim of a resumed attempt that is still waiting out its back-off. */
  predicate ClaimsEarly(s: Store, e: Event, now: Instant)
  {
    && (e.JobClaimed? || e.VerificationPrepared?) && e.id < |s.jobs|
    && s.jobs[e.id].status == JobStatus.Queued && s.jobs[e.id].resume.Some? && s.jobs[e.id].resume.value.notBefore > now
  }

  lemma {:induction false} StreakStartKeeps(a: seq<Job>, b: seq<Job>, i: JobId)
    requires AllLinked(a) && AllLinked(b) && i < |a| <= |b|
    requires forall k :: 0 <= k < |a| ==> SameIdentity(a[k], b[k])
    ensures StreakStart(a, i) == StreakStart(b, i) && FirstStall(a, i) == FirstStall(b, i)
    decreases i
  {
    assert Linked(a, i) && Linked(b, i) && SameIdentity(a[i], b[i]);
    if a[i].resume.Some? && a[i].resume.value.link.streak > 1 { StreakStartKeeps(a, b, a[i].resume.value.link.of); }
  }

  /** What a step may do to a stored job as far as its waiting is concerned. */
  predicate KeepsWaiting(a: Job, b: Job, now: Instant)
  {
    && SameIdentity(a, b)
    && (a.resume.Some? ==> b.resume.value.notBefore >= a.resume.value.notBefore)
    && (a.resume.Some? && b.resume.value.notBefore != a.resume.value.notBefore ==> b.status == JobStatus.Queued)
    && (a.resume.Some? && a.status == JobStatus.Queued && Active(b.status) && b.status != JobStatus.Queued
      ==> a.resume.value.notBefore <= now)
    && (Active(b.status) ==> Active(a.status))
  }

  /** Stored jobs are only rewritten within `KeepsWaiting`; at most one job is new. */
  ghost predicate OldJobsWait(before: seq<Job>, after: seq<Job>, now: Instant)
  {
    && |before| <= |after|
    && forall i :: 0 <= i < |before| ==> KeepsWaiting(before[i], after[i], now)
  }

  lemma OldJobsKeepBackoff(before: seq<Job>, after: seq<Job>, clock: Instant, now: Instant, i: JobId)
    requires BackoffInv(before, clock) && AllLinked(after) && clock <= now
    requires OldJobsWait(before, after, now) && i < |before|
    ensures WaitsEnough(after, i) && StartedInTime(after[i], now)
  {
    assert KeepsWaiting(before[i], after[i], now);
    assert forall k :: 0 <= k < |before|
             ==> KeepsWaiting(before[k], after[k], now) && SameIdentity(before[k], after[k]);
    StreakStartKeeps(before, after, i);
    assert WaitsEnough(before, i) && StartedInTime(before[i], clock);
  }

  /** A new attempt waits long enough, when the attempt before it had been allowed to start. */
  lemma NewAttemptWaits(jobs: seq<Job>, p: JobId, i: JobId)
    requires AllLinked(jobs) && p < |jobs| && i < |jobs|
    requires jobs[i].resume.Some? && jobs[i].resume.value.link.of == p
    requires jobs[i].resume.value.notBefore >= jobs[i].queuedAt + ResumeDelay(jobs[i].resume.value.link.streak) * MINUTE
    requires WaitsEnough(jobs, p)
    requires jobs[p].resume.Some? ==> jobs[p].resume.value.notBefore <= jobs[i].queuedAt
    ensures WaitsEnough(jobs, i)
  {
    assert Linked(jobs, i);
    var l := jobs[i].resume.value.link;
    StreakIsTrailingRun(jobs, i);
    LeastWaitStep(1);
    if l.streak > 1 {
      StreakIsTrailingRun(jobs, p);
      LeastWaitStep(l.streak - 1);
    }
  }

  lemma PrefixWaits(before: seq<Job>, after: seq<Job>, now: Instant)
    requires before <= after
    ensures OldJobsWait(before, after, now)
  {
  }

  lemma UpdateWaits(before: seq<Job>, i: JobId, b: Job, now: Instant)
    requires i < |before| && KeepsWaiting(before[i], b, now)
    ensures OldJobsWait(before, before[i := b], now)
  {
  }

  lemma RunnerWriteWaits(s: Store, e: Event, now: Instant)
    requires !ClaimsEarly(s, e, now) && (e.JobClaimed? || e.RunnerWrote? || e.SuccessOverwritten? || e.JobCancelled?)
    ensures OldJobsWait(s.jobs, Step(s, e, now).jobs, now) && |Step(s, e, now).jobs| == |s.jobs|
  {
    var after := Step(s, e, now).jobs;
    if after != s.jobs { UpdateWaits(s.jobs, e.id, after[e.id], now); }
  }

  lemma VerificationWriteWaits(s: Store, e: Event, now: Instant)
    requires !ClaimsEarly(s, e, now) && (e.VerificationPrepared? || e.EvidenceRecorded?)
    ensures OldJobsWait(s.jobs, Step(s, e, now).jobs, now) && |Step(s, e, now).jobs| == |s.jobs|
  {
    var after := Step(s, e, now).jobs;
    if after != s.jobs { UpdateWaits(s.jobs, e.id, after[e.id], now); }
  }

  lemma WriteWaits(s: Store, e: Event, now: Instant)
    requires !ClaimsEarly(s, e, now) && WritesOneJob(e)
    ensures OldJobsWait(s.jobs, Step(s, e, now).jobs, now) && |Step(s, e, now).jobs| == |s.jobs|
  {
    if e.VerificationPrepared? || e.EvidenceRecorded? {
      VerificationWriteWaits(s, e, now);
    } else {
      RunnerWriteWaits(s, e, now);
    }
  }

  lemma DispatchWaits(s: Store, id: JobId, start: Start, now: Instant)
    requires id < |s.jobs| && s.jobs[id].resume.Some? && s.jobs[id].resume.value.notBefore <= now
        && Active(s.jobs[id].status)
    ensures var after := Dispatch(s, id, start, now).store.jobs; OldJobsWait(s.jobs, after, now) && |after| == |s.jobs|
  {
    UpdateWaits(s.jobs, id, Dispatch(s, id, start, now).store.jobs[id], now);
  }

  lemma ResumedOldJobsWait(s: Store, id: JobId, job: Job, status: JobStatus, cause: Cause, start: Start, now: Instant)
    requires JobsInv(s.jobs) && id < |s.jobs| && Active(s.jobs[id].status) && !Active(status)
    requires s.jobs[id].(updatedAt := job.updatedAt) == job
    ensures var ended := PutJob(s, id, EndStalled(job, status, cause, now));
            var r := Continue(ended, id, NextAttempt(job, id, cause, now), start, now).store;
            OldJobsWait(s.jobs, r.jobs, now)
  {
    var end := EndStalled(job, status, cause, now);
    var r := Continue(PutJob(s, id, end), id, NextAttempt(job, id, cause, now), start, now).store;
    ResumedJobs(s, id, job, status, cause, start, now);
    UpdateWaits(s.jobs, id, end, now);
    forall i | 0 <= i < |s.jobs| ensures KeepsWaiting(s.jobs[i], r.jobs[i], now) {
      assert r.jobs[i] == r.jobs[..|s.jobs|][i];
      assert KeepsWaiting(s.jobs[i], s.jobs[id := end][i], now);
    }
  }

  lemma NewJobIsNext(s: Store, id: JobId, job: Job, status: JobStatus, cause: Cause, start: Start, now: Instant)
    requires JobsInv(s.jobs) && id < |s.jobs| && Active(s.jobs[id].status) && !Active(status)
    requires s.jobs[id].(updatedAt := job.updatedAt) == job
    ensures var ended := PutJob(s, id, EndStalled(job, status, cause, now));
            var r := Continue(ended, id, NextAttempt(job, id, cause, now), start, now).store;
      && |r.jobs| == |s.jobs| + 1
      && var new_ := r.jobs[|s.jobs|];
         && new_.resume.Some? && new_.resume.value.link.of == id && new_.queuedAt == now
         && new_.resume.value.notBefore >= now + ResumeDelay(new_.resume.value.link.streak) * MINUTE
         && StartedInTime(new_, now)
  {
    ResumedJobs(s, id, job, status, cause, start, now);
  }

  /** A stall resumed at `now`: the old jobs keep waiting, and the new attempt waits as long as its streak asks. */
  lemma ResumedWaits(s: Store, id: JobId, job: Job, status: JobStatus, cause: Cause, start: Start, clock: Instant,
      now: Instant)
    requires JobsInv(s.jobs) && BackoffInv(s.jobs, clock) && clock <= now
    requires id < |s.jobs| && Active(s.jobs[id].status) && !Active(status)
    requires s.jobs[id].(updatedAt := job.updatedAt) == job
    requires s.jobs[id].resume.Some? ==> s.jobs[id].status != JobStatus.Queued
    ensures var ended := PutJob(s, id, EndStalled(job, status, cause, now));
            BackoffInv(Continue(ended, id, NextAttempt(job, id, cause, now), start, now).store.jobs, now)
  {
    var after := Continue(PutJob(s, id, EndStalled(job, status, cause, now)), id, NextAttempt(job, id, cause, now),
        start, now).store.jobs;
    ResumedJobs(s, id, job, status, cause, start, now);
    ResumedOldJobsWait(s, id, job, status, cause, start, now);
    NewJobIsNext(s, id, job, status, cause, start, now);
    assert after[id].resume.Some?
        ==> after[id].resume == s.jobs[id].resume by { assert after[id] == after[..|s.jobs|][id]; }
    OneNewAttempt(s.jobs, after, id, clock, now);
  }

  /** Old jobs that keep waiting, and one new attempt of a job that had been allowed to start. */
  lemma OneNewAttempt(before: seq<Job>, after: seq<Job>, id: JobId, clock: Instant, now: Instant)
    requires BackoffInv(before, clock) && clock <= now && AllLinked(after) && OldJobsWait(before, after, now)
    requires |after| == |before| + 1 && id < |before| && Active(before[id].status)
    requires before[id].resume.Some? ==> before[id].status != JobStatus.Queued && after[id].resume == before[id].resume
    requires var job := after[|before|];
             && job.resume.Some? && job.resume.value.link.of == id && job.queuedAt == now && StartedInTime(job, now)
             && job.resume.value.notBefore >= now + ResumeDelay(job.resume.value.link.streak) * MINUTE
    ensures BackoffInv(after, now)
  {
    OldJobsKeepBackoff(before, after, clock, now, id);
    assert StartedInTime(before[id], clock);
    assert KeepsWaiting(before[id], after[id], now);
    NewAttemptWaits(after, id, |before|);
    forall i | 0 <= i < |after| ensures WaitsEnough(after, i) && StartedInTime(after[i], now) {
      if i < |before| { OldJobsKeepBackoff(before, after, clock, now, i); }
    }
  }

  lemma OldJobsOnlyKeepBackoff(before: seq<Job>, after: seq<Job>, clock: Instant, now: Instant)
    requires BackoffInv(before, clock) && AllLinked(after) && clock <= now && OldJobsWait(before, after, now)
    requires forall i :: |before| <= i < |after| ==> after[i].resume.None?
    ensures BackoffInv(after, now)
  {
    forall i | 0 <= i < |after| ensures WaitsEnough(after, i) && StartedInTime(after[i], now) {
      if i < |before| { OldJobsKeepBackoff(before, after, clock, now, i); }
    }
  }

  lemma ConcludeWaits(s: Store, id: JobId, job: Job, decision: Decision, start: Start, clock: Instant, now: Instant)
    requires JobsInv(s.jobs) && BackoffInv(s.jobs, clock) && clock <= now
    requires id < |s.jobs| && s.jobs[id].(updatedAt := job.updatedAt) == job
    requires decision.Terminalize? ==> Active(job.status) && !Active(decision.status)
    requires s.jobs[id].resume.Some? ==> s.jobs[id].status != JobStatus.Queued
    ensures BackoffInv(Conclude(s, id, job, decision, start, now).store.jobs, now)
  {
    var after := Conclude(s, id, job, decision, start, now).store.jobs;
    ConcludeKeeps(s, id, job, decision, start, now);
    if decision.Terminalize? && Resumable(job, decision.cause) {
      ResumedWaits(s, id, job, decision.status, decision.cause, start, clock, now);
    } else {
      UpdateWaits(s.jobs, id, after[id], now);
      OldJobsOnlyKeepBackoff(s.jobs, after, clock, now);
    }
  }

  lemma UnchangedKeepsBackoff(jobs: seq<Job>, clock: Instant, now: Instant)
    requires BackoffInv(jobs, clock) && clock <= now
    ensures BackoffInv(jobs, now)
  {
    PrefixWaits(jobs, jobs, now);
    OldJobsOnlyKeepBackoff(jobs, jobs, clock, now);
  }

  lemma ReconcileWaits(s: Store, id: JobId, view: Option<View>, newUrl: bool, start: Start, clock: Instant,
      now: Instant)
    requires JobsInv(s.jobs) && BackoffInv(s.jobs, clock) && clock <= now
    ensures BackoffInv(Reconcile(s, id, view, newUrl, start, now).store.jobs, now)
  {
    UnchangedKeepsBackoff(s.jobs, clock, now);
    if id < |s.jobs| {
      if s.jobs[id].status == JobStatus.Queued && s.jobs[id].resume.Some? {
        if s.jobs[id].resume.value.notBefore <= now {
          DispatchKeeps(s, id, start, now);
          DispatchWaits(s, id, start, now);
          OldJobsOnlyKeepBackoff(s.jobs, Dispatch(s, id, start, now).store.jobs, clock, now);
        }
      } else {
        var job := Seen(s.jobs[id], view, newUrl, now);
        EndingIsFinal(job, view, now);
        ConcludeWaits(s, id, job, Decide(job, view, now), start, clock, now);
      }
    }
  }

  lemma EnqueueAppendsRoots(s: Store, e: Event, now: Instant)
    requires JobsInv(s.jobs) && PlainlyNamed(e)
    requires e.ImplementationEnqueued? || e.RebaseEnqueued? || e.VerificationEnqueued?
    ensures s.jobs <= Step(s, e, now).jobs
    ensures forall i :: |s.jobs| <= i < |Step(s, e, now).jobs| ==> Step(s, e, now).jobs[i].resume.None?
  {
    match e
    case ImplementationEnqueued(task, op, payload, permitted, base, start) =>
      EnqueueImplementationKeeps(s, task, op, payload, permitted, base, start, now);
    case RebaseEnqueued(task, op, payload, source, commit, original, permitted, start) =>
      EnqueueRebaseKeeps(s, task, op, payload, source, commit, original, permitted, start, now);
    case VerificationEnqueued(task, op, payload, pin, permitted, start) =>
      EnqueueHttpE2eKeeps(s, task, op, payload, pin, permitted, start, now);
  }

  lemma StepKeepsBackoff(s: Store, e: Event, clock: Instant, now: Instant)
    requires JobsInv(s.jobs) && BackoffInv(s.jobs, clock) && clock <= now
    requires PlainlyNamed(e) && !ClaimsEarly(s, e, now)
    ensures BackoffInv(Step(s, e, now).jobs, now)
  {
    var after := Step(s, e, now).jobs;
    StepKeepsJobs(s, e, now);
    if e.Reconciled? {
      ReconcileWaits(s, e.id, e.view, e.newUrl, e.start, clock, now);
    } else {
      if e.ImplementationEnqueued? || e.RebaseEnqueued? || e.VerificationEnqueued? {
        EnqueueAppendsRoots(s, e, now);
        PrefixWaits(s.jobs, after, now);
      } else if TouchesJobs(e) {
        WriteWaits(s, e, now);
      } else {
        OtherEventsKeepJobs(s, e, now);
        PrefixWaits(s.jobs, after, now);
      }
      OldJobsOnlyKeepBackoff(s.jobs, after, clock, now);
    }
  }

  function ClockAfter(clock: Instant, trace: Trace): Instant
  {
    if trace == [] then clock else Last(trace).now
  }

  /**
   * The clock never runs backwards, operations are plainly named, and nobody claims an attempt that is still waiting.
   */
  ghost predicate Orderly(s: Store, clock: Instant, trace: Trace)
  {
    trace == [] ||
      var init, m := trace[..|trace| - 1], Last(trace);
      && Orderly(s, clock, init)
      && ClockAfter(clock, init) <= m.now && PlainlyNamed(m.event) && !ClaimsEarly(After(s, init), m.event, m.now)
  }

  lemma {:induction false} RunKeepsBackoff(s: Store, clock: Instant, trace: Trace)
    requires JobsInv(s.jobs) && BackoffInv(s.jobs, clock) && Orderly(s, clock, trace)
    ensures JobsInv(After(s, trace).jobs) && BackoffInv(After(s, trace).jobs, ClockAfter(clock, trace))
  {
    if trace != [] {
      var init, m := trace[..|trace| - 1], Last(trace);
      RunKeepsBackoff(s, clock, init);
      StepKeepsJobs(After(s, init), m.event, m.now);
      StepKeepsBackoff(After(s, init), m.event, ClockAfter(clock, init), m.now);
    }
  }

  /** The step takes attempt `i` out of the queue alive: it is dispatched or claimed. */
  predicate Starts(before: seq<Job>, after: seq<Job>, i: JobId)
    requires i < |before| <= |after|
  {
    before[i].resume.Some? && before[i].status == JobStatus.Queued && Active(after[i].status)
      && after[i].status != JobStatus.Queued
  }

  /**
   * The back-off bound over whole runs. A resumed attempt that starts after `trace` does so no earlier than the least
   * wait of its streak after the streak's first stall.
   */
  lemma StartsNoEarlierThanBound(s: Store, clock: Instant, trace: Trace, e: Event, now: Instant, i: JobId)
    requires JobsInv(s.jobs) && BackoffInv(s.jobs, clock) && Orderly(s, clock, trace + [Moment(e, now)])
    ensures var before, after := After(s, trace).jobs, Step(After(s, trace), e, now).jobs;
            i < |before| <= |after| && Starts(before, after, i) ==> WaitedItsTurn(before, i, now)
  {
    assert (trace + [Moment(e, now)])[..|trace|] == trace;
    RunKeepsBackoff(s, clock, trace);
    var t := After(s, trace);
    if i < |t.jobs| <= |Step(t, e, now).jobs| && Starts(t.jobs, Step(t, e, now).jobs, i) {
      assert WaitsEnough(t.jobs, i);
      StartsOnlyWhenDue(t, e, now, i);
    }
  }

  /**
   * `now` is no earlier than the attempt allows, nor than the least wait of its streak after the streak's first stall.
   */
  ghost predicate WaitedItsTurn(jobs: seq<Job>, i: JobId, now: Instant)
    requires i < |jobs|
  {
    && AllLinked(jobs) && jobs[i].resume.Some?
    && now >= jobs[i].resume.value.notBefore
    && now >= FirstStall(jobs, i) + LeastWait(jobs[i].resume.value.link.streak) * MINUTE
  }

  /** A step starts a resumed attempt before it is due exactly when it is an early claim that succeeds. */
  lemma StartsOnlyWhenDue(s: Store, e: Event, now: Instant, i: JobId)
    requires JobsInv(s.jobs) && PlainlyNamed(e) && i < |s.jobs| <= |Step(s, e, now).jobs|
    requires Starts(s.jobs, Step(s, e, now).jobs, i)
    ensures s.jobs[i].resume.value.notBefore > now <==> ClaimsEarly(s, e, now) && e.id == i
  {
    if e.ImplementationEnqueued? || e.RebaseEnqueued? || e.VerificationEnqueued? {
      EnqueueAppendsRoots(s, e, now);
    } else if e.Reconciled? {
      ReconcileStarts(s, e.id, e.view, e.newUrl, e.start, now, i);
    } else if !TouchesJobs(e) {
      OtherEventsKeepJobs(s, e, now);
    }
  }

  /** Judging a job never starts a stored attempt. */
  lemma ConcludeStartsNothing(s: Store, id: JobId, job: Job, decision: Decision, start: Start, now: Instant, i: JobId)
    requires JobsInv(s.jobs) && id < |s.jobs| && i < |s.jobs|
    requires s.jobs[id].(updatedAt := job.updatedAt) == job
    requires decision.Terminalize? ==> Active(job.status) && !Active(decision.status)
    requires !(s.jobs[id].status == JobStatus.Queued && s.jobs[id].resume.Some?)
    ensures var after := Conclude(s, id, job, decision, start, now).store.jobs;
            |s.jobs| <= |after| && !Starts(s.jobs, after, i)
  {
    if decision.Terminalize? && Resumable(job, decision.cause) {
      ResumedJobs(s, id, job, decision.status, decision.cause, start, now);
      var after := Conclude(s, id, job, decision, start, now).store.jobs;
      assert after[i] == after[..|s.jobs|][i];
    }
  }

  lemma ReconcileStarts(s: Store, id: JobId, view: Option<View>, newUrl: bool, start: Start, now: Instant, i: JobId)
    requires JobsInv(s.jobs) && i < |s.jobs| <= |Reconcile(s, id, view, newUrl, start, now).store.jobs|
    requires Starts(s.jobs, Reconcile(s, id, view, newUrl, start, now).store.jobs, i)
    ensures s.jobs[i].resume.value.notBefore <= now
  {
    if id < |s.jobs| && !(s.jobs[id].status == JobStatus.Queued && s.jobs[id].resume.Some?) {
      var job := Seen(s.jobs[id], view, newUrl, now);
      EndingIsFinal(job, view, now);
      ConcludeStartsNothing(s, id, job, Decide(job, view, now), start, now, i);
    }
  }

  /** Nothing in a claim looks at the back-off: any waiting attempt that carries no lease can be claimed early. */
  lemma WaitingAttemptsAreClaimable(job: Job, owner: Owner, expires: Instant, now: Instant)
    requires job.status == JobStatus.Queued && job.resume.Some? && job.resume.value.notBefore > now
        && job.leaseExpires.None?
    ensures Claim(job, owner, expires, now).Some?
  {
  }

  // ---- deferrals

  /** No stored attempt may start earlier than it might before. */
  ghost predicate NoneEarlier(before: seq<Job>, after: seq<Job>)
  {
    && |before| <= |after|
    && forall i :: 0 <= i < |before| && before[i].resume.Some? ==>
         after[i].resume.Some? && after[i].resume.value.notBefore >= before[i].resume.value.notBefore
  }

  lemma ConcludeMovesNoneEarlier(s: Store, id: JobId, job: Job, decision: Decision, start: Start, now: Instant)
    requires JobsInv(s.jobs) && id < |s.jobs|
    requires s.jobs[id].(updatedAt := job.updatedAt) == job
    requires decision.Terminalize? ==> Active(job.status) && !Active(decision.status)
    ensures NoneEarlier(s.jobs, Conclude(s, id, job, decision, start, now).store.jobs)
  {
    if decision.Terminalize? && Resumable(job, decision.cause) {
      ResumedJobs(s, id, job, decision.status, decision.cause, start, now);
      var after := Conclude(s, id, job, decision, start, now).store.jobs;
      var ended := s.jobs[id := EndStalled(job, decision.status, decision.cause, now)];
      forall i | 0 <= i < |s.jobs| ensures after[i] == ended[i] {
        assert after[i] == after[..|s.jobs|][i];
      }
    }
  }

  /** Whatever happens, and however often a dispatch is refused, a waiting attempt is only ever moved later. */
  lemma DeferralsOnlyMoveLater(s: Store, e: Event, now: Instant)
    requires JobsInv(s.jobs) && PlainlyNamed(e)
    ensures NoneEarlier(s.jobs, Step(s, e, now).jobs)
  {
    if e.ImplementationEnqueued? || e.RebaseEnqueued? || e.VerificationEnqueued? {
      EnqueueAppendsRoots(s, e, now);
    } else if e.Reconciled? {
      if e.id < |s.jobs| && !(s.jobs[e.id].status == JobStatus.Queued && s.jobs[e.id].resume.Some?) {
        var job := Seen(s.jobs[e.id], e.view, e.newUrl, now);
        EndingIsFinal(job, e.view, now);
        ConcludeMovesNoneEarlier(s, e.id, job, Decide(job, e.view, now), e.start, now);
      }
    } else if e.VerificationPrepared? || e.EvidenceRecorded? {
      VerificationWriteMovesNoneEarlier(s, e, now);
    } else if WritesOneJob(e) {
      RunnerWriteMovesNoneEarlier(s, e, now);
    } else {
      OtherEventsKeepJobs(s, e, now);
    }
  }

  lemma RunnerWriteMovesNoneEarlier(s: Store, e: Event, now: Instant)
    requires e.JobClaimed? || e.RunnerWrote? || e.SuccessOverwritten? || e.JobCancelled?
    ensures NoneEarlier(s.jobs, Step(s, e, now).jobs)
  {
  }

  lemma VerificationWriteMovesNoneEarlier(s: Store, e: Event, now: Instant)
    requires e.VerificationPrepared? || e.EvidenceRecorded?
    ensures NoneEarlier(s.jobs, Step(s, e, now).jobs)
  {
  }
}
