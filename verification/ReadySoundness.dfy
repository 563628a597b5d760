/** What stands behind a READY task, from the recorded evidence to the gate, over whole runs. */
module ReadySoundness {
  import opened Common
  import opened Events
  import opened Gates
  import opened JobInvariant
  import opened Jobs
  import opened Protocol
  import opened Readiness
  import opened Records

  // ---- reports belong to ended verification jobs, one each

  predicate ReportOk(jobs: seq<Job>, a: Artifact)
  {
    a.content.Verification? ==>
      && a.kind == ValidationReport && a.content.job < |jobs|
      && var job := jobs[a.content.job];
         && job.kind == HttpE2e && !Active(job.status) && job.task == a.task && job.pinned == a.content.commit
         && (a.content.proven ==> job.status == JobStatus.Succeeded)
  }

  ghost predicate ReportsInv(s: Store)
  {
    && (forall a :: 0 <= a < |s.artifacts| ==> ReportOk(s.jobs, s.artifacts[a]))
    && forall a, b :: 0 <= a < b < |s.artifacts|
         && s.artifacts[a].content.Verification? && s.artifacts[b].content.Verification?
         ==> s.artifacts[a].content.job != s.artifacts[b].content.job
  }

  /** Stored artifacts only ever lose their availability. */
  predicate SameArtifact(a: Artifact, b: Artifact)
  {
    a.(available := b.available) == b
  }

  ghost predicate OldArtifactsStay(before: seq<Artifact>, after: seq<Artifact>)
  {
    |before| <= |after| && forall i :: 0 <= i < |before| ==> SameArtifact(before[i], after[i])
  }

  /** No report among the artifacts that are new. */
  ghost predicate NoNewReport(before: seq<Artifact>, after: seq<Artifact>)
  {
    forall i :: |before| <= i < |after| ==> !after[i].content.Verification?
  }

  lemma OldReportsStayOk(s: Store, after: Store)
    requires ReportsInv(s) && Settled(s.jobs, after.jobs) && OldArtifactsStay(s.artifacts, after.artifacts)
    ensures forall a :: 0 <= a < |s.artifacts| ==> ReportOk(after.jobs, after.artifacts[a])
  {
    forall a | 0 <= a < |s.artifacts| ensures ReportOk(after.jobs, after.artifacts[a]) {
      assert ReportOk(s.jobs, s.artifacts[a]) && SameArtifact(s.artifacts[a], after.artifacts[a]);
    }
  }

  lemma NoReportKeeps(s: Store, after: Store)
    requires ReportsInv(s) && Settled(s.jobs, after.jobs)
    requires OldArtifactsStay(s.artifacts, after.artifacts) && NoNewReport(s.artifacts, after.artifacts)
    ensures ReportsInv(after)
  {
    OldReportsStayOk(s, after);
    assert forall a :: 0 <= a < |s.artifacts| ==> SameArtifact(s.artifacts[a], after.artifacts[a]);
  }

  /** A live verification job ends together with the one report written for it. */
  lemma NewReportKeeps(s: Store, id: JobId, ended: Job, proven: bool)
    requires ReportsInv(s) && id < |s.jobs| && Active(s.jobs[id].status) && s.jobs[id].kind == HttpE2e
    requires ended.kind == HttpE2e && !Active(ended.status) && ended.task == s.jobs[id].task
        && ended.pinned == s.jobs[id].pinned
    requires proven ==> ended.status == JobStatus.Succeeded
    ensures ReportsInv(PutJob(WithReport(s, id, proven), id, ended))
  {
    var after := PutJob(WithReport(s, id, proven), id, ended);
    var n := |s.artifacts|;
    assert after.artifacts[..n] == s.artifacts;
    assert after.artifacts[n].content == Unread
        && after.artifacts[n + 1].content == Verification(id, s.jobs[id].pinned, proven);
    forall a | 0 <= a < n ensures after.artifacts[a] == s.artifacts[a] && ReportOk(after.jobs, after.artifacts[a])
      && (after.artifacts[a].content.Verification? ==> after.artifacts[a].content.job != id)
    {
      assert ReportOk(s.jobs, s.artifacts[a]);
    }
  }

  /** Which events write a report, and about what. */
  ghost predicate WritesReport(s: Store, e: Event, now: Instant)
  {
    || (e.EvidenceRecorded? && MayRecord(s, e.id, e.owner))
    || (e.VerificationPrepared? && !e.ready && e.id < |s.jobs| && s.jobs[e.id].kind == HttpE2e
        && Claim(s.jobs[e.id], e.owner, now + E2E_LEASE_MINUTES * MINUTE, now).Some?)
  }

  lemma OtherEventsWriteNoReport(s: Store, e: Event, now: Instant)
    requires !WritesReport(s, e, now)
    ensures OldArtifactsStay(s.artifacts, Step(s, e, now).artifacts)
        && NoNewReport(s.artifacts, Step(s, e, now).artifacts)
  {
    if e.Reconciled? {
      ReconcileKeepsArtifacts(s, e.id, e.view, e.newUrl, e.start, now);
    } else if e.ImplementationEnqueued? || e.RebaseEnqueued? || e.VerificationEnqueued? {
      EnqueueKeepsArtifacts(s, e, now);
    }
  }

  lemma EnqueueKeepsArtifacts(s: Store, e: Event, now: Instant)
    requires e.ImplementationEnqueued? || e.RebaseEnqueued? || e.VerificationEnqueued?
    ensures Step(s, e, now).artifacts == s.artifacts
  {
  }

  lemma ReconcileKeepsArtifacts(s: Store, id: JobId, view: Option<View>, newUrl: bool, start: Start, now: Instant)
    ensures Reconcile(s, id, view, newUrl, start, now).store.artifacts == s.artifacts
  {
    if id < |s.jobs| && !(s.jobs[id].status == JobStatus.Queued && s.jobs[id].resume.Some?) {
      var job := Seen(s.jobs[id], view, newUrl, now);
      ConcludeKeepsArtifacts(s, id, job, Decide(job, view, now), start, now);
    }
  }

  lemma ConcludeKeepsArtifacts(s: Store, id: JobId, job: Job, decision: Decision, start: Start, now: Instant)
    requires id < |s.jobs|
    ensures Conclude(s, id, job, decision, start, now).store.artifacts == s.artifacts
  {
  }

  lemma StepKeepsReports(s: Store, e: Event, now: Instant)
    requires JobsInv(s.jobs) && PlainlyNamed(e) && ReportsInv(s)
    ensures ReportsInv(Step(s, e, now))
  {
    if !WritesReport(s, e, now) {
      StepKeepsJobs(s, e, now);
      OtherEventsWriteNoReport(s, e, now);
      NoReportKeeps(s, Step(s, e, now));
    } else if e.EvidenceRecorded? {
      var accepted := e.submission.WellFormed?;
      NewReportKeeps(s, e.id, EndVerification(s.jobs[e.id], accepted, now), accepted && e.submission.proven);
    } else {
      var claimed := Claim(s.jobs[e.id], e.owner, now + E2E_LEASE_MINUTES * MINUTE, now).value;
      NewReportKeeps(s, e.id, EndVerification(Began(claimed, e.workflowRun), false, now), false);
    }
  }

  /** Each job yields at most one report, it is about the commit the job was pinned to, and the job had ended by it. */
  lemma {:induction false} RunKeepsReports(s: Store, trace: Trace)
    requires JobsInv(s.jobs) && ReportsInv(s) && Plainly(trace)
    ensures JobsInv(After(s, trace).jobs) && ReportsInv(After(s, trace))
  {
    if trace != [] {
      var init := trace[..|trace| - 1];
      assert forall i :: 0 <= i < |init| ==> init[i] == trace[i];
      RunKeepsReports(s, init);
      StepKeepsJobs(After(s, init), Last(trace).event, Last(trace).now);
      StepKeepsReports(After(s, init), Last(trace).event, Last(trace).now);
    }
  }

  // ---- where a proven report comes from

  /** The event records well-formed, proven evidence of the commit, from the holder of the running job's lease. */
  ghost predicate RecordsProof(s: Store, e: Event, job: JobId, commit: Option<Commit>)
  {
    && e.EvidenceRecorded? && e.id == job && e.submission == WellFormed(true) && job < |s.jobs|
    && s.jobs[job].kind == HttpE2e && s.jobs[job].status == JobStatus.Running
    && s.jobs[job].owner == Some(e.owner) && s.jobs[job].pinned == commit
  }

  ghost predicate ProofRecorded(s: Store, trace: Trace, job: JobId, commit: Option<Commit>)
  {
    exists k :: 0 <= k < |trace| && RecordsProof(After(s, trace[..k]), trace[k].event, job, commit)
  }

  lemma ProvenReportsAreNewOrOld(s: Store, e: Event, now: Instant, a: ArtifactId)
    requires a < |Step(s, e, now).artifacts|
    requires var c := Step(s, e, now).artifacts[a].content; c.Verification? && c.proven
    ensures var c := Step(s, e, now).artifacts[a].content;
            (a < |s.artifacts| && s.artifacts[a].content == c) || RecordsProof(s, e, c.job, c.commit)
  {
    if !WritesReport(s, e, now) {
      OtherEventsWriteNoReport(s, e, now);
      if a < |s.artifacts| { assert SameArtifact(s.artifacts[a], Step(s, e, now).artifacts[a]); }
    } else {
      var n := |s.artifacts|;
      var after := Step(s, e, now).artifacts;
      assert after[..n] == s.artifacts;
      if a < n { assert after[a] == after[..n][a]; }
    }
  }

  /**
   * Every proven report in the store of a run was recorded, in that run, by the lease holder of a job pinned to its
   * commit.
   */
  lemma {:induction false} ProvenReportsWereRecorded(s: Store, trace: Trace, a: ArtifactId)
    requires forall i :: 0 <= i < |s.artifacts| ==> !s.artifacts[i].content.Verification?
    requires a < |After(s, trace).artifacts|
    requires var c := After(s, trace).artifacts[a].content; c.Verification? && c.proven
    ensures var c := After(s, trace).artifacts[a].content; ProofRecorded(s, trace, c.job, c.commit)
  {
    var c := After(s, trace).artifacts[a].content;
    if trace != [] {
      var n := |trace| - 1;
      var init := trace[..n];
      ProvenReportsAreNewOrOld(After(s, init), trace[n].event, trace[n].now, a);
      if a < |After(s, init).artifacts| && After(s, init).artifacts[a].content == c {
        ProvenReportsWereRecorded(s, init, a);
        var k :| 0 <= k < |init| && RecordsProof(After(s, init[..k]), init[k].event, c.job, c.commit);
        assert init[..k] == trace[..k] && init[k] == trace[k];
      }
    }
  }

  // ---- READY

  /**
   * The task's newest artifact is the manifest of the commit, and the artifacts before it met the gate for that commit.
   */
  ghost predicate PromotedOn(after: Store, t: TaskId, plan: GatePlan, commit: Option<Commit>)
  {
    && after.artifacts != []
    && Last(after.artifacts).task == t && Last(after.artifacts).content.Manifest?
    && Last(after.artifacts).content.verified == commit
    && var gate := after.artifacts[..|after.artifacts| - 1];
      && GateMet(gate, t, commit, plan, after.externalCi)
      && (OwesVerification(plan, after.externalCi) && commit.Some? ==>
            Last(after.artifacts).content.evidence == LatestReport(gate, t, commit.value, true))
  }

  predicate BecomesReady(before: map<TaskId, Task>, after: map<TaskId, Task>, t: TaskId)
  {
    t in before && t in after && before[t].state != Ready && after[t].state == Ready
  }

  /** READY is entered only through the gates, with a manifest of the very commit the gate was met for. */
  lemma ReadyOnlyThroughTheGate(s: Store, e: Event, now: Instant, t: TaskId)
    ensures BecomesReady(s.tasks, Step(s, e, now).tasks, t) ==>
      && (e.TaskReviewed? || e.VerificationCompleted?) && e.task == t
      && PromotedOn(Step(s, e, now), t, s.tasks[t].plan, LatestCommit(s.runs, t))
  {
    if e.TaskReviewed? {
      ReviewPromotes(s, e.task, e.passed, t);
    } else if e.VerificationCompleted? {
      CompletionPromotes(s, e.task, t);
    } else {
      OtherEventsNeverReady(s, e, now, t);
    }
  }

  lemma PromotionShape(s: Store, t: TaskId)
    requires t in s.tasks && Met(s, t)
    ensures PromotedOn(Promote(s, t), t, s.tasks[t].plan, LatestCommit(s.runs, t))
  {
    var after := Promote(s, t);
    assert after.artifacts[..|after.artifacts| - 1] == s.artifacts;
  }

  lemma ReviewPromotes(s: Store, task: TaskId, passed: bool, t: TaskId)
    ensures BecomesReady(s.tasks, Review(s, task, passed).tasks, t) ==>
      task == t && PromotedOn(Review(s, task, passed), t, s.tasks[t].plan, LatestCommit(s.runs, t))
  {
    var reviewed := Append(s, Artifact(task, ReviewReport, true, Unread));
    if t == task && t in s.tasks && Met(reviewed, t) { PromotionShape(reviewed, t); }
  }

  lemma CompletionPromotes(s: Store, task: TaskId, t: TaskId)
    ensures BecomesReady(s.tasks, CompleteVerification(s, task).tasks, t) ==>
      task == t && PromotedOn(CompleteVerification(s, task), t, s.tasks[t].plan, LatestCommit(s.runs, t))
  {
    if t == task && t in s.tasks && Met(s, t) { PromotionShape(s, t); }
  }

  lemma OtherEventsNeverReady(s: Store, e: Event, now: Instant, t: TaskId)
    requires !e.TaskReviewed? && !e.VerificationCompleted?
    ensures !BecomesReady(s.tasks, Step(s, e, now).tasks, t)
  {
    if e.Reconciled? { ReconcileNeverReadies(s, e.id, e.view, e.newUrl, e.start, now, t); }
  }

  lemma ReconcileNeverReadies(s: Store, id: JobId, view: Option<View>, newUrl: bool, start: Start, now: Instant,
      t: TaskId)
    ensures var after := Reconcile(s, id, view, newUrl, start, now).store;
            !BecomesReady(s.tasks, after.tasks, t)
  {
    if id < |s.jobs| && !(s.jobs[id].status == JobStatus.Queued && s.jobs[id].resume.Some?) {
      var job := Seen(s.jobs[id], view, newUrl, now);
      ConcludeNeverReadies(s, id, job, Decide(job, view, now), start, now, t);
    }
  }

  lemma ConcludeNeverReadies(s: Store, id: JobId, job: Job, decision: Decision, start: Start, now: Instant, t: TaskId)
    requires id < |s.jobs|
    ensures var after := Conclude(s, id, job, decision, start, now).store;
            !BecomesReady(s.tasks, after.tasks, t)
  {
  }

  /** What a READY task that owes full verification rests on. */
  ghost predicate RestsOnProof(s: Store, trace: Trace, artifacts: seq<Artifact>, t: TaskId, commit: Commit)
  {
    exists r: ArtifactId ::
      && LatestReport(artifacts, t, commit, false) == Some(r) && artifacts[r].content.proven
      && ProofRecorded(s, trace, artifacts[r].content.job, Some(commit))
  }

  /** The evidence behind the newest manifest: exact CI for its commit and, where owed, a recorded proof of it. */
  ghost predicate Sound(s: Store, trace: Trace, after: Store, t: TaskId, plan: GatePlan)
  {
    && after.artifacts != [] && Last(after.artifacts).content.Manifest?
    && var commit, gate := Last(after.artifacts).content.verified, after.artifacts[..|after.artifacts| - 1];
      && (after.externalCi ==> HasExactCi(gate, t, commit))
      && (OwesVerification(plan, after.externalCi) ==> commit.Some? && RestsOnProof(s, trace, gate, t, commit.value))
  }

  ghost predicate ProofsRecorded(s: Store, trace: Trace, artifacts: seq<Artifact>)
  {
    forall a :: 0 <= a < |artifacts| && artifacts[a].content.Verification? && artifacts[a].content.proven ==>
      ProofRecorded(s, trace, artifacts[a].content.job, artifacts[a].content.commit)
  }

  lemma PromotionIsSound(s: Store, trace: Trace, after: Store, t: TaskId, plan: GatePlan, commit: Option<Commit>)
    requires PromotedOn(after, t, plan, commit) && ProofsRecorded(s, trace, after.artifacts)
    ensures Sound(s, trace, after, t, plan)
  {
    var gate := after.artifacts[..|after.artifacts| - 1];
    if OwesVerification(plan, after.externalCi) {
      var r := LatestReport(gate, t, commit.value, false).value;
      assert after.artifacts[r] == gate[r];
    }
  }

  lemma ProofsBehind(s: Store, trace: Trace, e: Event, now: Instant)
    requires forall i :: 0 <= i < |s.artifacts| ==> !s.artifacts[i].content.Verification?
    requires !e.EvidenceRecorded?
    ensures ProofsRecorded(s, trace, Step(After(s, trace), e, now).artifacts)
  {
    var b := After(s, trace);
    var artifacts := Step(b, e, now).artifacts;
    forall a | 0 <= a < |artifacts| && artifacts[a].content.Verification? && artifacts[a].content.proven
      ensures ProofRecorded(s, trace, artifacts[a].content.job, artifacts[a].content.commit)
    {
      ProvenReportsAreNewOrOld(b, e, now, a);
      ProvenReportsWereRecorded(s, trace, a);
    }
  }

  /**
   * End to end: whatever happened before, a task that becomes READY under external CI has an exact successful CI report
   * for the commit its manifest names, and, when its plan owes full verification, the newest available report of that
   * commit is proven and was recorded earlier in the run by the lease holder of a running job pinned to that commit.
   */
  lemma ReadyIsSound(s: Store, trace: Trace, e: Event, now: Instant, t: TaskId)
    requires forall i :: 0 <= i < |s.artifacts| ==> !s.artifacts[i].content.Verification?
    ensures BecomesReady(After(s, trace).tasks, Step(After(s, trace), e, now).tasks, t) ==>
              Sound(s, trace, Step(After(s, trace), e, now), t, After(s, trace).tasks[t].plan)
  {
    var b := After(s, trace);
    ReadyOnlyThroughTheGate(b, e, now, t);
    if BecomesReady(b.tasks, Step(b, e, now).tasks, t) {
      ProofsBehind(s, trace, e, now);
      PromotionIsSound(s, trace, Step(b, e, now), t, b.tasks[t].plan, LatestCommit(b.runs, t));
    }
  }

  /**
   * The gate counts available reports only. A task that becomes READY names in its manifest the newest report of all,
   * and that one is proven exactly when every withdrawn failure of the commit is followed by a proof.
   */
  lemma NewestReportIsProvenExactlyWhen(s: Store, e: Event, now: Instant, t: TaskId)
    requires BecomesReady(s.tasks, Step(s, e, now).tasks, t)
    requires OwesVerification(s.tasks[t].plan, Step(s, e, now).externalCi)
    ensures var after := Step(s, e, now);
      && after.artifacts != [] && Last(after.artifacts).content.Manifest?
      && var m, gate := Last(after.artifacts).content, after.artifacts[..|after.artifacts| - 1];
        && m.verified.Some? && m.evidence.Some? && m.evidence.value < |gate|
        && (Proven(gate[m.evidence.value]) <==> WithdrawnFailuresAnswered(gate, t, m.verified.value))
  {
    ReadyOnlyThroughTheGate(s, e, now, t);
    var after := Step(s, e, now);
    var commit := LatestCommit(s.runs, t);
    NewestIsProvenExactlyWhen(after.artifacts[..|after.artifacts| - 1], t, commit.value);
  }

  // ---- the gate can open

  /** Every formal artifact and an exact CI report for commit 7. */
  function FormalArtifacts(): seq<Artifact>
  {
    seq(|ALWAYS|, i requires 0 <= i < |ALWAYS| => Artifact(0, ALWAYS[i], true, Unread))
      + [Artifact(0, CiReport, true, Ci(Some(7), true, Some(7)))]
  }

  /** A task waiting for full verification of commit 7, and the running job pinned to it. */
  function Waiting(): Store
  {
    var job := NewJob(0, HttpE2e, OperationId(1, Plain), 0, 0, 0).(pinned := Some(7), status := JobStatus.Running,
        owner := Some(1));
    var run := Run(0, OperationId(0, Plain), RunStatus.Succeeded, Some(7));
    Store(true, [job], [run], map[0 := Task(Verifying, 0, 0, OWING)], FormalArtifacts())
  }

  const RECORDED := Moment(EvidenceRecorded(0, 1, WellFormed(true)), 5)

  lemma VerifiedGate(artifacts: seq<Artifact>)
    requires artifacts == FormalArtifacts() + [Artifact(0, OtherArtifact, true, Unread)]
                            + [Artifact(0, ValidationReport, true, Verification(0, Some(7), true))]
    ensures GateMet(artifacts, 0, Some(7), OWING, true)
  {
    var n := |ALWAYS|;
    assert artifacts[n] == Artifact(0, CiReport, true, Ci(Some(7), true, Some(7)));
    assert Counts(artifacts[n], 0) && ExactCi(artifacts[n], 7);
    assert Last(artifacts) == Artifact(0, ValidationReport, true, Verification(0, Some(7), true));
    assert LatestReport(artifacts, 0, 7, false) == Some(n + 2);
    forall kind | kind in Demanded(OWING, true) ensures Present(artifacts, 0, kind) {
      assert Demanded(OWING, true) == ALWAYS + [CiReport];
      var i :| 0 <= i < n + 1 && (ALWAYS + [CiReport])[i] == kind;
      assert Counts(artifacts[i], 0) && artifacts[i].kind == kind;
    }
  }

  lemma OneMoment(s: Store, m: Moment)
    ensures After(s, [m]) == Step(s, m.event, m.now)
  {
    assert [m][..0] == [] && After(s, [m][..0]) == s;
  }

  /**
   * The soundness of READY is about something: evidence recorded by the lease holder opens the gate for a waiting task.
   */
  lemma ReadyIsReachable()
    ensures var after := After(Waiting(), [RECORDED]);
      && (forall i :: 0 <= i < |Waiting().artifacts| ==> !Waiting().artifacts[i].content.Verification?)
      && 0 in after.tasks && OwesVerification(after.tasks[0].plan, after.externalCi)
      && BecomesReady(after.tasks, Step(after, VerificationCompleted(0), 6).tasks, 0)
  {
    OneMoment(Waiting(), RECORDED);
    var after := RecordHttpE2e(Waiting(), 0, 1, WellFormed(true), 5);
    assert MayRecord(Waiting(), 0, 1);
    assert Step(Waiting(), RECORDED.event, RECORDED.now) == after;
    VerifiedGate(after.artifacts);
    assert LatestCommit(after.runs, 0) == Some(7);
    assert Met(after, 0);
  }
}
