/** A run that ends with a READY task whose manifest names a withdrawn failure. */
module WithdrawnReports {
  import opened Common
  import opened Events
  import opened Gates
  import opened Jobs
  import opened Protocol
  import opened Readiness
  import opened ReadySoundness
  import opened Records

  const RUNNER: Owner := 1
  const FIRST := OperationId(1, Plain)
  const SECOND := OperationId(2, Plain)

  /** A verification of commit 7 was asked for, and its job dispatched. */
  function Asked(op: OperationId): Job
  {
    NewJob(0, HttpE2e, op, 0, 0, 0).(pinned := Some(7), status := JobStatus.Dispatched)
  }

  function Working(op: OperationId): Job
  {
    Asked(op).(status := JobStatus.Running, owner := Some(RUNNER), leaseExpires := Some(E2E_LEASE_MINUTES * MINUTE),
               startedAt := Some(0))
  }

  function Finished(op: OperationId): Job { EndVerification(Working(op), true, 0) }

  function State(jobs: seq<Job>, artifacts: seq<Artifact>): Store
  {
    var run := Run(0, OperationId(0, Plain), RunStatus.Succeeded, Some(7));
    Store(true, jobs, [run], map[0 := Task(Verifying, 0, 0, OWING)], artifacts)
  }

  function ReportOf(job: JobId, available: bool, proven: bool): seq<Artifact>
  {
    [Artifact(0, OtherArtifact, true, Unread)]
      + [Artifact(0, ValidationReport, available, Verification(job, Some(7), proven))]
  }

  const PROVED: seq<Artifact> := FormalArtifacts() + ReportOf(0, true, true)

  /** The three events of one verification, from being asked for to its evidence. */
  function Verification3(op: OperationId, job: JobId, proven: bool): Trace
  {
    [Moment(VerificationEnqueued(0, op, 0, Some(7), true, Started(None)), 0)]
      + [Moment(VerificationPrepared(job, RUNNER, None, true), 0)]
      + [Moment(EvidenceRecorded(job, RUNNER, WellFormed(proven)), 0)]
  }

  lemma VerificationSteps(s: Store, op: OperationId, proven: bool)
    requires FindByOp(s.jobs, op).None? && !InFlight(s.jobs, 0) && 0 in s.tasks
    ensures var v := Step(Step(Step(s, Verification3(op, |s.jobs|, proven)[0].event, 0),
                               Verification3(op, |s.jobs|, proven)[1].event, 0),
                                   Verification3(op, |s.jobs|, proven)[2].event, 0);
            v == s.(jobs := s.jobs + [Finished(op)], artifacts := s.artifacts + ReportOf(|s.jobs|, true, proven))
  {
    var n, t := |s.jobs|, Verification3(op, |s.jobs|, proven);
    var asked := s.(jobs := s.jobs + [Asked(op)]);
    assert Step(s, t[0].event, 0) == asked;
    var working := s.(jobs := s.jobs + [Working(op)]);
    assert Step(asked, t[1].event, 0) == working by { assert asked.jobs[n := Working(op)] == working.jobs; }
    var finished := s.(jobs := s.jobs + [Finished(op)], artifacts := s.artifacts + ReportOf(n, true, proven));
    assert Step(working, t[2].event, 0) == finished by {
      assert working.jobs[n] == Working(op) && working.jobs[n := Finished(op)] == finished.jobs;
      assert WithReport(working, n, proven).artifacts == finished.artifacts;
    }
  }

  lemma OneMore(s: Store, trace: Trace, m: Moment)
    ensures After(s, trace + [m]) == Step(After(s, trace), m.event, m.now)
  {
    assert (trace + [m])[..|trace|] == trace;
  }

  lemma ThreeMore(s: Store, trace: Trace, a: Moment, b: Moment, c: Moment)
    ensures After(s, trace + ([a] + [b] + [c])) ==
            Step(Step(Step(After(s, trace), a.event, a.now), b.event, b.now), c.event, c.now)
  {
    assert trace + ([a] + [b] + [c]) == trace + [a] + [b] + [c];
    OneMore(s, trace, a);
    OneMore(s, trace + [a], b);
    OneMore(s, trace + [a] + [b], c);
  }

  /** Commit 7 is verified, verified again without success, and the second report is withdrawn. */
  function Withdrawing(): Trace
  {
    Verification3(FIRST, 0, true) + Verification3(SECOND, 1, false) + [Moment(ArtifactWithdrawn(|ALWAYS| + 4), 0)]
  }

  function Withdrawn(): Store
  {
    State([Finished(FIRST), Finished(SECOND)], PROVED + ReportOf(1, false, false))
  }

  lemma FirstVerification()
    ensures After(State([], FormalArtifacts()), Verification3(FIRST, 0, true)) == State([Finished(FIRST)], PROVED)
  {
    var s := State([], FormalArtifacts());
    var none: Trace, t := [], Verification3(FIRST, 0, true);
    assert none + t == t;
    ThreeMore(s, none, t[0], t[1], t[2]);
    VerificationSteps(s, FIRST, true);
    assert s.jobs + [Finished(FIRST)] == [Finished(FIRST)];
  }

  lemma SecondVerification()
    ensures After(State([], FormalArtifacts()), Verification3(FIRST, 0, true) + Verification3(SECOND, 1, false)) ==
            State([Finished(FIRST), Finished(SECOND)], PROVED + ReportOf(1, true, false))
  {
    var s, t := State([Finished(FIRST)], PROVED), Verification3(SECOND, 1, false);
    FirstVerification();
    ThreeMore(State([], FormalArtifacts()), Verification3(FIRST, 0, true), t[0], t[1], t[2]);
    assert s.jobs[..0] == [];
    assert FindByOp(s.jobs, SECOND).None?;
    VerificationSteps(s, SECOND, false);
    assert s.jobs + [Finished(SECOND)] == [Finished(FIRST), Finished(SECOND)];
  }

  lemma WithdrawingLeads()
    ensures After(State([], FormalArtifacts()), Withdrawing()) == Withdrawn()
  {
    SecondVerification();
    var n := |ALWAYS|;
    OneMore(State([], FormalArtifacts()), Verification3(FIRST, 0, true) + Verification3(SECOND, 1, false),
            Moment(ArtifactWithdrawn(n + 4), 0));
    var before, after := PROVED + ReportOf(1, true, false), PROVED + ReportOf(1, false, false);
    assert before[n + 4] == Artifact(0, ValidationReport, true, Verification(1, Some(7), false));
    assert before[n + 4 := Artifact(0, ValidationReport, false, Verification(1, Some(7), false))] == after;
  }

  lemma ReportsLeft()
    ensures LatestReport(Withdrawn().artifacts, 0, 7, true) == Some(|ALWAYS| + 4)
    ensures LatestReport(Withdrawn().artifacts, 0, 7, false) == Some(|ALWAYS| + 2)
  {
    var artifacts, n := Withdrawn().artifacts, |ALWAYS|;
    assert artifacts[..n + 4] == PROVED + [Artifact(0, OtherArtifact, true, Unread)];
    assert artifacts[..n + 4][..n + 3] == PROVED;
    assert Last(artifacts) == Artifact(0, ValidationReport, false, Verification(1, Some(7), false));
    assert Last(PROVED) == Artifact(0, ValidationReport, true, Verification(0, Some(7), true));
    assert LatestReport(PROVED, 0, 7, false) == Some(n + 2);
  }

  lemma GateStaysOpen()
    ensures Met(Withdrawn(), 0)
  {
    ReportsLeft();
    VerifiedGate(PROVED);
    var artifacts := Withdrawn().artifacts;
    assert forall i :: 0 <= i < |PROVED| ==> artifacts[i] == PROVED[i];
    forall kind | kind in Demanded(OWING, true) ensures Present(artifacts, 0, kind) {
      var i :| 0 <= i < |PROVED| && Counts(PROVED[i], 0) && PROVED[i].kind == kind;
      assert Counts(artifacts[i], 0) && artifacts[i].kind == kind;
    }
    var c :| 0 <= c < |PROVED| && Counts(PROVED[c], 0) && ExactCi(PROVED[c], 7);
    assert Counts(artifacts[c], 0) && ExactCi(artifacts[c], 7);
    assert LatestCommit(Withdrawn().runs, 0) == Some(7);
    assert artifacts[|ALWAYS| + 2] == PROVED[|ALWAYS| + 2];
  }

  lemma CompletionPromotesIt()
    ensures var s, manifest := Withdrawn(),
        Artifact(0, FinalChangeManifest, true, Manifest(Some(7), Some(|ALWAYS| + 4)));
      Step(s, VerificationCompleted(0), 0) == SetState(Append(s, manifest), 0, Ready)
  {
    GateStaysOpen();
    ReportsLeft();
    assert LatestCommit(Withdrawn().runs, 0) == Some(7);
    assert Cited(Withdrawn(), 0) == Some(|ALWAYS| + 4);
  }

  /**
   * The withdrawn failure no longer counts, so the earlier proof opens the gate again and the task becomes READY; its
   * manifest names the withdrawn failure.
   */
  lemma MayCiteAWithdrawnFailure()
    ensures var s := After(State([], FormalArtifacts()), Withdrawing());
      && s == Withdrawn()
      && BecomesReady(s.tasks, Step(s, VerificationCompleted(0), 0).tasks, 0)
      && Step(s, VerificationCompleted(0), 0).artifacts ==
           s.artifacts + [Artifact(0, FinalChangeManifest, true, Manifest(Some(7), Some(|ALWAYS| + 4)))]
      && s.artifacts[|ALWAYS| + 4] == Artifact(0, ValidationReport, false, Verification(1, Some(7), false))
  {
    WithdrawingLeads();
    CompletionPromotesIt();
  }
}
