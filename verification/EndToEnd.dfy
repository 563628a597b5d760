/** From a run of the environment to the verdict on an epic: what stands behind each of them. */
module EndToEnd {
  import opened Common
  import opened Events
  import opened Gates
  import opened Jobs
  import opened Protocol
  import opened Readiness
  import opened ReadySoundness
  import opened Records
  import Environment
  import Epic = EpicVerification
  import Parity
  import Supersession

  /**
   * The commit the environment job checked out, and what it ran: the system alone, or beside a reference it is compared
   * with.
   */
  datatype Attempt =
    | Alone(commit: Commit, plan: Environment.Plan, scenarios: nat, world: Environment.World)
    | Beside(
        commit: Commit, plan: Environment.Plan, scenarios: nat, world: Environment.World,
        referencePlan: Environment.Plan, referenceWorld: Environment.World)

  /** What reached the recorder of the file that the run wrote. */
  datatype Handover = Whole | Lost | TooLarge | Damaged

  function EndingOf(a: Attempt): Environment.Ending
  {
    var own := Environment.ExecutionOf(a.plan, a.scenarios, a.world).ending;
    match a
    case Alone(_, _, _, _) => own
    case Beside(_, _, _, _, plan, world) =>
      Joined(Environment.ExecutionOf(plan, a.scenarios, world).ending, own)
  }

  function Joined(reference: Environment.Ending, own: Environment.Ending): Environment.Ending
  {
    if reference.Threw? || own.Threw? then Environment.Threw
    else Environment.Returned(Environment.CompareEvidence(reference.evidence, own.evidence).evidence)
  }

  predicate Proven(ending: Environment.Ending) { ending.Returned? && ending.evidence.proven }

  /** A run that threw wrote no file. */
  function SubmissionOf(a: Attempt, h: Handover): Submission
  {
    match h
    case Whole => if EndingOf(a).Threw? then NoFile else WellFormed(EndingOf(a).evidence.proven)
    case Lost => NoFile
    case TooLarge => Oversized
    case Damaged => Malformed
  }

  /** Everything planned was attempted and passed. */
  ghost predicate WentWell(plan: Environment.Plan, scenarios: nat, w: Environment.World)
  {
    Environment.Attempted(plan, scenarios) && w.runtimeUp && Environment.AllPass(plan, w, Environment.Agenda(plan))
  }

  /** Beside a reference, everything passed there too, and both behaved the same. */
  ghost predicate Shown(a: Attempt)
  {
    && WentWell(a.plan, a.scenarios, a.world)
    && (a.Beside? ==>
          && WentWell(a.referencePlan, a.scenarios, a.referenceWorld)
          && Parity.SameBehaviour(Environment.Reports(a.referenceWorld), Environment.Reports(a.world)))
  }

  /** The reports are what the collection runner and a JSON parser give. */
  ghost predicate Readable(a: Attempt)
  {
    a.Beside? ==>
      && Environment.Comparable(Environment.Reports(a.referenceWorld))
      && Environment.Comparable(Environment.Reports(a.world))
  }

  /** A verdict names a failure exactly when it is not proven. */
  predicate Coherent(ending: Environment.Ending)
  {
    ending.Returned? ==> (ending.evidence.proven <==> ending.evidence.failure.None?)
  }

  lemma RunExactly(plan: Environment.Plan, scenarios: nat, w: Environment.World)
    ensures var ending := Environment.ExecutionOf(plan, scenarios, w).ending;
      && (Proven(ending) <==> WentWell(plan, scenarios, w)) && Coherent(ending)
      && (Proven(ending) ==> ending.evidence.reports == Environment.Reports(w))
  {
    if Environment.Returns(plan, scenarios, w) {
      Environment.VerdictIsHonest(plan, scenarios, w);
    } else {
      Environment.ThroughShape(plan, w, Environment.Agenda(plan));
    }
  }

  /** Beside a reference: proven when both runs are and their reports show the same behaviour. */
  lemma JoinedExactly(reference: Environment.Ending, own: Environment.Ending)
    requires Coherent(own)
    requires Proven(own) ==> Environment.Comparable(own.evidence.reports)
    requires Proven(reference) ==> Environment.Comparable(reference.evidence.reports)
    ensures Proven(Joined(reference, own)) <==>
              && Proven(own) && Proven(reference)
              && Parity.SameBehaviour(reference.evidence.reports, own.evidence.reports)
  {
    if Proven(own) && Proven(reference) {
      Parity.MatchExactlyWhenSameBehaviour(reference.evidence.reports, own.evidence.reports);
    }
  }

  lemma BesideExactly(a: Attempt)
    requires a.Beside? && Readable(a)
    ensures Proven(EndingOf(a)) <==> Shown(a)
  {
    RunExactly(a.plan, a.scenarios, a.world);
    RunExactly(a.referencePlan, a.scenarios, a.referenceWorld);
    JoinedExactly(Environment.ExecutionOf(a.referencePlan, a.scenarios, a.referenceWorld).ending,
                  Environment.ExecutionOf(a.plan, a.scenarios, a.world).ending);
  }

  /** A submission is well-formed and proven exactly when its file arrived whole and the run behind it went well. */
  lemma SubmittedProofExactlyWhen(a: Attempt, h: Handover)
    requires Readable(a)
    ensures SubmissionOf(a, h) == WellFormed(true) <==> h.Whole? && Shown(a)
  {
    if a.Beside? { BesideExactly(a); } else { RunExactly(a.plan, a.scenarios, a.world); }
  }

  // ---- READY

  ghost function At(s: Store, trace: Trace, k: nat): Store
    requires k <= |trace|
  {
    After(s, trace[..k])
  }

  /**
   * Every evidence that a run of the store takes in was handed over by a run of the environment, which checked out the
   * commit that the job is pinned to.
   */
  ghost predicate Supplied(s: Store, trace: Trace, attempt: nat -> Attempt, handover: nat -> Handover)
  {
    forall k :: 0 <= k < |trace| && trace[k].event.EvidenceRecorded? ==>
      && Readable(attempt(k)) && trace[k].event.submission == SubmissionOf(attempt(k), handover(k))
      && ChecksOut(At(s, trace, k), trace[k].event.id, attempt(k).commit)
  }

  predicate ChecksOut(s: Store, job: JobId, commit: Commit)
  {
    job < |s.jobs| ==> s.jobs[job].pinned == Some(commit)
  }

  lemma NextAt(s: Store, trace: Trace, k: nat)
    requires k < |trace|
    ensures At(s, trace, k + 1) == Step(At(s, trace, k), trace[k].event, trace[k].now)
  {
    assert trace[..k + 1][..k] == trace[..k];
  }

  ghost predicate ReadyAt(s: Store, trace: Trace, k: nat, t: TaskId)
    requires k <= |trace|
  {
    t in At(s, trace, k).tasks && At(s, trace, k).tasks[t].state == Ready
  }

  /** The step at which the task last became READY. */
  ghost predicate PromotedAt(s: Store, trace: Trace, k: nat, t: TaskId)
  {
    && k < |trace| && BecomesReady(At(s, trace, k).tasks, At(s, trace, k + 1).tasks, t)
    && forall j :: k < j <= |trace| ==> ReadyAt(s, trace, j, t)
  }

  /** Looking back from the end for the last moment at which the task was not READY. */
  lemma {:induction false} LastPromotion(s: Store, trace: Trace, n: nat, t: TaskId) returns (k: nat)
    requires n <= |trace| && (forall j :: 0 <= j <= |trace| ==> t in At(s, trace, j).tasks)
    requires !ReadyAt(s, trace, 0, t) && forall j :: n <= j <= |trace| ==> ReadyAt(s, trace, j, t)
    ensures PromotedAt(s, trace, k, t)
  {
    if ReadyAt(s, trace, n - 1, t) {
      k := LastPromotion(s, trace, n - 1, t);
    } else {
      k := n - 1;
      assert ReadyAt(s, trace, k + 1, t);
    }
  }

  lemma {:induction false} TasksStay(s: Store, trace: Trace, t: TaskId)
    requires t in s.tasks
    ensures t in After(s, trace).tasks
  {
    if trace != [] {
      TasksStay(s, trace[..|trace| - 1], t);
      TaskStays(After(s, trace[..|trace| - 1]), Last(trace).event, Last(trace).now, t);
    }
  }

  lemma TaskStays(s: Store, e: Event, now: Instant, t: TaskId)
    requires t in s.tasks
    ensures t in Step(s, e, now).tasks
  {
    if e.Reconciled? { ReconcileKeepsTask(s, e.id, e.view, e.newUrl, e.start, now, t); }
  }

  lemma ReconcileKeepsTask(s: Store, id: JobId, view: Option<View>, newUrl: bool, start: Start, now: Instant, t: TaskId)
    requires t in s.tasks
    ensures t in Reconcile(s, id, view, newUrl, start, now).store.tasks
  {
    if id < |s.jobs| {
      ConcludeKeepsTask(s, id, Seen(s.jobs[id], view, newUrl, now),
          Decide(Seen(s.jobs[id], view, newUrl, now), view, now), start, now, t);
    }
  }

  lemma ConcludeKeepsTask(s: Store, id: JobId, job: Job, decision: Decision, start: Start, now: Instant, t: TaskId)
    requires id < |s.jobs| && t in s.tasks
    ensures t in Conclude(s, id, job, decision, start, now).store.tasks
  {
  }

  /**
   * Earlier in the run the lease holder of a running job pinned to the commit handed over the evidence of a run that
   * went well.
   */
  ghost predicate ShownBefore(s: Store, trace: Trace, k: nat, attempt: nat -> Attempt, commit: Commit)
  {
    exists j, job :: 0 <= j < k <= |trace| && RecordsProof(At(s, trace, j), trace[j].event, job, Some(commit))
      && attempt(j).commit == commit && Shown(attempt(j))
  }

  /**
   * The manifest's commit has an exact CI report and, where owed, was shown by an earlier run in which everything
   * passed.
   */
  ghost predicate Grounds(s: Store, trace: Trace, k: nat, t: TaskId, attempt: nat -> Attempt, plan: GatePlan,
      after: Store)
  {
    && after.artifacts != [] && Last(after.artifacts).content.Manifest?
    && var commit := Last(after.artifacts).content.verified;
      && (after.externalCi ==> HasExactCi(after.artifacts[..|after.artifacts| - 1], t, commit))
      && (OwesVerification(plan, after.externalCi) ==> commit.Some? && ShownBefore(s, trace, k, attempt, commit.value))
  }

  /**
   * What a READY task stands on: at the step that made it READY there was an exact CI report of the manifest's commit
   * and, where its plan owed full verification, an environment run of that commit in which everything planned passed.
   */
  ghost predicate StandsOnRuns(s: Store, trace: Trace, k: nat, t: TaskId, attempt: nat -> Attempt)
    requires k < |trace|
  {
    t in At(s, trace, k).tasks && Grounds(s, trace, k, t, attempt, At(s, trace, k).tasks[t].plan, At(s, trace, k + 1))
  }

  ghost predicate NoReports(s: Store)
  {
    forall i :: 0 <= i < |s.artifacts| ==> !s.artifacts[i].content.Verification?
  }

  lemma ProofStep(s: Store, trace: Trace, k: nat, job: JobId, commit: Commit) returns (j: nat)
    requires k <= |trace| && ProofRecorded(s, trace[..k], job, Some(commit))
    ensures j < k && RecordsProof(At(s, trace, j), trace[j].event, job, Some(commit))
  {
    var i :| 0 <= i < |trace[..k]| && RecordsProof(After(s, trace[..k][..i]), trace[..k][i].event, job, Some(commit));
    assert trace[..k][..i] == trace[..i];
    j := i;
  }

  lemma RestingWasShown(s: Store, trace: Trace, k: nat, t: TaskId, attempt: nat -> Attempt, handover: nat -> Handover,
      gate: seq<Artifact>, commit: Commit)
    requires Supplied(s, trace, attempt, handover) && k <= |trace| && RestsOnProof(s, trace[..k], gate, t, commit)
    ensures ShownBefore(s, trace, k, attempt, commit)
  {
    var r: ArtifactId :| LatestReport(gate, t, commit, false) == Some(r) && gate[r].content.proven
      && ProofRecorded(s, trace[..k], gate[r].content.job, Some(commit));
    var j := ProofStep(s, trace, k, gate[r].content.job, commit);
    SubmittedProofExactlyWhen(attempt(j), handover(j));
  }

  lemma GroundsOfSound(s: Store, trace: Trace, k: nat, t: TaskId, attempt: nat -> Attempt, handover: nat -> Handover,
      plan: GatePlan, after: Store)
    requires Supplied(s, trace, attempt, handover) && k < |trace| && Sound(s, trace[..k], after, t, plan)
    ensures Grounds(s, trace, k, t, attempt, plan, after)
  {
    if OwesVerification(plan, after.externalCi) {
      var gate, commit := after.artifacts[..|after.artifacts| - 1], Last(after.artifacts).content.verified.value;
      RestingWasShown(s, trace, k, t, attempt, handover, gate, commit);
    }
  }

  /** Over every run: a task that is READY at the end was made READY at some step, on those grounds. */
  lemma ReadyStandsOnRuns(s: Store, trace: Trace, t: TaskId, attempt: nat -> Attempt, handover: nat -> Handover)
    requires NoReports(s) && t in s.tasks && s.tasks[t].state != Ready && Supplied(s, trace, attempt, handover)
    ensures ReadyAt(s, trace, |trace|, t)
        ==> exists k :: PromotedAt(s, trace, k, t) && StandsOnRuns(s, trace, k, t, attempt)
  {
    if ReadyAt(s, trace, |trace|, t) {
      assert trace[..0] == [];
      forall j | 0 <= j <= |trace| ensures t in At(s, trace, j).tasks { TasksStay(s, trace[..j], t); }
      var k := LastPromotion(s, trace, |trace|, t);
      PromotionStands(s, trace, k, t, attempt, handover);
    }
  }

  lemma PromotionStands(s: Store, trace: Trace, k: nat, t: TaskId, attempt: nat -> Attempt, handover: nat -> Handover)
    requires NoReports(s) && Supplied(s, trace, attempt, handover) && PromotedAt(s, trace, k, t)
    ensures StandsOnRuns(s, trace, k, t, attempt)
  {
    NextAt(s, trace, k);
    ReadyIsSound(s, trace[..k], trace[k].event, trace[k].now, t);
    GroundsOfSound(s, trace, k, t, attempt, handover, At(s, trace, k).tasks[t].plan, At(s, trace, k + 1));
  }

  // ---- the epic

  /** The request reads the members' states from the store. */
  ghost predicate ReadFrom(r: Epic.Request, s: Store)
  {
    forall i :: 0 <= i < |r.members| ==>
      r.members[i].id in s.tasks && r.members[i].facts.state == s.tasks[r.members[i].id].state
  }

  /**
   * From the environment to the epic: when an epic passes, every member that no other supersedes is READY in the store,
   * and stands on an exact CI report and, where owed, on an environment run of its commit in which everything passed.
   */
  lemma PassingEpicStandsOnRuns(s: Store, trace: Trace, r: Epic.Request, m: Epic.EpicMember, attempt: nat -> Attempt,
      handover: nat -> Handover)
    requires NoReports(s) && m.id in s.tasks && s.tasks[m.id].state != Ready && Supplied(s, trace, attempt, handover)
    requires m in r.members && ReadFrom(r, At(s, trace, |trace|))
    ensures Epic.KeysSeparate(r.members) && Epic.VerdictFor(r).Passes()
              && Supersession.Unchallenged(r.members, m.id)
            ==>
              exists k :: PromotedAt(s, trace, k, m.id) && StandsOnRuns(s, trace, k, m.id, attempt)
  {
    if Epic.KeysSeparate(r.members) && Epic.VerdictFor(r).Passes() && Supersession.Unchallenged(r.members, m.id) {
      Epic.PassingEpicIsSettled(r, m);
      ReadyStandsOnRuns(s, trace, m.id, attempt, handover);
    }
  }
}
