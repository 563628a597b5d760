/** The gates a task passes on its way to READY, as steps on the store. */
module Gates {
  import opened Common
  import opened Jobs
  import opened Protocol
  import opened Readiness
  import opened Records

  /** The commit of the newest run of the task. */
  function LatestCommit(runs: seq<Run>, task: TaskId): Option<Commit>
  {
    if runs == [] then None
    else if Last(runs).task == task then Last(runs).commit
    else LatestCommit(runs[..|runs| - 1], task)
  }

  ghost predicate Met(s: Store, task: TaskId)
    requires task in s.tasks
  {
    GateMet(s.artifacts, task, LatestCommit(s.runs, task), s.tasks[task].plan, s.externalCi)
  }

  /** Full HTTP verification is the one thing the gate still asks for. */
  ghost predicate OnlyVerificationOwed(s: Store, task: TaskId)
    requires task in s.tasks
  {
    var plan := s.tasks[task].plan;
    && !Met(s, task)
    && GateMet(s.artifacts, task, LatestCommit(s.runs, task), plan.(owesHttpE2e := false), s.externalCi)
  }

  function Append(s: Store, a: Artifact): Store { s.(artifacts := s.artifacts + [a]) }

  /** The report a manifest cites: the newest of the task for the commit, whether or not it is still available. */
  function Cited(s: Store, task: TaskId): Option<ArtifactId>
    requires task in s.tasks
  {
    var latest := LatestCommit(s.runs, task);
    if OwesVerification(s.tasks[task].plan, s.externalCi) && latest.Some?
    then LatestReport(s.artifacts, task, latest.value, true) else None
  }

  function Promote(s: Store, task: TaskId): Store
    requires task in s.tasks
  {
    var manifest := Artifact(task, FinalChangeManifest, true, Manifest(LatestCommit(s.runs, task), Cited(s, task)));
    SetState(Append(s, manifest), task, Ready)
  }

  predicate HasTestReport(artifacts: seq<Artifact>, task: TaskId)
  {
    exists i :: 0 <= i < |artifacts| && artifacts[i].task == task && artifacts[i].kind == TestReport
  }

  /** `passed` is what the independent reviewer concluded. */
  ghost function Review(s: Store, task: TaskId, passed: bool): Store
  {
    if task !in s.tasks || s.tasks[task].state != Reviewing || !HasTestReport(s.artifacts, task) then s
    else
      var reviewed := Append(s, Artifact(task, ReviewReport, true, Unread));
      if !passed then SetState(reviewed, task, Implementing)
      else if OnlyVerificationOwed(reviewed, task) then SetState(reviewed, task, Verifying)
      else if Met(reviewed, task) then Promote(reviewed, task)
      else reviewed
  }

  /** The whole gate is evaluated again, not only the verification it waited for. */
  ghost function CompleteVerification(s: Store, task: TaskId): Store
  {
    if task !in s.tasks || s.tasks[task].state != Verifying || !Met(s, task) then s
    else Promote(s, task)
  }

  /**
   * A manifest cites the very report that opened the gate exactly when no report of the commit stands after that one.
   */
  lemma CitesWhatOpenedTheGate(s: Store, task: TaskId)
    requires task in s.tasks && Met(s, task) && OwesVerification(s.tasks[task].plan, s.externalCi)
    ensures LatestCommit(s.runs, task).Some?
    ensures var commit := LatestCommit(s.runs, task).value;
            var counted := LatestReport(s.artifacts, task, commit, false);
            && counted.Some?
            && (Cited(s, task) == counted <==>
                  forall k :: counted.value < k < |s.artifacts| ==> !Reports(s.artifacts[k], task, commit, true))
  {
    var commit := LatestCommit(s.runs, task).value;
    var counted := LatestReport(s.artifacts, task, commit, false).value;
    assert Reports(s.artifacts[counted], task, commit, true);
  }

  predicate Proven(a: Artifact) { a.content.Verification? && a.content.proven }

  /** Every report that was withdrawn without proving the commit is followed by one that did. */
  ghost predicate WithdrawnFailuresAnswered(artifacts: seq<Artifact>, task: TaskId, commit: Commit)
  {
    forall k :: 0 <= k < |artifacts| && Reports(artifacts[k], task, commit, true) && !artifacts[k].available
      && !Proven(artifacts[k])
      ==> exists j :: k < j < |artifacts| && Reports(artifacts[j], task, commit, true) && Proven(artifacts[j])
  }

  /**
   * The gate looks at available reports. With it open, the newest report of all is a proven one exactly when every
   * withdrawn failure is answered by a later proof.
   */
  lemma NewestIsProvenExactlyWhen(artifacts: seq<Artifact>, task: TaskId, commit: Commit)
    requires ProvenAt(artifacts, task, Some(commit))
    ensures LatestReport(artifacts, task, commit, true).Some?
    ensures Proven(artifacts[LatestReport(artifacts, task, commit, true).value]) <==>
            WithdrawnFailuresAnswered(artifacts, task, commit)
  {
    var counted := LatestReport(artifacts, task, commit, false).value;
    assert Reports(artifacts[counted], task, commit, true);
    var newest := LatestReport(artifacts, task, commit, true).value;
    assert artifacts[newest].available ==> Reports(artifacts[newest], task, commit, false) && newest == counted;
  }

  const OWING := GatePlan(false, false, false, true)
}
