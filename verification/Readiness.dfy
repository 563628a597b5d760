/** The READY gate: what a task's artifacts must show about its latest commit. */
module Readiness {
  import opened Common
  import opened Jobs
  import opened Records

  type ArtifactId = nat

  datatype ArtifactKind =
    | RequirementsSnapshot | ImplementationPlan | ArchitectureReview | CodeDiff | TestReport | SecurityReport
    | ReviewReport | CiReport | MigrationManifest | ApiContract | PropertyBasedReport
    | ValidationReport | FinalChangeManifest | OtherArtifact

  /** The parts of an artifact's content that a gate reads. */
  datatype Content =
    | Unread
    | Ci(expected: Option<Commit>, success: bool, head: Option<Commit>)
    | Verification(job: JobId, commit: Option<Commit>, proven: bool)
    | Manifest(verified: Option<Commit>, evidence: Option<ArtifactId>)

  datatype Artifact = Artifact(task: TaskId, kind: ArtifactKind, available: bool, content: Content)

  datatype GatePlan = GatePlan(changesDatabase: bool, changesApi: bool, owesProperty: bool, owesHttpE2e: bool)

  datatype GateBlocker = Missing(kind: ArtifactKind) | NoExactCi | NoProvenVerification

  /** The kinds the gate demands of every task. */
  const ALWAYS: seq<ArtifactKind> :=
    [RequirementsSnapshot, ImplementationPlan, ArchitectureReview, CodeDiff, TestReport, SecurityReport, ReviewReport]

  function Demanded(plan: GatePlan, externalCi: bool): seq<ArtifactKind>
  {
    ALWAYS
      + (if externalCi then [CiReport] else [])
      + (if plan.changesDatabase then [MigrationManifest] else [])
      + (if plan.changesApi then [ApiContract] else [])
      + (if plan.owesProperty then [PropertyBasedReport] else [])
  }

  predicate OwesVerification(plan: GatePlan, externalCi: bool) { externalCi && plan.owesHttpE2e }

  predicate Counts(a: Artifact, task: TaskId) { a.task == task && a.available }

  /** Artifacts keep their position in the store, which identifies them and orders them by age. */
  ghost predicate Present(artifacts: seq<Artifact>, task: TaskId, kind: ArtifactKind)
  {
    exists i :: 0 <= i < |artifacts| && Counts(artifacts[i], task) && artifacts[i].kind == kind
  }

  predicate ExactCi(a: Artifact, commit: Commit)
  {
    a.kind == CiReport && a.content == Ci(Some(commit), true, Some(commit))
  }

  ghost predicate HasExactCi(artifacts: seq<Artifact>, task: TaskId, latest: Option<Commit>)
  {
    latest.Some? && exists i :: 0 <= i < |artifacts| && Counts(artifacts[i], task)
                      && ExactCi(artifacts[i], latest.value)
  }

  /** A report of full HTTP verification of exactly this commit. */
  predicate Verifies(a: Artifact, commit: Commit)
  {
    a.kind == ValidationReport && a.content.Verification? && a.content.commit == Some(commit)
  }

  /** A verification report of the commit for the task; `any` admits reports that are no longer available. */
  predicate Reports(a: Artifact, task: TaskId, commit: Commit, any: bool)
  {
    a.task == task && (any || a.available) && Verifies(a, commit)
  }

  /** The newest such report. */
  function LatestReport(artifacts: seq<Artifact>, task: TaskId, commit: Commit, any: bool): (r: Option<ArtifactId>)
    ensures r.Some? ==> r.value < |artifacts| && Reports(artifacts[r.value], task, commit, any)
    ensures forall k :: (if r.Some? then r.value else -1) < k < |artifacts|
              ==> !Reports(artifacts[k], task, commit, any)
  {
    if artifacts == [] then None
    else if Reports(Last(artifacts), task, commit, any) then Some(|artifacts| - 1)
    else LatestReport(artifacts[..|artifacts| - 1], task, commit, any)
  }

  predicate ProvenAt(artifacts: seq<Artifact>, task: TaskId, latest: Option<Commit>)
  {
    && latest.Some?
    && var found := LatestReport(artifacts, task, latest.value, false);
    found.Some? && artifacts[found.value].content.proven
  }

  /** What the gate asks for, independently of how it is computed. */
  ghost predicate GateMet(artifacts: seq<Artifact>, task: TaskId, latest: Option<Commit>, plan: GatePlan,
      externalCi: bool)
  {
    && (forall kind :: kind in Demanded(plan, externalCi) ==> Present(artifacts, task, kind))
    && (externalCi ==> HasExactCi(artifacts, task, latest))
    && (OwesVerification(plan, externalCi) ==> ProvenAt(artifacts, task, latest))
  }

  // ---- the gate as it is computed

  method IsPresent(artifacts: seq<Artifact>, task: TaskId, kind: ArtifactKind) returns (r: bool)
    ensures r == Present(artifacts, task, kind)
  {
    for i := 0 to |artifacts|
      invariant forall k :: 0 <= k < i ==> !(Counts(artifacts[k], task) && artifacts[k].kind == kind)
    {
      if Counts(artifacts[i], task) && artifacts[i].kind == kind { return true; }
    }
    r := false;
  }

  method FindExactCi(artifacts: seq<Artifact>, task: TaskId, latest: Option<Commit>) returns (r: bool)
    ensures r == HasExactCi(artifacts, task, latest)
  {
    if latest.None? { return false; }
    for i := 0 to |artifacts|
      invariant forall k :: 0 <= k < i ==> !(Counts(artifacts[k], task) && ExactCi(artifacts[k], latest.value))
    {
      if Counts(artifacts[i], task) && ExactCi(artifacts[i], latest.value) { return true; }
    }
    r := false;
  }

  /** Searches from the newest artifact backwards. */
  method FindLatestReport(artifacts: seq<Artifact>, task: TaskId, commit: Commit,
      any: bool) returns (found: Option<ArtifactId>)
    ensures found == LatestReport(artifacts, task, commit, any)
  {
    assert artifacts[..|artifacts|] == artifacts;
    for i := |artifacts| downto 0
      invariant LatestReport(artifacts, task, commit, any) == LatestReport(artifacts[..i], task, commit, any)
    {
      assert artifacts[..i + 1][..i] == artifacts[..i];
      if Reports(artifacts[i], task, commit, any) { return Some(i); }
    }
    found := None;
  }

  /** The blockers a preflight reports and the gate enforces: none exactly when the gate is met. */
  method GateBlockers(artifacts: seq<Artifact>, task: TaskId, latest: Option<Commit>, plan: GatePlan, externalCi: bool)
    returns (blockers: seq<GateBlocker>)
    ensures forall kind :: Missing(kind) in blockers
              <==> kind in Demanded(plan, externalCi) && !Present(artifacts, task, kind)
    ensures NoExactCi in blockers
        <==> externalCi && Present(artifacts, task, CiReport) && !HasExactCi(artifacts, task, latest)
    ensures NoProvenVerification in blockers
        <==> OwesVerification(plan, externalCi) && !ProvenAt(artifacts, task, latest)
    ensures blockers == [] <==> GateMet(artifacts, task, latest, plan, externalCi)
  {
    var demanded := Demanded(plan, externalCi);
    blockers := MissingKinds(artifacts, task, demanded);
    ghost var missing := blockers;
    var ci := IsPresent(artifacts, task, CiReport);
    var exact := FindExactCi(artifacts, task, latest);
    if externalCi && ci && !exact { blockers := blockers + [NoExactCi]; }
    if OwesVerification(plan, externalCi) {
      var proven := IsProven(artifacts, task, latest);
      if !proven { blockers := blockers + [NoProvenVerification]; }
    }
    CiIsDemanded(plan, externalCi);
    assert blockers != [] ==> blockers[0] in blockers;
    assert forall kind :: Missing(kind) in blockers <==> Missing(kind) in missing;
  }

  lemma CiIsDemanded(plan: GatePlan, externalCi: bool)
    ensures externalCi ==> CiReport in Demanded(plan, externalCi)
  {
  }

  method MissingKinds(artifacts: seq<Artifact>, task: TaskId,
      demanded: seq<ArtifactKind>) returns (missing: seq<GateBlocker>)
    ensures forall b :: b in missing <==> b.Missing? && b.kind in demanded && !Present(artifacts, task, b.kind)
  {
    missing := [];
    for i := 0 to |demanded|
      invariant forall b :: b in missing <==> b.Missing? && b.kind in demanded[..i] && !Present(artifacts, task, b.kind)
    {
      assert demanded[..i + 1] == demanded[..i] + [demanded[i]];
      var present := IsPresent(artifacts, task, demanded[i]);
      if !present { missing := missing + [Missing(demanded[i])]; }
    }
    assert demanded[..|demanded|] == demanded;
  }

  method IsProven(artifacts: seq<Artifact>, task: TaskId, latest: Option<Commit>) returns (r: bool)
    ensures r == ProvenAt(artifacts, task, latest)
  {
    if latest.None? { return false; }
    var found := FindLatestReport(artifacts, task, latest.value, false);
    r := found.Some? && artifacts[found.value].content.proven;
  }
}
