/** Getting a clean checkout for a run, whatever an interrupted one left behind. */
module WorkspaceRecovery {
  import opened Common

  type Path = nat

  /** What the recovery does to the outside, in order. */
  datatype Effect = Create(attempt: nat, path: Path) | Inspect(path: Path) | Quarantine(attempt: nat, path: Path)
      | Dispose(path: Path)

  /** How the outside answers at each attempt; None and false stand for an operation that throws. */
  datatype Answers = Answers(
    exists_: (nat, Path) -> bool, create: nat -> Option<Path>, clean: (nat, Path) -> Option<bool>,
    quarantine: nat -> bool, dispose: nat -> bool)

  datatype Recovery =
    | NoAttempts
    | Clean(workspace: Path, attempts: nat, created: bool, quarantines: nat)
    | StillUnclean(attempts: nat)
    | Threw

  predicate IsCreate(e: Effect) { e.Create? }
  predicate IsQuarantine(e: Effect) { e.Quarantine? }
  predicate IsDispose(e: Effect) { e.Dispose? }

  /** A directory is only destroyed right after its evidence was kept. */
  ghost predicate QuarantinedFirst(log: seq<Effect>)
  {
    forall i :: 0 <= i < |log| && log[i].Dispose? ==> i > 0 && log[i - 1].Quarantine? && log[i - 1].path == log[i].path
  }

  /** A quarantined directory was found unclean just before. */
  ghost predicate InspectedFirst(log: seq<Effect>)
  {
    forall i :: 0 <= i < |log| && log[i].Quarantine? ==> i > 0 && log[i - 1] == Inspect(log[i].path)
  }

  /** The effect may follow what was done so far. */
  predicate MayFollow(log: seq<Effect>, e: Effect)
  {
    && (e.Quarantine? ==> log != [] && Last(log) == Inspect(e.path))
    && (e.Dispose? ==> log != [] && Last(log).Quarantine? && Last(log).path == e.path)
  }

  /** Every effect was one that could follow those before it. */
  ghost predicate Careful(log: seq<Effect>)
  {
    log == [] || (Careful(log[..|log| - 1]) && MayFollow(log[..|log| - 1], Last(log)))
  }

  /**
   * A careful journal never destroys what it has not kept evidence of, nor keeps evidence of what it has not looked at.
   */
  lemma {:induction false} CarefulMeans(log: seq<Effect>)
    requires Careful(log)
    ensures QuarantinedFirst(log) && InspectedFirst(log)
  {
    if log != [] {
      var init := log[..|log| - 1];
      CarefulMeans(init);
      assert forall i :: 0 <= i < |init| ==> init[i] == log[i];
    }
  }

  /** The effects so far and how many of each kind they are. */
  datatype Journal = Journal(log: seq<Effect>, creates: nat, quarantines: nat, disposals: nat)

  ghost predicate Faithful(j: Journal)
  {
    && Careful(j.log) && Count(IsCreate, j.log) == j.creates
    && Count(IsQuarantine, j.log) == j.quarantines && Count(IsDispose, j.log) == j.disposals
  }

  function Entered(j: Journal, e: Effect): Journal
  {
    Journal(
      j.log + [e],
      j.creates + (if e.Create? then 1 else 0),
      j.quarantines + (if e.Quarantine? then 1 else 0),
      j.disposals + if e.Dispose? then 1 else 0)
  }

  lemma EnterKeeps(j: Journal, e: Effect)
    requires Faithful(j) && MayFollow(j.log, e)
    ensures Faithful(Entered(j, e)) && Last(Entered(j, e).log) == e
  {
    var r := j.log + [e];
    assert r[..|r| - 1] == j.log;
  }

  /** The stable workspace was left clean by the run before. */
  predicate Reusable(workspace: Option<Path>, a: Answers)
  {
    workspace.Some? && a.exists_(1, workspace.value) && a.clean(1, workspace.value) == Some(true)
  }

  /** What the recovery promises for each way it can end. */
  ghost predicate Promised(r: Recovery, j: Journal, maxAttempts: int, a: Answers)
  {
    && Faithful(j)
    && match r
       case NoAttempts => maxAttempts < 1 && j.log == []
       case Clean(path, attempts, created, quarantines) =>
         && 1 <= attempts <= maxAttempts
         && j.log != [] && Last(j.log) == Inspect(path) && a.clean(attempts, path) == Some(true)
         && quarantines == attempts - 1 == j.quarantines == j.disposals
         && (created <==> j.creates > 0) && j.creates <= maxAttempts
       case StillUnclean(attempts) =>
         attempts == maxAttempts == j.quarantines == j.disposals && j.creates <= maxAttempts
       case Threw => maxAttempts >= 1 && j.creates <= maxAttempts && j.disposals <= j.quarantines <= maxAttempts
  }

  /** Makes sure there is a checkout to look at. */
  method Obtain(attempt: nat, candidate: Option<Path>, before: Journal, a: Answers) returns (path: Option<Path>,
      j: Journal)
    requires Faithful(before)
    ensures Faithful(j)
    ensures var reused := candidate.Some? && a.exists_(attempt, candidate.value);
            && path == (if reused then candidate else a.create(attempt))
            && j == if reused || path.None? then before else Entered(before, Create(attempt, path.value))
  {
    if candidate.Some? && a.exists_(attempt, candidate.value) { return candidate, before; }
    path := a.create(attempt);
    if path.None? { return path, before; }
    EnterKeeps(before, Create(attempt, path.value));
    j := Entered(before, Create(attempt, path.value));
  }

  /** Keeps the evidence of an unclean checkout, then destroys it; either may throw. */
  method Discard(attempt: nat, path: Path, before: Journal, a: Answers) returns (threw: bool, j: Journal)
    requires Faithful(before) && before.log != [] && Last(before.log) == Inspect(path)
    ensures Faithful(j) && j.creates == before.creates
    ensures !threw ==> j.quarantines == before.quarantines + 1 && j.disposals == before.disposals + 1
    ensures threw ==> j.disposals == before.disposals && before.quarantines <= j.quarantines <= before.quarantines + 1
  {
    if !a.quarantine(attempt) { return true, before; }
    EnterKeeps(before, Quarantine(attempt, path));
    j := Entered(before, Quarantine(attempt, path));
    if !a.dispose(attempt) { return true, j; }
    EnterKeeps(j, Dispose(path));
    j := Entered(j, Dispose(path));
    threw := false;
  }

  /** One attempt: a clean checkout ends the recovery, an unclean one is discarded, and any operation may throw. */
  method Attempt(attempt: nat, candidate: Option<Path>, before: Journal, a: Answers) returns (end: Option<Recovery>,
      path: Option<Path>, j: Journal)
    requires Faithful(before) && before.quarantines == before.disposals
    ensures Faithful(j) && j.creates <= before.creates + 1
    ensures end.None? ==> j.quarantines == j.disposals == before.quarantines + 1
    ensures end.Some? && end.value.Threw?
        ==> j.disposals == before.disposals && j.disposals <= j.quarantines <= before.quarantines + 1
    ensures end.Some? ==> end.value.Threw? || end.value.Clean?
    ensures end.Some? && end.value.Clean? ==>
      && j.quarantines == j.disposals == before.quarantines && path.Some?
        && end.value == Clean(path.value, attempt, j.creates > 0, j.quarantines)
      && j.log != [] && Last(j.log) == Inspect(path.value)
      && a.clean(attempt, path.value) == Some(true)
    ensures candidate.Some? && a.exists_(attempt, candidate.value)
              && a.clean(attempt, candidate.value) == Some(true) ==>
            end.Some? && end.value.Clean? && path == candidate && j == Entered(before, Inspect(candidate.value))
  {
    path, j := Obtain(attempt, candidate, before, a);
    if path.None? { return Some(Threw), path, j; }
    EnterKeeps(j, Inspect(path.value));
    j := Entered(j, Inspect(path.value));
    var clean := a.clean(attempt, path.value);
    if clean.None? { return Some(Threw), path, j; }
    if clean.value { return Some(Clean(path.value, attempt, j.creates > 0, j.quarantines)), path, j; }
    var threw;
    threw, j := Discard(attempt, path.value, j, a);
    end := if threw then Some(Threw) else None;
  }

  /** The bounded loop. */
  method Recover(workspace: Option<Path>, maxAttempts: int, a: Answers) returns (r: Recovery, j: Journal)
    ensures Promised(r, j, maxAttempts, a)
    ensures r.NoAttempts? <==> maxAttempts < 1
    ensures maxAttempts >= 1 && Reusable(workspace, a)
        ==> r == Clean(workspace.value, 1, false, 0) && j.log == [Inspect(workspace.value)]
  {
    j := Journal([], 0, 0, 0);
    if maxAttempts < 1 { return NoAttempts, j; }
    var candidate := workspace;
    for attempt := 1 to maxAttempts + 1
      invariant Faithful(j) && j.creates <= attempt - 1 == j.quarantines == j.disposals
      invariant attempt == 1 ==> candidate == workspace && j.log == []
      invariant Reusable(workspace, a) ==> attempt == 1
    {
      var end;
      end, candidate, j := Attempt(attempt, candidate, j, a);
      if end.Some? { return end.value, j; }
    }
    r := StillUnclean(maxAttempts);
  }

  /**
   * The bounded recovery. Its contract holds for every sequence of answers: what is returned was inspected clean last,
   * creates never exceed the bound, every attempt but a successful one cost exactly one quarantine, each directory is
   * destroyed only after its evidence was kept, and a clean reusable checkout is only looked at.
   */
  method EnsureCleanWorkspace(workspace: Option<Path>, maxAttempts: int, a: Answers) returns (r: Recovery, j: Journal)
    ensures Promised(r, j, maxAttempts, a) && QuarantinedFirst(j.log) && InspectedFirst(j.log)
    ensures r.NoAttempts? <==> maxAttempts < 1
    ensures maxAttempts >= 1 && Reusable(workspace, a)
        ==> r == Clean(workspace.value, 1, false, 0) && j.log == [Inspect(workspace.value)]
  {
    r, j := Recover(workspace, maxAttempts, a);
    CarefulMeans(j.log);
  }
}
