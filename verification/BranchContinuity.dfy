/** Task branches over a commit graph: what jobs record about them, and why a retry never finds them diverged. */
module BranchContinuity {
  import opened Common
  import opened Jobs
  import opened Records

  datatype Continuity = Match | FastForward(healed: Commit) | Unpublished(healed: Commit) | Diverged

  function ResolveBranchContinuity(expected: Commit, head: Commit, isAncestor: bool, exists_: bool): Continuity
  {
    if head == expected then Match
    else if !exists_ then Unpublished(head)
    else if isAncestor then FastForward(head)
    else Diverged
  }

  // ---- the commit graph

  type Parents = map<Commit, set<Commit>>

  ghost predicate IsPath(g: Parents, path: seq<Commit>)
  {
    && path != [] && (forall k :: 0 <= k < |path| ==> path[k] in g)
    && forall k :: 0 < k < |path| ==> path[k - 1] in g[path[k]]
  }

  /** `a` is `b` or can be reached from it through parents. */
  ghost predicate Ancestor(g: Parents, a: Commit, b: Commit)
  {
    exists path: seq<Commit> :: IsPath(g, path) && path[0] == a && Last(path) == b
  }

  lemma AncestorReflexive(g: Parents, a: Commit)
    requires a in g
    ensures Ancestor(g, a, a)
  {
    assert IsPath(g, [a]) && Last([a]) == a;
  }

  lemma AncestorTransitive(g: Parents, a: Commit, b: Commit, c: Commit)
    requires Ancestor(g, a, b) && Ancestor(g, b, c)
    ensures Ancestor(g, a, c)
  {
    var p: seq<Commit> :| IsPath(g, p) && p[0] == a && Last(p) == b;
    var q: seq<Commit> :| IsPath(g, q) && q[0] == b && Last(q) == c;
    var r := p + q[1..];
    forall k | 0 < k < |r| ensures r[k - 1] in g[r[k]] {
      if k < |p| { assert r[k - 1] == p[k - 1] && r[k] == p[k]; }
      else if k == |p| { assert r[k - 1] == q[0] && r[k] == q[1]; }
      else { assert r[k - 1] == q[k - |p|] && r[k] == q[k - |p| + 1]; }
    }
    assert IsPath(g, r) && Last(r) == c;
  }

  /** Commits are immutable: the graph only grows. */
  ghost predicate Grows(g: Parents, h: Parents)
  {
    forall c :: c in g ==> c in h && h[c] == g[c]
  }

  lemma AncestorStays(g: Parents, h: Parents, a: Commit, b: Commit)
    requires Grows(g, h) && Ancestor(g, a, b)
    ensures Ancestor(h, a, b)
  {
    var p: seq<Commit> :| IsPath(g, p) && p[0] == a && Last(p) == b;
    assert IsPath(h, p);
  }

  lemma AncestorsExist(g: Parents, a: Commit, b: Commit)
    requires Ancestor(g, a, b)
    ensures a in g && b in g
  {
  }

  // ---- origin, the recorded jobs, and the runners

  /** What a stored job says about its branch. */
  datatype Row = Row(branch: Option<Branch>, commit: Option<Commit>, attempted: Option<Commit>)

  /**
   * A runner between checkout and its last write: its own copy of the job, the head it started from, and the commit it
   * has for its target branch. It may record that commit once it pushed it, or once it found that the base of a
   * transfer already carries the work, in which case it pushes nothing, not even a repair of the build wrapper it
   * committed on top.
   */
  datatype Runner = Runner(
    current: Row, head: Commit, target: Option<Branch>, made: Option<Commit>, pushed: bool, integrated: bool)

  /**
   * `tasks` are the branches that only fast-forward. `bases` are the rebase branches, with the base commit that each
   * one is named for and built on. `legacy` are the identifiers that old rows recorded for commits which never reached
   * origin and exist nowhere. `unpushed` are the repairs that a transfer committed in its own workspace and never
   * pushed, so that nobody else can build on them. `heads` remembers every head that each branch of origin ever had,
   * and `runs` the branch and commit of each stored run.
   */
  datatype World = World(
    tasks: set<Branch>, bases: map<Branch, Commit>, legacy: set<Commit>, unpushed: set<Commit>, parents: Parents,
    refs: map<Branch, Commit>,
    heads: set<(Branch, Commit)>, rows: seq<Row>, runs: seq<(Branch, Commit)>, runners: map<JobId, Runner>)

  /** The commit is an object of a fresh clone: some branch of origin reaches it. */
  ghost predicate Exists(w: World, c: Commit)
  {
    exists b :: b in w.refs && Ancestor(w.parents, c, w.refs[b])
  }

  /** What a checkout of the branch decides about the recorded commit. */
  ghost function Decision(w: World, b: Branch, expected: Commit): Continuity
    requires b in w.refs
  {
    ResolveBranchContinuity(expected, w.refs[b], Ancestor(w.parents, expected, w.refs[b]), Exists(w, expected))
  }

  datatype Event =
    | CommitMade(c: Commit, parents: set<Commit>)
    | PushedByOthers(branch: Branch, c: Commit)
    | Enqueued(branch: Branch)
    | RebaseEnqueued(run: nat)
    | VerificationEnqueued
    | Resumed(id: JobId)
    | CheckedOut(id: JobId, fallback: Commit)
    | Built(id: JobId, c: Commit, target: Branch)
    | FoundIntegrated(id: JobId, target: Branch, repair: Option<Commit>)
    | Pushed(id: JobId)
    | PublicationRecorded(id: JobId)
    | RunRecorded(id: JobId)
    | Crashed(id: JobId)
    | FailureRecorded(id: JobId)

  function Inherited(rows: seq<Row>, branch: Branch): Option<Commit>
  {
    if rows == [] then None
    else if Last(rows).branch == Some(branch) && Last(rows).commit.Some? then Last(rows).commit
    else Inherited(rows[..|rows| - 1], branch)
  }

  function Append(w: World, row: Row): World { w.(rows := w.rows + [row]) }

  /** A checkout heals the stored row when the branch moved on; the runner's own copy keeps what it was given. */
  ghost function Checkout(w: World, id: JobId, fallback: Commit): World
    requires id < |w.rows|
  {
    var row := w.rows[id];
    if row.branch.Some? && row.branch.value in w.refs then
      var head := w.refs[row.branch.value];
      var runner := Runner(row, head, None, None, false, false);
      if row.commit.None? then w.(runners := w.runners[id := runner])
      else
        match Decision(w, row.branch.value, row.commit.value)
        case Diverged => w
        case Match => w.(runners := w.runners[id := runner])
        case FastForward(healed) =>
          w.(rows := w.rows[id := row.(commit := Some(healed))], runners := w.runners[id := runner])
        case Unpublished(healed) =>
          w.(rows := w.rows[id := row.(commit := Some(healed))], runners := w.runners[id := runner])
    else if fallback in w.parents then w.(runners := w.runners[id := Runner(row, fallback, None, None, false, false)])
    else w
  }

  /**
   * The commit exists only in the workspace: it is recorded as attempted, and a branch change drops what was published
   * before.
   */
  function AfterBuild(current: Row, c: Commit, target: Branch): Row
  {
    Row(Some(target), if current.branch == Some(target) then current.commit else None, Some(c))
  }

  /** An ordinary push is accepted only as a fast-forward; a rebase branch may be superseded. */
  ghost predicate PushAccepted(w: World, branch: Branch, c: Commit)
  {
    branch !in w.tasks || branch !in w.refs || Ancestor(w.parents, w.refs[branch], c)
  }

  /** What lands on a rebase branch is built on the base in its name. */
  ghost predicate OnBase(w: World, b: Branch, c: Commit)
  {
    b in w.bases ==> Ancestor(w.parents, w.bases[b], c)
  }

  /**
   * What the runner commits, and the branch it commits it for: its job's own, or another one when the task was retitled
   * in the meantime or the job is a transfer. Whether that continues what origin has there is for the push to tell.
   */
  ghost predicate MayBuild(w: World, runner: Runner, c: Commit, target: Branch)
  {
    runner.made.None? && c in w.parents && c !in w.unpushed && OnBase(w, target, c)
  }

  predicate MayIntegrate(w: World, target: Branch, repair: Option<Commit>)
  {
    && target in w.bases && w.bases[target] in w.parents
    && (repair.Some? ==> repair.value !in w.parents && repair.value !in w.legacy && repair.value !in w.bases.Values)
  }

  /** A repair is a new commit on the base, in the runner's own workspace. */
  function Repaired(w: World, base: Commit, repair: Option<Commit>): World
  {
    if repair.None? then w
    else w.(parents := w.parents[repair.value := {base}], unpushed := w.unpushed + {repair.value})
  }

  function Integrated(w: World, id: JobId, c: Commit, target: Branch): World
    requires id < |w.rows| && id in w.runners
  {
    var row := AfterBuild(w.runners[id].current, c, target);
    w.(rows := w.rows[id := row],
       runners := w.runners[id := w.runners[id].(
         current := row, target := Some(target), made := Some(c), integrated := true)])
  }

  predicate MayRecord(runner: Runner)
  {
    runner.made.Some? && (runner.pushed || runner.integrated)
  }

  function Moved(w: World, b: Branch, c: Commit): World
  {
    w.(refs := w.refs[b := c], heads := w.heads + {(b, c)})
  }

  ghost predicate MayPush(w: World, runner: Runner)
  {
    && runner.made.Some? && runner.target.Some? && !runner.integrated
    && PushAccepted(w, runner.target.value, runner.made.value)
  }

  ghost function Step(w: World, e: Event): World
  {
    match e
    case CommitMade(c, parents) =>
      if c in w.parents || c in w.legacy || !(parents <= w.parents.Keys - w.unpushed)
      then w else w.(parents := w.parents[c := parents])
    case PushedByOthers(b, c) =>
      if c in w.parents && c !in w.unpushed && PushAccepted(w, b, c) && OnBase(w, b, c) then Moved(w, b, c) else w
    case Enqueued(b) => Append(w, Row(Some(b), Inherited(w.rows, b), None))
    case RebaseEnqueued(run) =>
      // The source is what a stored run names; whether origin has that branch is not asked.
      if run < |w.runs| then Append(w, Row(Some(w.runs[run].0), Some(w.runs[run].1), None)) else w
    case VerificationEnqueued => Append(w, Row(None, None, None))
    case Resumed(id) => if id < |w.rows| then Append(w, w.rows[id].(attempted := None)) else w
    case CheckedOut(id, fallback) => if id < |w.rows| && id !in w.runners then Checkout(w, id, fallback) else w
    case Built(id, c, target) =>
      if id < |w.rows| && id in w.runners && MayBuild(w, w.runners[id], c, target) then
        var runner := w.runners[id];
        var row := AfterBuild(runner.current, c, target);
        w.(rows := w.rows[id := row],
           runners := w.runners[id := runner.(current := row, target := Some(target), made := Some(c))])
      else w
    case FoundIntegrated(id, target, repair) =>
      if id < |w.rows| && id in w.runners && w.runners[id].made.None? && MayIntegrate(w, target, repair)
      then
        var c := if repair.Some? then repair.value else w.bases[target];
        Integrated(Repaired(w, w.bases[target], repair), id, c, target)
      else w
    case Pushed(id) =>
      if id in w.runners && MayPush(w, w.runners[id]) then
        var runner := w.runners[id];
        Moved(w, runner.target.value, runner.made.value).(runners := w.runners[id := runner.(pushed := true)])
      else w
    case PublicationRecorded(id) =>
      if id < |w.rows| && id in w.runners && MayRecord(w.runners[id]) then
        var row := w.runners[id].current.(commit := w.runners[id].made);
        w.(rows := w.rows[id := row], runners := w.runners[id := w.runners[id].(current := row)])
      else w
    case RunRecorded(id) =>
      if id in w.runners && MayRecord(w.runners[id]) && w.runners[id].target.Some?
      then w.(runs := w.runs + [(w.runners[id].target.value, w.runners[id].made.value)])
      else w
    case Crashed(id) => w.(runners := w.runners - {id})
    case FailureRecorded(id) =>
      if id < |w.rows| && id in w.runners
      then w.(rows := w.rows[id := w.runners[id].current], runners := w.runners - {id}) else w
  }

  ghost function After(w: World, trace: seq<Event>): World
  {
    if trace == [] then w else Step(After(w, trace[..|trace| - 1]), Last(trace))
  }

  // ---- what every run keeps

  /** Origin carried the commit on exactly this branch at some moment. */
  ghost predicate Carried(w: World, b: Branch, c: Commit)
  {
    exists h :: (b, h) in w.heads && Ancestor(w.parents, c, h)
  }

  /** Origin still contains the commit in this branch. */
  ghost predicate Contained(w: World, b: Branch, c: Commit)
  {
    b in w.refs && Ancestor(w.parents, c, w.refs[b])
  }

  /** Origin had a branch of that name at some moment. */
  ghost predicate EverOnOrigin(w: World, b: Branch)
  {
    exists h :: (b, h) in w.heads
  }

  /** The base that a rebase branch is named for. */
  ghost predicate IsBase(w: World, b: Branch, c: Commit)
  {
    b in w.bases && w.bases[b] == c && c in w.parents
  }

  /**
   * A commit recorded for a branch is an old identifier of nothing, or one that origin carried on exactly that branch,
   * or the base of a rebase branch, or a repair on that base that was never pushed; if the branch is a task branch,
   * origin still contains the commit in it.
   */
  ghost predicate PairOk(w: World, b: Branch, c: Commit)
  {
    c !in w.legacy ==>
      && (Carried(w, b, c) || IsBase(w, b, c) || (b in w.bases && c in w.unpushed))
      && (b in w.tasks ==> Contained(w, b, c))
  }

  ghost predicate RowOk(w: World, row: Row)
  {
    row.branch.Some? && row.commit.Some? ==> PairOk(w, row.branch.value, row.commit.value)
  }

  ghost predicate RunnerOk(w: World, r: Runner)
  {
    && RowOk(w, r.current)
    && (r.made.Some? ==> r.made.value in w.parents && r.target.Some? && r.current.branch == r.target)
    && (r.made.Some? ==> OnBase(w, r.target.value, r.made.value))
    && (r.made.Some? && !r.integrated ==> r.made.value !in w.unpushed)
    && (r.integrated ==>
          r.made.Some? && r.target.value in w.bases
            && (IsBase(w, r.target.value, r.made.value) || r.made.value in w.unpushed))
    && (r.pushed ==> r.made.Some? && (r.target.value, r.made.value) in w.heads)
    && (r.pushed && r.target.value in w.tasks ==> Contained(w, r.target.value, r.made.value))
  }

  /** Nothing is built on a commit that was never pushed, and no branch of origin ever had it. */
  ghost predicate Private(w: World)
  {
    && w.unpushed <= w.parents.Keys
    && (forall c :: c in w.parents ==> w.parents[c] <= w.parents.Keys && w.parents[c] !! w.unpushed)
    && (forall b, h :: (b, h) in w.heads ==> h in w.parents && h !in w.unpushed)
    && (forall b :: b in w.bases ==> w.bases[b] !in w.unpushed)
  }

  lemma SecondIsChild(g: Parents, path: seq<Commit>)
    requires IsPath(g, path) && |path| > 1
    ensures path[1] in g && path[0] in g[path[1]]
  {
    assert path[1 - 1] in g[path[1]];
  }

  lemma NothingBehindUnpushed(w: World, c: Commit, h: Commit)
    requires Private(w) && c in w.unpushed && h !in w.unpushed
    ensures !Ancestor(w.parents, c, h)
  {
    forall path: seq<Commit> | IsPath(w.parents, path) && path[0] == c ensures Last(path) != h {
      if |path| > 1 { SecondIsChild(w.parents, path); }
    }
  }

  ghost predicate Grounded(w: World)
  {
    && Private(w)
    && (forall c :: c in w.legacy ==> c !in w.parents)
    && (forall b :: b in w.refs ==> w.refs[b] in w.parents && (b, w.refs[b]) in w.heads)
    && (forall b, h :: (b, h) in w.heads ==> OnBase(w, b, h))
    && (forall b :: b in w.bases ==> b !in w.tasks)
  }

  ghost predicate Inv(w: World)
  {
    && Grounded(w)
    && (forall i :: 0 <= i < |w.rows| ==> RowOk(w, w.rows[i]))
    && (forall i :: 0 <= i < |w.runs| ==> PairOk(w, w.runs[i].0, w.runs[i].1))
    && (forall id :: id in w.runners ==> RunnerOk(w, w.runners[id]))
  }

  /** Origin's task branches only ever gain commits. */
  ghost predicate Advances(w: World, v: World)
  {
    && v.tasks == w.tasks && v.bases == w.bases && v.legacy == w.legacy
    && w.unpushed <= v.unpushed && (forall c :: c in w.parents && c in v.unpushed ==> c in w.unpushed)
    && Grows(w.parents, v.parents) && w.heads <= v.heads
    && forall b :: b in w.tasks && b in w.refs ==> b in v.refs && Ancestor(v.parents, w.refs[b], v.refs[b])
  }

  lemma AncestorAdvances(w: World, v: World, b: Branch, c: Commit)
    requires Advances(w, v) && b in w.tasks && b in w.refs && Ancestor(w.parents, c, w.refs[b])
    ensures b in v.refs && Ancestor(v.parents, c, v.refs[b])
  {
    AncestorStays(w.parents, v.parents, c, w.refs[b]);
    AncestorTransitive(v.parents, c, w.refs[b], v.refs[b]);
  }

  lemma PairStaysOk(w: World, v: World, b: Branch, c: Commit)
    requires Advances(w, v) && PairOk(w, b, c)
    ensures PairOk(v, b, c)
  {
    if c !in w.legacy {
      if Carried(w, b, c) { CarriedStays(w, v, b, c); }
      if b in w.tasks { AncestorAdvances(w, v, b, c); }
    }
  }

  lemma RowStaysOk(w: World, v: World, row: Row)
    requires Advances(w, v) && RowOk(w, row)
    ensures RowOk(v, row)
  {
    if row.branch.Some? && row.commit.Some? { PairStaysOk(w, v, row.branch.value, row.commit.value); }
  }

  lemma CarriedStays(w: World, v: World, b: Branch, c: Commit)
    requires Grows(w.parents, v.parents) && w.heads <= v.heads && Carried(w, b, c)
    ensures Carried(v, b, c)
  {
    var h :| (b, h) in w.heads && Ancestor(w.parents, c, h);
    AncestorStays(w.parents, v.parents, c, h);
  }

  /** What a branch points at, and what lies behind it, origin carries there. */
  lemma ContainedIsCarried(w: World, b: Branch, c: Commit)
    requires b in w.refs && (b, w.refs[b]) in w.heads && Ancestor(w.parents, c, w.refs[b])
    ensures Carried(w, b, c) && Contained(w, b, c)
  {
  }

  lemma HeadIsCarried(w: World, b: Branch, c: Commit)
    requires (b, c) in w.heads && c in w.parents
    ensures Carried(w, b, c)
  {
    AncestorReflexive(w.parents, c);
  }

  lemma OnBaseStays(w: World, v: World, b: Branch, c: Commit)
    requires Grows(w.parents, v.parents) && v.bases == w.bases && OnBase(w, b, c)
    ensures OnBase(v, b, c)
  {
    if b in w.bases { AncestorStays(w.parents, v.parents, w.bases[b], c); }
  }

  lemma RunnerStaysOk(w: World, v: World, r: Runner)
    requires Advances(w, v) && RunnerOk(w, r)
    ensures RunnerOk(v, r)
  {
    RowStaysOk(w, v, r.current);
    if r.made.Some? { OnBaseStays(w, v, r.target.value, r.made.value); }
    if r.pushed && r.target.value in w.tasks { AncestorAdvances(w, v, r.target.value, r.made.value); }
  }

  lemma SameRefsAdvance(w: World, v: World)
    requires Inv(w) && v.tasks == w.tasks && v.bases == w.bases && v.legacy == w.legacy
    requires v.refs == w.refs && v.heads == w.heads && Grows(w.parents, v.parents)
    requires w.unpushed <= v.unpushed && forall c :: c in w.parents && c in v.unpushed ==> c in w.unpushed
    ensures Advances(w, v) && forall b, h :: (b, h) in v.heads ==> OnBase(v, b, h)
  {
    forall b, h | (b, h) in v.heads ensures OnBase(v, b, h) { OnBaseStays(w, v, b, h); }
    forall b | b in w.tasks && b in w.refs ensures Ancestor(v.parents, w.refs[b], v.refs[b]) {
      AncestorReflexive(v.parents, w.refs[b]);
    }
  }

  lemma PushAdvances(w: World, b: Branch, c: Commit)
    requires Inv(w) && c in w.parents && c !in w.unpushed && PushAccepted(w, b, c) && OnBase(w, b, c)
    ensures Advances(w, Moved(w, b, c)) && Grounded(Moved(w, b, c))
  {
    var v := Moved(w, b, c);
    forall k | k in w.tasks && k in w.refs ensures Ancestor(v.parents, w.refs[k], v.refs[k]) {
      if k != b { AncestorReflexive(w.parents, w.refs[k]); }
    }
  }

  lemma {:induction false} InheritedIsRecorded(w: World, rows: seq<Row>, b: Branch)
    requires forall i :: 0 <= i < |rows| ==> RowOk(w, rows[i])
    ensures RowOk(w, Row(Some(b), Inherited(rows, b), None))
  {
    if rows != [] && !(Last(rows).branch == Some(b) && Last(rows).commit.Some?) {
      InheritedIsRecorded(w, rows[..|rows| - 1], b);
    }
  }

  /** Rows and runners that a step leaves alone stay right; the ones it writes are checked where it writes them. */
  ghost predicate OthersSame(w: World, v: World, id: JobId)
  {
    && |w.rows| == |v.rows| && (forall i :: 0 <= i < |w.rows| && i != id ==> v.rows[i] == w.rows[i])
    && v.runs == w.runs
    && forall k :: k in v.runners && k != id ==> k in w.runners && v.runners[k] == w.runners[k]
  }

  lemma RunsStayOk(w: World, v: World)
    requires Inv(w) && Advances(w, v) && v.runs == w.runs
    ensures forall i :: 0 <= i < |v.runs| ==> PairOk(v, v.runs[i].0, v.runs[i].1)
  {
    forall i | 0 <= i < |v.runs| ensures PairOk(v, v.runs[i].0, v.runs[i].1) {
      PairStaysOk(w, v, w.runs[i].0, w.runs[i].1);
    }
  }

  lemma WriteKeepsInv(w: World, v: World, id: JobId)
    requires Inv(w) && Advances(w, v) && OthersSame(w, v, id)
    requires Grounded(v)
    requires id < |v.rows| ==> RowOk(v, v.rows[id])
    requires id in v.runners ==> RunnerOk(v, v.runners[id])
    ensures Inv(v)
  {
    forall i | 0 <= i < |v.rows| ensures RowOk(v, v.rows[i]) {
      if i != id { RowStaysOk(w, v, w.rows[i]); }
    }
    RunsStayOk(w, v);
    forall k | k in v.runners ensures RunnerOk(v, v.runners[k]) {
      if k != id { RunnerStaysOk(w, v, w.runners[k]); }
    }
  }

  lemma AppendKeepsInv(w: World, row: Row)
    requires Inv(w) && RowOk(w, row)
    ensures Inv(Append(w, row)) && Advances(w, Append(w, row))
  {
    var v := Append(w, row);
    SameRefsAdvance(w, v);
    forall i | 0 <= i < |v.rows| ensures RowOk(v, v.rows[i]) {
      RowStaysOk(w, v, if i < |w.rows| then w.rows[i] else row);
    }
    RunsStayOk(w, v);
    forall k | k in v.runners ensures RunnerOk(v, v.runners[k]) { RunnerStaysOk(w, v, w.runners[k]); }
  }

  /** The row that a checkout may leave behind: the stored one, or the stored one at the head that was found. */
  lemma CheckedOutRow(w: World, id: JobId, fallback: Commit)
    requires Inv(w) && id < |w.rows|
    ensures var v, row := Checkout(w, id, fallback), w.rows[id];
      && v.rows[id].branch == row.branch && OthersSame(w, v, id) && v.refs == w.refs && v.heads == w.heads
      && (v.rows[id] == row
        || (row.branch.Some? && row.branch.value in w.refs && v.rows[id].commit == Some(w.refs[row.branch.value])))
      && (id in v.runners
        ==> v.runners[id] == Runner(row, v.runners[id].head, None, None, false, false) || v.runners == w.runners)
  {
  }

  lemma CheckedOutRowOk(w: World, v: World, id: JobId)
    requires Inv(w) && Advances(w, v) && id < |w.rows| && id < |v.rows| && v.refs == w.refs && v.heads == w.heads
    requires var row := w.rows[id];
      v.rows[id].branch == row.branch &&
      (v.rows[id] == row
        || (row.branch.Some? && row.branch.value in w.refs && v.rows[id].commit == Some(w.refs[row.branch.value])))
    ensures RowOk(v, v.rows[id]) && RowOk(v, w.rows[id])
  {
    var row := w.rows[id];
    RowStaysOk(w, v, row);
    if row.branch.Some? && row.branch.value in w.refs {
      AncestorReflexive(v.parents, w.refs[row.branch.value]);
      ContainedIsCarried(v, row.branch.value, w.refs[row.branch.value]);
    }
  }

  lemma CheckoutKeeps(w: World, id: JobId, fallback: Commit)
    requires Inv(w) && id < |w.rows|
    ensures Inv(Checkout(w, id, fallback)) && Advances(w, Checkout(w, id, fallback))
  {
    var v := Checkout(w, id, fallback);
    CheckedOutRow(w, id, fallback);
    SameRefsAdvance(w, v);
    CheckedOutRowOk(w, v, id);
    if id in w.runners { RunnerStaysOk(w, v, w.runners[id]); }
    WriteKeepsInv(w, v, id);
  }

  lemma BuildKeeps(w: World, id: JobId, c: Commit, target: Branch)
    requires Inv(w)
    ensures Inv(Step(w, Built(id, c, target))) && Advances(w, Step(w, Built(id, c, target)))
  {
    var v := Step(w, Built(id, c, target));
    SameRefsAdvance(w, v);
    if id in w.runners && v != w {
      RowStaysOk(w, v, w.runners[id].current);
      WriteKeepsInv(w, v, id);
    }
  }

  /** Origin takes the commit: nothing recorded gets worse, whoever pushed it. */
  lemma MoveKeeps(w: World, b: Branch, c: Commit)
    requires Inv(w) && c in w.parents && c !in w.unpushed && PushAccepted(w, b, c) && OnBase(w, b, c)
    ensures Inv(Moved(w, b, c)) && Advances(w, Moved(w, b, c)) && Contained(Moved(w, b, c), b, c)
  {
    PushAdvances(w, b, c);
    AncestorReflexive(w.parents, c);
    RowsStayOk(w, Moved(w, b, c));
  }

  lemma PushKeeps(w: World, id: JobId)
    requires Inv(w)
    ensures Inv(Step(w, Pushed(id))) && Advances(w, Step(w, Pushed(id)))
  {
    if id in w.runners && MayPush(w, w.runners[id]) {
      var r := w.runners[id];
      MoveKeeps(w, r.target.value, r.made.value);
      MarkKeeps(Moved(w, r.target.value, r.made.value), id);
      AdvancesChains(w, Moved(w, r.target.value, r.made.value), Step(w, Pushed(id)));
    } else {
      SameRefsAdvance(w, w);
    }
  }

  lemma MarkKeeps(w: World, id: JobId)
    requires Inv(w) && id in w.runners && w.runners[id].made.Some? && w.runners[id].target.Some?
    requires (w.runners[id].target.value, w.runners[id].made.value) in w.heads
    requires w.runners[id].target.value in w.tasks
        ==> Contained(w, w.runners[id].target.value, w.runners[id].made.value)
    ensures var v := w.(runners := w.runners[id := w.runners[id].(pushed := true)]); Inv(v) && Advances(w, v)
  {
    var v := w.(runners := w.runners[id := w.runners[id].(pushed := true)]);
    SameRefsAdvance(w, v);
    RunnerStaysOk(w, v, w.runners[id]);
    if id < |w.rows| { RowStaysOk(w, v, w.rows[id]); }
    WriteKeepsInv(w, v, id);
  }

  lemma PushByOthersKeeps(w: World, b: Branch, c: Commit)
    requires Inv(w)
    ensures Inv(Step(w, PushedByOthers(b, c))) && Advances(w, Step(w, PushedByOthers(b, c)))
  {
    if c in w.parents && c !in w.unpushed && PushAccepted(w, b, c) && OnBase(w, b, c) {
      MoveKeeps(w, b, c);
    } else {
      SameRefsAdvance(w, w);
    }
  }

  lemma RowsStayOk(w: World, v: World)
    requires Inv(w) && Advances(w, v) && v.rows == w.rows && v.runs == w.runs
        && (forall k :: k in v.runners ==> k in w.runners && v.runners[k] == w.runners[k])
    requires Grounded(v)
    ensures Inv(v)
  {
    forall i | 0 <= i < |v.rows| ensures RowOk(v, v.rows[i]) { RowStaysOk(w, v, w.rows[i]); }
    RunsStayOk(w, v);
    forall k | k in v.runners ensures RunnerOk(v, v.runners[k]) { RunnerStaysOk(w, v, w.runners[k]); }
  }

  lemma RecordKeeps(w: World, id: JobId)
    requires Inv(w)
    ensures Inv(Step(w, PublicationRecorded(id))) && Advances(w, Step(w, PublicationRecorded(id)))
  {
    var v := Step(w, PublicationRecorded(id));
    SameRefsAdvance(w, v);
    if id < |w.rows| && id in w.runners && MayRecord(w.runners[id]) {
      var r := w.runners[id];
      RecordedPair(w, r);
      RunnerStaysOk(w, v, r);
      PairStaysOk(w, v, r.target.value, r.made.value);
      WriteKeepsInv(w, v, id);
    }
  }

  /** What a runner may record is carried after a push, and the base of the branch after none. */
  lemma RecordedPair(w: World, r: Runner)
    requires Inv(w) && RunnerOk(w, r) && MayRecord(r)
    ensures PairOk(w, r.target.value, r.made.value)
  {
    if r.pushed { HeadIsCarried(w, r.target.value, r.made.value); }
  }

  lemma RunRecordKeeps(w: World, id: JobId)
    requires Inv(w)
    ensures Inv(Step(w, RunRecorded(id))) && Advances(w, Step(w, RunRecorded(id)))
  {
    var v := Step(w, RunRecorded(id));
    SameRefsAdvance(w, v);
    forall i | 0 <= i < |v.rows| ensures RowOk(v, v.rows[i]) { RowStaysOk(w, v, w.rows[i]); }
    forall k | k in v.runners ensures RunnerOk(v, v.runners[k]) { RunnerStaysOk(w, v, w.runners[k]); }
    forall i | 0 <= i < |v.runs| ensures PairOk(v, v.runs[i].0, v.runs[i].1) {
      if i == |w.runs| { RecordedPair(w, w.runners[id]); }
      PairStaysOk(w, v, v.runs[i].0, v.runs[i].1);
    }
  }

  lemma RepairKeeps(w: World, target: Branch, repair: Option<Commit>)
    requires Inv(w) && MayIntegrate(w, target, repair)
    ensures Inv(Repaired(w, w.bases[target], repair)) && Advances(w, Repaired(w, w.bases[target], repair))
  {
    var v := Repaired(w, w.bases[target], repair);
    SameRefsAdvance(w, v);
    if repair.Some? { assert forall c :: c in w.parents ==> repair.value !in w.parents[c]; }
    RowsStayOk(w, v);
  }

  lemma IntegratedKeeps(w: World, id: JobId, target: Branch, repair: Option<Commit>)
    requires Inv(w)
    ensures Inv(Step(w, FoundIntegrated(id, target, repair)))
        && Advances(w, Step(w, FoundIntegrated(id, target, repair)))
  {
    if id < |w.rows| && id in w.runners && w.runners[id].made.None? && MayIntegrate(w, target, repair) {
      var u := Repaired(w, w.bases[target], repair);
      RepairKeeps(w, target, repair);
      RepairIsOnBase(w, target, repair);
      IntegrationKeeps(u, id, if repair.Some? then repair.value else w.bases[target], target);
      AdvancesChains(w, u, Step(w, FoundIntegrated(id, target, repair)));
    } else {
      SameRefsAdvance(w, w);
    }
  }

  lemma RepairIsOnBase(w: World, target: Branch, repair: Option<Commit>)
    requires Inv(w) && MayIntegrate(w, target, repair)
    ensures var u, c := Repaired(w, w.bases[target], repair), if repair.Some? then repair.value else w.bases[target];
      c in u.parents && OnBase(u, target, c) && (IsBase(u, target, c) || c in u.unpushed)
  {
    var u, c := Repaired(w, w.bases[target], repair), if repair.Some? then repair.value else w.bases[target];
    AncestorReflexive(u.parents, w.bases[target]);
    if repair.Some? { assert IsPath(u.parents, [w.bases[target], c]) && Last([w.bases[target], c]) == c; }
  }

  lemma IntegrationKeeps(w: World, id: JobId, c: Commit, target: Branch)
    requires Inv(w) && id < |w.rows| && id in w.runners && target in w.bases
    requires c in w.parents && OnBase(w, target, c) && (IsBase(w, target, c) || c in w.unpushed)
        && !w.runners[id].pushed
    ensures Inv(Integrated(w, id, c, target)) && Advances(w, Integrated(w, id, c, target))
  {
    var v := Integrated(w, id, c, target);
    SameRefsAdvance(w, v);
    RowStaysOk(w, v, w.runners[id].current);
    WriteKeepsInv(w, v, id);
  }

  lemma CommitKeeps(w: World, c: Commit, parents: set<Commit>)
    requires Inv(w)
    ensures Inv(Step(w, CommitMade(c, parents))) && Advances(w, Step(w, CommitMade(c, parents)))
  {
    var v := Step(w, CommitMade(c, parents));
    SameRefsAdvance(w, v);
    RowsStayOk(w, v);
  }

  lemma CrashKeeps(w: World, id: JobId)
    requires Inv(w)
    ensures Inv(Step(w, Crashed(id))) && Advances(w, Step(w, Crashed(id)))
  {
    var v := Step(w, Crashed(id));
    SameRefsAdvance(w, v);
    RowsStayOk(w, v);
  }

  lemma FailureKeeps(w: World, id: JobId)
    requires Inv(w)
    ensures Inv(Step(w, FailureRecorded(id))) && Advances(w, Step(w, FailureRecorded(id)))
  {
    var v := Step(w, FailureRecorded(id));
    SameRefsAdvance(w, v);
    if id < |w.rows| && id in w.runners {
      RowStaysOk(w, v, w.runners[id].current);
      WriteKeepsInv(w, v, id);
    }
  }

  lemma StepKeeps(w: World, e: Event)
    requires Inv(w)
    ensures Inv(Step(w, e)) && Advances(w, Step(w, e))
  {
    SameRefsAdvance(w, w);
    match e
    case Enqueued(b) =>
      InheritedIsRecorded(w, w.rows, b);
      AppendKeepsInv(w, Row(Some(b), Inherited(w.rows, b), None));
    case RebaseEnqueued(run) =>
      if run < |w.runs| { AppendKeepsInv(w, Row(Some(w.runs[run].0), Some(w.runs[run].1), None)); }
    case VerificationEnqueued => AppendKeepsInv(w, Row(None, None, None));
    case Resumed(id) =>
      if id < |w.rows| { AppendKeepsInv(w, w.rows[id].(attempted := None)); }
    case CheckedOut(id, fallback) =>
      if id < |w.rows| && id !in w.runners { CheckoutKeeps(w, id, fallback); }
    case Built(id, c, target) => BuildKeeps(w, id, c, target);
    case FoundIntegrated(id, target, repair) => IntegratedKeeps(w, id, target, repair);
    case RunRecorded(id) => RunRecordKeeps(w, id);
    case Pushed(id) => PushKeeps(w, id);
    case PushedByOthers(b, c) => PushByOthersKeeps(w, b, c);
    case PublicationRecorded(id) => RecordKeeps(w, id);
    case CommitMade(c, parents) => CommitKeeps(w, c, parents);
    case Crashed(id) => CrashKeeps(w, id);
    case FailureRecorded(id) => FailureKeeps(w, id);
  }

  lemma AdvancesChains(u: World, v: World, w: World)
    requires Advances(u, v) && Advances(v, w)
    ensures Advances(u, w)
  {
    forall b | b in u.tasks && b in u.refs ensures b in w.refs && Ancestor(w.parents, u.refs[b], w.refs[b]) {
      AncestorStays(v.parents, w.parents, u.refs[b], v.refs[b]);
      AncestorTransitive(w.parents, u.refs[b], v.refs[b], w.refs[b]);
    }
  }

  /** Over every run, crashes anywhere included: the invariant holds and no task branch loses a commit. */
  lemma {:induction false} RunKeeps(w: World, trace: seq<Event>)
    requires Inv(w)
    ensures Inv(After(w, trace)) && Advances(w, After(w, trace))
  {
    if trace == [] {
      SameRefsAdvance(w, w);
    } else {
      var init := trace[..|trace| - 1];
      RunKeeps(w, init);
      StepKeeps(After(w, init), Last(trace));
      AdvancesChains(w, After(w, init), After(w, trace));
    }
  }

  /**
   * A checkout of an existing task branch never finds it diverged from the recorded commit: it matches, it moved on, or
   * the commit is an old identifier of nothing. So no retry deadlocks on what an earlier job left behind.
   */
  lemma NeverDiverged(w: World, trace: seq<Event>, i: JobId)
    requires Inv(w) && i < |After(w, trace).rows|
    requires var v := After(w, trace); var row := v.rows[i];
             row.commit.Some? && row.branch.Some? && row.branch.value in v.tasks && row.branch.value in v.refs
    ensures var v := After(w, trace); var row := v.rows[i];
      && Decision(v, row.branch.value, row.commit.value) ==
           if v.refs[row.branch.value] == row.commit.value then Match
           else if row.commit.value in v.legacy then Unpublished(v.refs[row.branch.value])
           else FastForward(v.refs[row.branch.value])
  {
    RunKeeps(w, trace);
    var v := After(w, trace);
    var row := v.rows[i];
    assert RowOk(v, row);
    if row.commit.value in v.legacy {
      LegacyNeverExists(v, row.commit.value);
    } else {
      assert Exists(v, row.commit.value);
    }
  }

  lemma LegacyNeverExists(w: World, c: Commit)
    requires Inv(w) && c in w.legacy
    ensures !Exists(w, c)
  {
    if b :| b in w.refs && Ancestor(w.parents, c, w.refs[b]) { AncestorsExist(w.parents, c, w.refs[b]); }
  }

  /**
   * Adopting the head keeps everything: a commit that a job recorded for a task branch at any moment is contained in
   * the head that any later checkout of the branch starts from.
   */
  lemma AdoptingTheHeadLosesNothing(w: World, before: seq<Event>, later: seq<Event>, i: JobId)
    requires Inv(w) && i < |After(w, before).rows|
    requires var row := After(w, before).rows[i];
             row.commit.Some? && row.branch.Some? && row.branch.value in w.tasks && row.commit.value !in w.legacy
    ensures var row, v := After(w, before).rows[i], After(After(w, before), later);
            row.branch.value in v.refs && Ancestor(v.parents, row.commit.value, v.refs[row.branch.value])
  {
    RunKeeps(w, before);
    var u := After(w, before);
    RunKeeps(u, later);
    assert RowOk(u, u.rows[i]);
    AncestorAdvances(u, After(u, later), u.rows[i].branch.value, u.rows[i].commit.value);
  }

  // ---- which recorded commits origin carried

  lemma BaseIsCarriedOnceThere(w: World, b: Branch, c: Commit)
    requires Grounded(w) && IsBase(w, b, c)
    ensures Carried(w, b, c) <==> EverOnOrigin(w, b)
  {
    if h :| (b, h) in w.heads { assert OnBase(w, b, h); }
  }

  lemma UnpushedIsNowhere(w: World, b: Branch, c: Commit)
    requires Grounded(w) && c in w.unpushed
    ensures !Carried(w, b, c) && !Exists(w, c)
  {
    forall k, h | (k, h) in w.heads ensures !Ancestor(w.parents, c, h) { NothingBehindUnpushed(w, c, h); }
  }

  lemma PairIsCarriedExactlyWhen(w: World, b: Branch, c: Commit)
    requires Grounded(w) && PairOk(w, b, c) && c !in w.legacy
    ensures Carried(w, b, c) <==> c !in w.unpushed && EverOnOrigin(w, b)
  {
    if c in w.unpushed {
      UnpushedIsNowhere(w, b, c);
    } else if !Carried(w, b, c) {
      BaseIsCarriedOnceThere(w, b, c);
    }
  }

  /**
   * A recorded commit is one that origin carried on the row's own branch exactly when it is not the repair of a
   * transfer that pushed nothing, and origin ever had that branch. The other cases are transfers whose base already
   * carried the work: they record the base, or their repair of it, without pushing anything.
   */
  lemma RecordedIsCarriedExactlyWhen(w: World, trace: seq<Event>, i: JobId)
    requires Inv(w) && i < |After(w, trace).rows|
    ensures var v := After(w, trace); var row := v.rows[i];
      row.branch.Some? && row.commit.Some? && row.commit.value !in v.legacy ==>
        (Carried(v, row.branch.value, row.commit.value) <==>
           row.commit.value !in v.unpushed && EverOnOrigin(v, row.branch.value))
  {
    RunKeeps(w, trace);
    var v := After(w, trace);
    var row := v.rows[i];
    assert RowOk(v, row);
    if row.branch.Some? && row.commit.Some? && row.commit.value !in v.legacy {
      PairIsCarriedExactlyWhen(v, row.branch.value, row.commit.value);
    }
  }

  /**
   * At the moment of recording: a push makes it so, and without one only a base whose branch an earlier attempt left
   * behind.
   */
  lemma RecordingIsCarriedExactlyWhen(w: World, id: JobId)
    requires Inv(w) && id < |w.rows| && id in w.runners && MayRecord(w.runners[id])
    ensures var r := w.runners[id];
      && Step(w, PublicationRecorded(id)).rows[id] == r.current.(commit := r.made) && r.current.branch == r.target
      && (Carried(Step(w, PublicationRecorded(id)), r.target.value, r.made.value) <==>
            r.pushed || (r.made.value !in w.unpushed && EverOnOrigin(w, r.target.value)))
  {
    var r := w.runners[id];
    assert RunnerOk(w, r);
    var v := Step(w, PublicationRecorded(id));
    RecordKeeps(w, id);
    if r.pushed {
      HeadIsCarried(v, r.target.value, r.made.value);
    } else {
      RecordedPair(w, r);
      LegacyIsNoCommit(w, r.made.value);
      PairIsCarriedExactlyWhen(w, r.target.value, r.made.value);
    }
  }

  lemma LegacyIsNoCommit(w: World, c: Commit)
    requires Inv(w) && c in w.parents
    ensures c !in w.legacy
  {
  }

  /** One task branch and the default branch, both at commit 1; branch 5 would be the task's rebase onto commit 1. */
  function BeforeTransfer(): World
  {
    World({0}, map[5 := 1], {}, {}, map[1 := {}], map[0 := 1, 9 := 1], {(0, 1), (9, 1)},
          [Row(Some(0), Some(1), None)], [(0, 1)], map[])
  }

  function Transfer(repair: Option<Commit>): seq<Event>
  {
    [RebaseEnqueued(0), CheckedOut(1, 1), FoundIntegrated(1, 5, repair), PublicationRecorded(1)]
  }

  lemma TransferWorld()
    ensures Inv(BeforeTransfer())
  {
    var w := BeforeTransfer();
    AncestorReflexive(w.parents, 1);
    ContainedIsCarried(w, 0, 1);
  }

  const GIVEN := Row(Some(0), Some(1), None)
  /** The world once the transfer was claimed and checked out. */
  function TransferStarted(): World
  {
    BeforeTransfer().(rows := [GIVEN, GIVEN], runners := map[1 := Runner(GIVEN, 1, None, None, false, false)])
  }

  function TransferRecorded(repair: Option<Commit>): World
  {
    var w, c := Repaired(BeforeTransfer(), 1, repair), if repair.Some? then repair.value else 1;
    var row := Row(Some(5), Some(c), Some(c));
    w.(rows := [GIVEN, row], runners := map[1 := Runner(row, 1, Some(5), Some(c), false, true)])
  }

  lemma TransferStarts()
    ensures Step(Step(BeforeTransfer(), RebaseEnqueued(0)), CheckedOut(1, 1)) == TransferStarted()
  {
    var w := BeforeTransfer();
    var enqueued := w.(rows := [GIVEN, GIVEN]);
    assert Step(w, RebaseEnqueued(0)) == enqueued;
    assert Step(enqueued, CheckedOut(1, 1)) == TransferStarted();
  }

  /** The world once the runner has found the work in the base, and repaired the wrapper or not. */
  function TransferFound(repair: Option<Commit>): World
  {
    var w, c := Repaired(BeforeTransfer(), 1, repair), if repair.Some? then repair.value else 1;
    var row := Row(Some(5), None, Some(c));
    w.(rows := [GIVEN, row], runners := map[1 := Runner(row, 1, Some(5), Some(c), false, true)])
  }

  lemma TransferFinds(repair: Option<Commit>)
    requires repair in {None, Some(2)}
    ensures Step(TransferStarted(), FoundIntegrated(1, 5, repair)) == TransferFound(repair)
  {
  }

  lemma TransferRecords(repair: Option<Commit>)
    requires repair in {None, Some(2)}
    ensures Step(TransferFound(repair), PublicationRecorded(1)) == TransferRecorded(repair)
  {
  }

  lemma FourEvents(w: World, a: Event, b: Event, c: Event, d: Event)
    ensures After(w, [a, b, c, d]) == Step(Step(Step(Step(w, a), b), c), d)
  {
    assert [a, b, c, d][..3] == [a, b, c] && [a, b, c][..2] == [a, b] && [a, b][..1] == [a] && [a][..0] == [];
    assert After(w, [a]) == Step(After(w, []), a);
    assert After(w, [a, b]) == Step(After(w, [a]), b);
    assert After(w, [a, b, c]) == Step(After(w, [a, b]), c);
  }

  lemma TransferLeads(repair: Option<Commit>)
    requires repair in {None, Some(2)}
    ensures After(BeforeTransfer(), Transfer(repair)) == TransferRecorded(repair)
  {
    TransferStarts();
    TransferFinds(repair);
    TransferRecords(repair);
    var t := Transfer(repair);
    FourEvents(BeforeTransfer(), t[0], t[1], t[2], t[3]);
  }

  /**
   * The transfer of work that the base already carries: the job ends up naming branch 5 and commit 1, and origin never
   * had a branch 5.
   */
  lemma AlreadyIntegratedNamesAbsentBranch()
    ensures Inv(BeforeTransfer())
    ensures var v := After(BeforeTransfer(), Transfer(None));
      v == TransferRecorded(None) && v.rows[1] == Row(Some(5), Some(1), Some(1)) && 5 !in v.refs && !Carried(v, 5, 1)
  {
    TransferWorld();
    TransferLeads(None);
  }

  /**
   * With a repair of the build wrapper on top: the job records commit 2 as published, and no branch of origin has it.
   * That is the identifier of nothing which the separate record of attempted commits is there to prevent.
   */
  lemma RepairedTransferNamesNoCommit()
    ensures var v := After(BeforeTransfer(), Transfer(Some(2)));
      v == TransferRecorded(Some(2)) && v.rows[1] == Row(Some(5), Some(2), Some(2)) && !Exists(v, 2)
  {
    TransferWorld();
    TransferLeads(Some(2));
    RunKeeps(BeforeTransfer(), Transfer(Some(2)));
    UnpushedIsNowhere(TransferRecorded(Some(2)), 5, 2);
  }

  /** The run written beside it lets the next transfer start from that branch. */
  lemma AbsentBranchIsOffered()
    ensures var next := Step(Step(TransferRecorded(None), RunRecorded(1)), RebaseEnqueued(1));
      |next.rows| == 3 && next.rows[2] == Row(Some(5), Some(1), None) && 5 !in next.refs
  {
    var v := TransferRecorded(None);
    var recorded := v.(runs := [(0, 1), (5, 1)]);
    assert Step(v, RunRecorded(1)) == recorded;
    assert Step(recorded, RebaseEnqueued(1)).rows == v.rows + [Row(Some(5), Some(1), None)];
  }

  /**
   * The healed commit does not survive its own job: the runner works on the copy it was given, and its next write puts
   * back the value the checkout had replaced.
   */
  lemma HealingIsOverwritten(w: World, id: JobId, fallback: Commit, c: Commit)
    requires Inv(w) && id < |w.rows| && id !in w.runners
    requires var row := w.rows[id];
             row.branch.Some? && row.branch.value in w.refs && row.branch.value in w.tasks && row.commit.Some?
             && row.commit.value != w.refs[row.branch.value]
             && c in w.parents && c !in w.unpushed
    ensures var row := w.rows[id];
            var healed := Step(w, CheckedOut(id, fallback));
            var built := Step(healed, Built(id, c, row.branch.value));
            && healed.rows[id].commit == Some(w.refs[row.branch.value]) != row.commit
            && built.rows[id].commit == row.commit
  {
    assert After(w, []) == w;
    NeverDiverged(w, [], id);
    var healed := Step(w, CheckedOut(id, fallback));
    assert healed.runners[id] == Runner(w.rows[id], w.refs[w.rows[id].branch.value], None, None, false, false);
  }
}
