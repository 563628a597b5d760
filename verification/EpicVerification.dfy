/** Whether the members of an epic compose into a verified system at one commit. */
module EpicVerification {
  import opened Common
  import opened Records
  import opened Supersession

  datatype Dimension =
    | Contracts | Consumers | Invariants | IntegrationDependencies
    | SecurityPrivacy | Migrations | Journeys

  const DIMENSIONS: seq<Dimension> :=
    [Contracts, Consumers, Invariants, IntegrationDependencies, SecurityPrivacy, Migrations, Journeys]

  datatype Suite = Unit | Integration | Property | Contract | Migration | Security | Regression

  /**
   * `profiled` says whether the verification profile requires the property layer; plans older than profiles have none.
   */
  datatype Plan = Plan(suites: set<Suite>, changesDatabase: bool, profiled: Option<bool>)

  datatype Manifest = Manifest(available: bool, verifiedCommit: Option<Commit>)

  /** What an epic knows of a member besides its relationships; `inHead` is None when nobody asked git. */
  datatype Facts = Facts(key: nat, state: TaskState, plan: Option<Plan>, manifests: seq<Manifest>, inHead: Option<bool>)

  type EpicMember = Member<Facts>

  datatype Source = TrustedCi | Operator | Historical | Unknown

  datatype Evidence = Evidence(dimension: Dimension, artifact: nat, commit: Commit, passed: bool, source: Source,
      repository: Repository)

  datatype Request = Request(head: Commit, members: seq<EpicMember>, evidence: seq<Evidence>,
      repository: Option<Repository>)

  datatype Status = Pass | NotApplicable | Unverified

  datatype Finding = Finding(dimension: Dimension, status: Status, evidence: seq<Evidence>)

  datatype Blocker = Undecidable(conflict: Conflict) | NotInHead | Unplanned | NotReady
      | UnverifiedAtHead(dimension: Dimension)

  datatype Trust = NoTrust | Mixed | CiVerified | OperatorAsserted

  datatype Verdict = Verdict(findings: seq<Finding>, blockers: seq<Blocker>, trust: Trust)
  {
    predicate Passes() { blockers == [] }
  }

  // ---- what the epic owes

  function Effective(members: seq<EpicMember>): seq<EpicMember>
  {
    ResolveSupersession(members).effective
  }

  predicate Requires(dimension: Dimension, members: seq<EpicMember>)
  {
    match dimension
    case Contracts => exists i :: 0 <= i < |members| && Plans(members[i], Contract)
    case Migrations => exists i :: 0 <= i < |members| && (Plans(members[i], Migration) || ChangesDatabase(members[i]))
    case Invariants => exists i :: 0 <= i < |members| && RequiresProperty(members[i])
    case IntegrationDependencies => exists i :: 0 <= i < |members| && Plans(members[i], Integration)
    case SecurityPrivacy => true
    case Consumers => |members| >= 2
    case Journeys => |members| >= 2
  }

  predicate Plans(m: EpicMember, suite: Suite) { m.facts.plan.Some? && suite in m.facts.plan.value.suites }

  predicate ChangesDatabase(m: EpicMember) { m.facts.plan.Some? && m.facts.plan.value.changesDatabase }

  predicate RequiresProperty(m: EpicMember) { m.facts.plan.Some? && m.facts.plan.value.profiled == Some(true) }

  predicate Unassessed(m: EpicMember) { m.facts.plan.Some? && m.facts.plan.value.profiled.None? }

  /** A dimension that only evidence can settle: required, or an invariant nobody was ever asked about. */
  predicate Owed(dimension: Dimension, members: seq<EpicMember>)
  {
    || Requires(dimension, members)
    || (dimension == Invariants && exists i :: 0 <= i < |members| && Unassessed(members[i]))
  }

  // ---- what has been shown

  /** With a repository named, only rows that ran against it count. */
  function FromRepository(repository: Option<Repository>): Evidence -> bool
  {
    (e: Evidence) => repository.None? || e.repository == repository.value
  }

  function AtHead(head: Commit, d: Dimension, passed: bool): Evidence -> bool
  {
    (e: Evidence) => e.dimension == d && e.commit == head && e.passed == passed
  }

  function Shown(r: Request, d: Dimension, passed: bool): seq<Evidence>
  {
    Filter(Filter(r.evidence, FromRepository(r.repository)), AtHead(r.head, d, passed))
  }

  /** The row was produced at the head, in the repository asked about, for this dimension, and passed. */
  predicate Supports(r: Request, d: Dimension, e: Evidence)
  {
    e in r.evidence && FromRepository(r.repository)(e) && AtHead(r.head, d, true)(e)
  }

  function FindingFor(r: Request, members: seq<EpicMember>, d: Dimension): Finding
  {
    var passing := Shown(r, d, true);
    if d == Invariants && !Requires(d, members) && (exists i :: 0 <= i < |members| && Unassessed(members[i]))
      && passing == [] then
      Finding(d, Unverified, [])
    else if !Requires(d, members) && passing == [] then Finding(d, NotApplicable, [])
    else if passing != [] then Finding(d, Pass, passing)
    else Finding(d, Unverified, Shown(r, d, false))
  }

  function Findings(r: Request): Dimension -> seq<Finding>
  {
    (d: Dimension) => [FindingFor(r, Effective(r.members), d)]
  }

  // ---- the verdict

  function SupersededKeys(members: seq<EpicMember>): set<nat>
  {
    set i | 0 <= i < |members| && Resolve(members, members[i].id).ReplacedBy? :: members[i].facts.key
  }

  function IsActive(members: seq<EpicMember>): EpicMember -> bool
  {
    (m: EpicMember) => m.facts.key !in SupersededKeys(members)
  }

  /** The members judged: those whose external key is not that of a superseded member. */
  function Active(members: seq<EpicMember>): seq<EpicMember>
  {
    Filter(members, IsActive(members))
  }

  predicate KnownMissing(m: EpicMember) { m.facts.inHead == Some(false) }

  predicate Settled(m: EpicMember) { m.facts.state == Ready }

  function ConflictBlocker(): Conflict -> seq<Blocker>
  {
    (c: Conflict) => [Undecidable(c)]
  }

  function FindingBlocker(): Finding -> seq<Blocker>
  {
    (f: Finding) => if f.status == Unverified then [UnverifiedAtHead(f.dimension)] else []
  }

  function MemberBlockers(active: seq<EpicMember>): seq<Blocker>
  {
    (if exists i :: 0 <= i < |active| && KnownMissing(active[i]) then [NotInHead] else []) +
    (if exists i :: 0 <= i < |active| && active[i].facts.plan.None? then [Unplanned] else []) +
    (if exists i :: 0 <= i < |active| && !Settled(active[i]) then [NotReady] else [])
  }

  function PassingSources(findings: seq<Finding>): set<Source>
  {
    set i, j | 0 <= i < |findings| && findings[i].status == Pass
        && 0 <= j < |findings[i].evidence| :: findings[i].evidence[j].source
  }

  function TrustOf(sources: set<Source>): Trust
  {
    if |sources| == 0 then NoTrust
    else if |sources| > 1 then Mixed
    else if TrustedCi in sources then CiVerified
    else OperatorAsserted
  }

  function FindingsOf(r: Request): seq<Finding>
  {
    FlatMap(Findings(r), DIMENSIONS)
  }

  function BlockersOf(r: Request): seq<Blocker>
  {
    FlatMap(ConflictBlocker(), ResolveSupersession(r.members).conflicts)
      + MemberBlockers(Active(r.members))
      + FlatMap(FindingBlocker(), FindingsOf(r))
  }

  function VerdictFor(r: Request): Verdict
  {
    Verdict(FindingsOf(r), BlockersOf(r), TrustOf(PassingSources(FindingsOf(r))))
  }

  /** Blockers are collected in the order they are reported: conflicts, members, dimensions. */
  method Verify(r: Request) returns (v: Verdict)
    ensures v == VerdictFor(r)
  {
    var supersession := Supersede(r.members);
    var findings := Assess(r, supersession.effective, DIMENSIONS);
    var blockers := FlatMap(ConflictBlocker(), supersession.conflicts) + MemberBlockers(Active(r.members));
    var unverified := Unverifieds(findings);
    v := Verdict(findings, blockers + unverified, TrustOf(PassingSources(findings)));
  }

  method Assess(r: Request, effective: seq<EpicMember>, dims: seq<Dimension>) returns (findings: seq<Finding>)
    requires effective == Effective(r.members)
    ensures findings == FlatMap(Findings(r), dims)
  {
    findings := [];
    for i := 0 to |dims|
      invariant findings == FlatMap(Findings(r), dims[..i])
    {
      NextElement(Findings(r), dims, i);
      findings := findings + [FindingFor(r, effective, dims[i])];
    }
    assert dims[..|dims|] == dims;
  }

  method Unverifieds(findings: seq<Finding>) returns (blockers: seq<Blocker>)
    ensures blockers == FlatMap(FindingBlocker(), findings)
  {
    blockers := [];
    for i := 0 to |findings|
      invariant blockers == FlatMap(FindingBlocker(), findings[..i])
    {
      NextElement(FindingBlocker(), findings, i);
      if findings[i].status == Unverified { blockers := blockers + [UnverifiedAtHead(findings[i].dimension)]; }
    }
    assert findings[..|findings|] == findings;
  }

  // ---- what a verdict means

  /** Some row supports the dimension at the head. */
  ghost predicate Supported(r: Request, d: Dimension)
  {
    exists e :: Supports(r, d, e)
  }

  lemma ShownExactly(r: Request, d: Dimension)
    ensures forall e :: e in Shown(r, d, true) <==> Supports(r, d, e)
    ensures Shown(r, d, true) != [] <==> Supported(r, d)
  {
    var s := Shown(r, d, true);
    assert s != [] ==> s[0] in s;
    if Supported(r, d) {
      var e :| Supports(r, d, e);
      assert e in s;
    }
  }

  /**
   * A dimension passes exactly when a passing row exists at the head, and blocks exactly when it is owed and none does.
   */
  lemma DimensionStatus(r: Request, members: seq<EpicMember>, d: Dimension)
    ensures var f := FindingFor(r, members, d);
            && f.dimension == d
            && (f.status == Pass <==> Supported(r, d))
            && (f.status == Unverified <==> Owed(d, members) && !Supported(r, d))
            && (f.status == Pass ==> forall e :: e in f.evidence <==> Supports(r, d, e))
  {
    ShownExactly(r, d);
  }

  /** What the dimension owes is shown. */
  ghost predicate Clear(r: Request, d: Dimension)
  {
    Owed(d, Effective(r.members)) ==> Supported(r, d)
  }

  lemma FindingBlocks(r: Request, d: Dimension)
    ensures FlatMap(FindingBlocker(), Findings(r)(d)) == [] <==> Clear(r, d)
  {
    DimensionStatus(r, Effective(r.members), d);
    var f := FindingFor(r, Effective(r.members), d);
    FlatMapAppend(FindingBlocker(), [], f);
    assert [] + [f] == Findings(r)(d);
  }

  lemma {:induction false} FlatMapTwice<A, B, C>(g: B -> seq<C>, f: A -> seq<B>, s: seq<A>, x: A)
    ensures FlatMap(g, FlatMap(f, s + [x])) == FlatMap(g, FlatMap(f, s)) + FlatMap(g, f(x))
  {
    FlatMapAppend(f, s, x);
    FlatMapConcat(g, FlatMap(f, s), f(x));
  }

  lemma {:induction false} NoDimensionBlocks(r: Request, dims: seq<Dimension>)
    ensures FlatMap(FindingBlocker(), FlatMap(Findings(r), dims)) == [] <==> forall d :: d in dims ==> Clear(r, d)
  {
    if dims != [] {
      var init, d := dims[..|dims| - 1], Last(dims);
      assert dims == init + [d];
      NoDimensionBlocks(r, init);
      FindingBlocks(r, d);
      FlatMapTwice(FindingBlocker(), Findings(r), init, d);
      assert forall x :: x in dims <==> x in init || x == d;
    }
  }

  lemma EveryDimension(d: Dimension)
    ensures d in DIMENSIONS
  {
    var i := match d
      case Contracts => 0 case Consumers => 1 case Invariants => 2 case IntegrationDependencies => 3
      case SecurityPrivacy => 4 case Migrations => 5 case Journeys => 6;
    assert DIMENSIONS[i] == d;
  }

  /** The members that are judged are all settled, planned and not known to be missing from the head. */
  ghost predicate MembersSettled(active: seq<EpicMember>)
  {
    forall i :: 0 <= i < |active| ==> Settled(active[i]) && active[i].facts.plan.Some? && !KnownMissing(active[i])
  }

  lemma NoMemberBlocks(active: seq<EpicMember>)
    ensures MemberBlockers(active) == [] <==> MembersSettled(active)
  {
  }

  lemma NoConflictBlocks(conflicts: seq<Conflict>)
    ensures FlatMap(ConflictBlocker(), conflicts) == [] <==> conflicts == []
  {
    FlatMapEmpty(ConflictBlocker(), conflicts);
    if conflicts != [] { assert ConflictBlocker()(conflicts[0]) != []; }
  }

  ghost predicate AllOwedIsShown(r: Request)
  {
    forall d :: Clear(r, d)
  }

  /**
   * An epic passes exactly when its composition is decidable, its members are settled and all it owes is shown at the
   * head.
   */
  lemma PassesExactlyWhen(r: Request)
    ensures VerdictFor(r).Passes() <==>
              && ResolveSupersession(r.members).conflicts == []
              && MembersSettled(Active(r.members))
              && AllOwedIsShown(r)
  {
    NoConflictBlocks(ResolveSupersession(r.members).conflicts);
    NoMemberBlocks(Active(r.members));
    NoDimensionBlocks(r, DIMENSIONS);
    forall d: Dimension ensures d in DIMENSIONS { EveryDimension(d); }
  }

  // ---- what a verdict does not depend on

  /** Everything that the findings read of a request. */
  ghost predicate SameShown(r: Request, t: Request)
  {
    Effective(r.members) == Effective(t.members) && forall d, passed :: Shown(r, d, passed) == Shown(t, d, passed)
  }

  /** Everything that a verdict reads. */
  ghost predicate SameForVerdict(r: Request, t: Request)
  {
    && ResolveSupersession(r.members).conflicts == ResolveSupersession(t.members).conflicts
    && Active(r.members) == Active(t.members) && SameShown(r, t)
  }

  lemma VerdictDependsOn(r: Request, t: Request)
    ensures SameForVerdict(r, t) ==> VerdictFor(r) == VerdictFor(t)
  {
    if SameForVerdict(r, t) {
      forall d: Dimension ensures Findings(r)(d) == Findings(t)(d) { SameFinding(r, t, Effective(r.members), d); }
      FlatMapPointwise(Findings(r), Findings(t), DIMENSIONS, DIMENSIONS);
    }
  }

  lemma SameFinding(r: Request, t: Request, members: seq<EpicMember>, d: Dimension)
    ensures Shown(r, d, true) == Shown(t, d, true) && Shown(r, d, false) == Shown(t, d, false) ==>
              FindingFor(r, members, d) == FindingFor(t, members, d)
  {
  }

  lemma {:induction false} DropOne<A(!new)>(before: seq<A>, x: A, after: seq<A>, p: A -> bool, q: A -> bool)
    requires !p(x) || !q(x)
    ensures Filter(Filter(before + [x] + after, p), q) == Filter(Filter(before + after, p), q)
  {
    FilterConcat(before + [x], after, p);
    FilterConcat(before, [x], p);
    FilterConcat(before, after, p);
    var one := Filter([x], p);
    assert [x][1..] == [];
    assert one == if p(x) then [x] else [];
    FilterConcat(Filter(before, p) + one, Filter(after, p), q);
    FilterConcat(Filter(before, p), one, q);
    FilterConcat(Filter(before, p), Filter(after, p), q);
    assert Filter(one, q) == [];
  }

  /** Rows at another commit, or from another repository when one is named, change nothing in the verdict. */
  lemma EvidenceElsewhereIsIgnored(r: Request, before: seq<Evidence>, e: Evidence, after: seq<Evidence>)
    requires r.evidence == before + [e] + after
    requires e.commit != r.head || !FromRepository(r.repository)(e)
    ensures VerdictFor(r) == VerdictFor(r.(evidence := before + after))
  {
    ElsewhereIsNotShown(r, before, e, after);
    VerdictDependsOn(r, r.(evidence := before + after));
  }

  lemma ElsewhereIsNotShown(r: Request, before: seq<Evidence>, e: Evidence, after: seq<Evidence>)
    requires r.evidence == before + [e] + after
    requires e.commit != r.head || !FromRepository(r.repository)(e)
    ensures SameForVerdict(r, r.(evidence := before + after))
  {
    var t := r.(evidence := before + after);
    forall d: Dimension, passed: bool ensures Shown(r, d, passed) == Shown(t, d, passed) {
      DropOne(before, e, after, FromRepository(r.repository), AtHead(r.head, d, passed));
    }
  }

  /** Adding rows, wherever they go, never makes a passing epic blocked. */
  lemma MoreEvidenceNeverBlocks(r: Request, more: Request)
    requires more == r.(evidence := more.evidence)
    requires forall e :: e in r.evidence ==> e in more.evidence
    ensures VerdictFor(r).Passes() ==> VerdictFor(more).Passes()
    ensures forall d :: FindingFor(r, Effective(r.members), d).status != Unverified ==>
                        FindingFor(more, Effective(r.members), d).status != Unverified
    ensures forall d :: FindingFor(r, Effective(r.members), d).status == Pass ==>
                        FindingFor(more, Effective(r.members), d).status == Pass
  {
    forall d: Dimension ensures Supported(r, d) ==> Supported(more, d) {
      if Supported(r, d) {
        var e :| Supports(r, d, e);
        assert Supports(more, d, e);
      }
    }
    forall d: Dimension ensures Clear(r, d) ==> Clear(more, d) { }
    forall d: Dimension
      ensures FindingFor(r, Effective(r.members), d).status != Unverified
          ==> FindingFor(more, Effective(r.members), d).status != Unverified
      ensures FindingFor(r, Effective(r.members), d).status == Pass
          ==> FindingFor(more, Effective(r.members), d).status == Pass
    {
      DimensionStatus(r, Effective(r.members), d);
      DimensionStatus(more, Effective(r.members), d);
    }
    PassesExactlyWhen(r);
    PassesExactlyWhen(more);
  }

  /** `b` is `a` with the state, plan, artifacts or ancestry of superseded members changed at will. */
  ghost predicate SameUpToSuperseded(a: seq<EpicMember>, b: seq<EpicMember>)
  {
    && |a| == |b|
    && forall i :: 0 <= i < |a| ==>
         && a[i].id == b[i].id && a[i].supersedes == b[i].supersedes && a[i].facts.key == b[i].facts.key
         && (a[i] == b[i] || Resolve(a, a[i].id).ReplacedBy?)
  }

  /** Nothing recorded about a superseded member, other than what it supersedes, reaches the verdict. */
  lemma SupersededMembersAreIgnored(r: Request, members: seq<EpicMember>)
    requires SameUpToSuperseded(r.members, members)
    ensures VerdictFor(r) == VerdictFor(r.(members := members))
  {
    var a, b := r.members, members;
    forall id: TaskId ensures Resolve(a, id) == Resolve(b, id) { SameRelationsSameStanding(a, b, id); }
    FlatMapPointwise(IfEffective(a), IfEffective(b), a, b);
    ConflictsPointwise(a, b);
    assert SupersededKeys(a) == SupersededKeys(b);
    forall i | 0 <= i < |a| ensures IsActive(a)(a[i]) == IsActive(b)(b[i]) && (IsActive(a)(a[i]) ==> a[i] == b[i]) { }
    FilterPointwise(a, b, IsActive(a), IsActive(b));
    VerdictDependsOn(r, r.(members := members));
  }

  lemma ConflictsPointwise(a: seq<EpicMember>, b: seq<EpicMember>)
    requires |a| == |b| && forall i :: 0 <= i < |a| ==> a[i].id == b[i].id
    requires forall id :: Resolve(a, id) == Resolve(b, id)
    ensures FlatMap(IfUndecided(a), a) == FlatMap(IfUndecided(b), b)
  {
    forall i | 0 <= i < |a| ensures IfUndecided(a)(a[i]) == IfUndecided(b)(b[i]) { }
    FlatMapPointwise(IfUndecided(a), IfUndecided(b), a, b);
  }

  // ---- members judged, and trust

  /** No member that still composes the epic carries the external key of a superseded one. */
  ghost predicate KeysSeparate(members: seq<EpicMember>)
  {
    forall i, j :: 0 <= i < |members| && 0 <= j < |members|
      && Resolve(members, members[i].id).ReplacedBy? && !Resolve(members, members[j].id).ReplacedBy?
      ==> members[i].facts.key != members[j].facts.key
  }

  lemma JudgedWhenSeparate(members: seq<EpicMember>, m: EpicMember)
    requires m in members
    ensures KeysSeparate(members) ==> (m in Active(members) <==> m in Effective(members))
  {
    EffectiveMembers(members, m);
    var k :| 0 <= k < |members| && members[k] == m;
    assert Resolve(members, members[k].id).ReplacedBy? ==> m.facts.key in SupersededKeys(members);
  }

  /**
   * Members are dropped from judgement by external key, so the effective ones are judged exactly when keys separate
   * them.
   */
  lemma JudgedExactlyEffectiveWhen(members: seq<EpicMember>)
    ensures (forall m :: m in members ==> (m in Active(members) <==> m in Effective(members)))
        <==> KeysSeparate(members)
  {
    if KeysSeparate(members) {
      forall m | m in members
        ensures m in Active(members) <==> m in Effective(members)
      {
        JudgedWhenSeparate(members, m);
      }
    } else {
      var i, j :| 0 <= i < |members| && 0 <= j < |members| && members[i].facts.key == members[j].facts.key
        && Resolve(members, members[i].id).ReplacedBy? && !Resolve(members, members[j].id).ReplacedBy?;
      SharedKeyIsNotJudged(members, i, j);
      EffectiveMembers(members, members[j]);
    }
  }

  /**
   * A passing epic has every member that no other supersedes ready, planned, and not known to be missing from the head.
   */
  lemma PassingEpicIsSettled(r: Request, m: EpicMember)
    requires m in r.members
    ensures KeysSeparate(r.members) && VerdictFor(r).Passes() && Unchallenged(r.members, m.id) ==>
              Settled(m) && m.facts.plan.Some? && !KnownMissing(m)
  {
    PassesExactlyWhen(r);
    JudgedWhenSeparate(r.members, m);
    if VerdictFor(r).Passes() { EffectiveExactlyWhenUnchallenged(r.members, m); }
  }

  /** A member that is not superseded but carries the key of one that is: its own state is never judged. */
  lemma SharedKeyIsNotJudged(members: seq<EpicMember>, i: nat, j: nat)
    requires i < |members| && j < |members| && Resolve(members, members[i].id).ReplacedBy?
    requires members[j].facts.key == members[i].facts.key
    ensures members[j] !in Active(members)
  {
    assert members[i].facts.key in SupersededKeys(members);
  }

  lemma {:induction false} SourcesShown(r: Request, dims: seq<Dimension>, s: Source)
    ensures s in PassingSources(FlatMap(Findings(r), dims))
        <==> exists d, e :: d in dims && Supports(r, d, e) && e.source == s
  {
    if dims == [] {
    } else {
      var init, d := dims[..|dims| - 1], Last(dims);
      assert dims == init + [d];
      SourcesShown(r, init, s);
      FlatMapAppend(Findings(r), init, d);
      OneMoreFinding(FlatMap(Findings(r), init), FindingFor(r, Effective(r.members), d));
      SourceOfFinding(r, d, s);
    }
  }

  lemma OneMoreFinding(findings: seq<Finding>, f: Finding)
    ensures PassingSources(findings + [f]) == PassingSources(findings) + PassingSources([f])
  {
    var all := findings + [f];
    assert forall i :: 0 <= i < |findings| ==> all[i] == findings[i];
    assert all[|findings|] == f;
  }

  lemma SourceOfFinding(r: Request, d: Dimension, s: Source)
    ensures s in PassingSources([FindingFor(r, Effective(r.members), d)])
        <==> exists e :: Supports(r, d, e) && e.source == s
  {
    DimensionStatus(r, Effective(r.members), d);
    var f := FindingFor(r, Effective(r.members), d);
    if e :| Supports(r, d, e) && e.source == s {
      assert e in f.evidence;
      var j :| 0 <= j < |f.evidence| && f.evidence[j] == e;
      assert [f][0].evidence[j].source == s;
    }
  }

  /** Some counted row from that source passed at the head. */
  ghost predicate PassedBy(r: Request, s: Source)
  {
    exists d, e :: Supports(r, d, e) && e.source == s
  }

  /** CI_VERIFIED is never reported when a passing row came from anyone but the trusted CI, nor without one that did. */
  lemma TrustMeans(r: Request)
    ensures VerdictFor(r).trust == CiVerified <==> forall s :: PassedBy(r, s) <==> s == TrustedCi
    ensures VerdictFor(r).trust == NoTrust <==> forall s :: !PassedBy(r, s)
    ensures VerdictFor(r).trust == Mixed <==> exists s, t :: s != t && PassedBy(r, s) && PassedBy(r, t)
  {
    var sources := PassingSources(FindingsOf(r));
    forall s: Source ensures s in sources <==> PassedBy(r, s) {
      forall d: Dimension ensures d in DIMENSIONS { EveryDimension(d); }
      SourcesShown(r, DIMENSIONS, s);
    }
    TrustOfSet(sources);
  }

  lemma TrustOfSet(sources: set<Source>)
    ensures TrustOf(sources) == CiVerified <==> sources == {TrustedCi}
    ensures TrustOf(sources) == NoTrust <==> sources == {}
    ensures TrustOf(sources) == Mixed <==> exists s, t :: s != t && s in sources && t in sources
  {
    if sources != {} {
      var s :| s in sources;
      assert sources == {s} + (sources - {s});
      if t :| t in sources - {s} { assert |sources - {s}| > 0; }
    }
  }
}
