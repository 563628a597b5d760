/** Which repository a project is developed in: promotions and rollbacks by clients that read first and write later. */
module CanonicalRepository {
  import opened Common
  import opened Records

  type BindingId = nat
  type ResourceId = nat
  type Branch = nat
  type Operation = nat
  type Client = nat

  datatype BindingStatus = Candidate | Active | Superseded | RolledBack

  datatype Binding = Binding(
    id: BindingId, resource: ResourceId, branch: Branch, since: Commit,
    status: BindingStatus, version: nat, op: Operation,
    supersedes: Option<BindingId>, supersededBy: Option<BindingId>)

  /** The bindings of one project, in order of creation. */
  type History = seq<Binding>

  datatype Lock = Lock(id: BindingId, version: nat)

  datatype Refusal =
    | BlockedBy(codes: seq<PlanBlocker>) | StalePlan | NothingActive | StaleTarget | NothingToRestore
    | TargetMissing | TargetInactive | TargetUnreachable | LockLost | AlreadyActive | OperationUsed | VersionTaken

  // ---- the store primitive

  function FindActive(h: History): (r: Option<nat>)
    ensures r.Some? ==> r.value < |h| && h[r.value].status == Active
    ensures r.None? ==> forall i :: 0 <= i < |h| ==> h[i].status != Active
  {
    if h == [] then None
    else
      var first := FindActive(h[..|h| - 1]);
      if first.Some? then first else if Last(h).status == Active then Some(|h| - 1) else None
  }

  function FindId(h: History, id: BindingId): (r: Option<nat>)
    ensures r.Some? ==> r.value < |h| && h[r.value].id == id
    ensures r.None? ==> forall i :: 0 <= i < |h| ==> h[i].id != id
  {
    if h == [] then None
    else
      var first := FindId(h[..|h| - 1], id);
      if first.Some? then first else if Last(h).id == id then Some(|h| - 1) else None
  }

  predicate UsesOperation(h: History, op: Operation) { exists i :: 0 <= i < |h| && h[i].op == op }

  predicate UsesVersion(h: History, version: nat) { exists i :: 0 <= i < |h| && h[i].version == version }

  /** Replaces the ACTIVE binding by `record`, if it is still the one the writer saw. */
  function Replace(h: History, record: Binding, expected: Option<Lock>, displacedAs: BindingStatus): Outcome<History,
      Refusal>
  {
    var active := FindActive(h);
    if expected.Some? && active.None? then Refused(LockLost)
    else if expected.Some? && Lock(h[active.value].id, h[active.value].version) != expected.value then Refused(LockLost)
    else if expected.None? && active.Some? then Refused(AlreadyActive)
    else if UsesOperation(h, record.op) then Refused(OperationUsed)
    else if UsesVersion(h, record.version) then Refused(VersionTaken)
    else
      var displaced := if active.None? then h
        else h[active.value := h[active.value].(status := displacedAs, supersededBy := Some(record.id))];
      Done(displaced + [record])
  }

  // ---- the plan

  datatype Facts = Facts(
    projectActive: bool, production: bool,
    resource: ResourceId, resourceActive: bool, github: bool, readable: bool, writable: bool,
    described: Option<Description>, head: Option<Commit>, headReachable: Option<bool>, unfinishedExport: bool)

  datatype Description = Description(sameIdentity: bool, branch: Option<Branch>, pull: bool, push: bool, empty: bool)

  datatype PlanBlocker =
    | ProjectNotActive | Production | ResourceInactive | ResourceTypeInvalid | PermissionsInsufficient
    | Unreachable | IdentityMismatch | DefaultBranchMissing | ProviderPermissions | Empty
    | HeadUnresolved | HeadUnreachable | ConflictingPromotion | TransferInProgress | AlreadyCanonical

  /** The one resource of the current canonical binding. */
  function CurrentLock(h: History): Option<Lock>
  {
    var active := FindActive(h);
    if active.None? then None else Some(Lock(h[active.value].id, h[active.value].version))
  }

  function CurrentVersion(h: History): nat
  {
    if CurrentLock(h).Some? then CurrentLock(h).value.version else 0
  }

  function If(c: bool, b: PlanBlocker): seq<PlanBlocker> { if c then [b] else [] }

  function DescriptionBlockers(d: Option<Description>): seq<PlanBlocker>
  {
    match d
    case None => [Unreachable]
    case Some(v) => If(!v.sameIdentity, IdentityMismatch) + If(v.branch.None?, DefaultBranchMissing)
                      + If(!v.pull || !v.push, ProviderPermissions) + If(v.empty, Empty)
  }

  function ProjectBlockers(f: Facts): seq<PlanBlocker>
  {
    If(!f.projectActive, ProjectNotActive) + If(f.production, Production)
  }

  function ResourceBlockers(f: Facts): seq<PlanBlocker>
  {
    If(!f.resourceActive, ResourceInactive) + If(!f.github, ResourceTypeInvalid)
      + If(!f.readable || !f.writable, PermissionsInsufficient)
  }

  function HeadBlockers(f: Facts): seq<PlanBlocker>
  {
    if f.head.None? then [HeadUnresolved] else If(f.headReachable == Some(false), HeadUnreachable)
  }

  function HistoryBlockers(h: History, f: Facts): seq<PlanBlocker>
  {
    If(exists i :: 0 <= i < |h| && h[i].status == Candidate, ConflictingPromotion)
      + If(f.unfinishedExport, TransferInProgress)
      + If(FindActive(h).Some? && h[FindActive(h).value].resource == f.resource, AlreadyCanonical)
  }

  function PlanBlockers(h: History, f: Facts): seq<PlanBlocker>
  {
    ProjectBlockers(f) + ResourceBlockers(f) + DescriptionBlockers(f.described) + HeadBlockers(f)
      + HistoryBlockers(h, f)
  }

  /**
   * A plan is ready exactly when the project, the candidate, its description, its head and the history all allow it.
   */
  lemma ReadyPlanExactlyWhen(h: History, f: Facts)
    ensures PlanBlockers(h, f) == [] <==>
      && f.projectActive && !f.production && f.resourceActive && f.github && f.readable && f.writable
      && f.described.Some? && f.described.value.sameIdentity && f.described.value.branch.Some?
      && f.described.value.pull && f.described.value.push && !f.described.value.empty
      && f.head.Some? && f.headReachable != Some(false) && !f.unfinishedExport
      && (forall i :: 0 <= i < |h| ==> h[i].status != Candidate)
      && (FindActive(h).Some? ==> h[FindActive(h).value].resource != f.resource)
  {
    var codes := PlanBlockers(h, f);
    assert codes == [] <==>
             && ProjectBlockers(f) == [] && ResourceBlockers(f) == [] && DescriptionBlockers(f.described) == []
             && HeadBlockers(f) == [] && HistoryBlockers(h, f) == [];
  }

  lemma ReadyPlanIsComplete(h: History, f: Facts)
    requires PlanBlockers(h, f) == []
    ensures f.head.Some? && f.described.Some? && f.described.value.branch.Some?
  {
    ReadyPlanExactlyWhen(h, f);
  }

  // ---- promotion and rollback, from a history read earlier

  /** The binding a promotion writes: the candidate at the confirmed head, superseding what was current. */
  function PromotedBinding(seen: History, f: Facts, head: Commit, op: Operation, id: BindingId): Binding
    requires f.described.Some? && f.described.value.branch.Some?
  {
    var lock := CurrentLock(seen);
    Binding(id, f.resource, f.described.value.branch.value, head, Active, CurrentVersion(seen) + 1, op,
            if lock.Some? then Some(lock.value.id) else None, None)
  }

  /** The binding a rollback writes: the earlier target again, superseding the current one. */
  function RestoredBinding(previous: Binding, current: Binding, op: Operation, id: BindingId): Binding
  {
    previous.(id := id, status := Active, version := current.version + 1, op := op,
              supersedes := Some(current.id), supersededBy := None)
  }

  /** A blocked plan is refused before its staleness is looked at. */
  function Promote(h: History, seen: History, f: Facts, expectedHead: Commit, expectedVersion: nat, op: Operation,
      id: BindingId): Outcome<History, Refusal>
  {
    var blockers := PlanBlockers(seen, f);
    if blockers != [] then Refused(BlockedBy(blockers))
    else
      ReadyPlanIsComplete(seen, f);
      if f.head != Some(expectedHead) || CurrentVersion(seen) != expectedVersion then Refused(StalePlan)
      else
        Replace(h, PromotedBinding(seen, f, expectedHead, op, id), CurrentLock(seen), Superseded)
  }

  /** The resource a rollback would restore; `readable` is None when no provider can be asked. */
  datatype Target = Target(registered: bool, active: bool, readable: Option<bool>)

  predicate Usable(target: Target) { target.registered && target.active && target.readable != Some(false) }

  /** Restores the binding that the current one replaced, as a new binding. */
  function Rollback(h: History, seen: History, expectedVersion: nat, target: Target, op: Operation,
      id: BindingId): Outcome<History, Refusal>
  {
    var active := FindActive(seen);
    if active.None? then Refused(NothingActive)
    else
      var current := seen[active.value];
      var previous := if current.supersedes.Some? then FindId(seen, current.supersedes.value) else None;
      if current.version != expectedVersion then Refused(StaleTarget)
      else if previous.None? then Refused(NothingToRestore)
      else if !target.registered then Refused(TargetMissing)
      else if !target.active then Refused(TargetInactive)
      else if target.readable == Some(false) then Refused(TargetUnreachable)
      else
        Replace(h, RestoredBinding(seen[previous.value], current, op, id), CurrentLock(seen), RolledBack)
  }

  // ---- one chain

  /** Versions are 1, 2, 3, ...; each binding supersedes the one before it; only the newest is ACTIVE. */
  ghost predicate OneChain(h: History)
  {
    && (forall k :: 0 <= k < |h| ==> h[k].version == k + 1)
    && (h != [] ==> h[0].supersedes == None)
    && (forall k :: 1 <= k < |h| ==> h[k].supersedes == Some(h[k - 1].id))
    && (forall k :: 0 <= k < |h| ==> (h[k].status == Active <==> k == |h| - 1))
    && (forall k :: 0 <= k < |h| ==> h[k].supersededBy == if k == |h| - 1 then None else Some(h[k + 1].id))
    && (forall j, k :: 0 <= j < k < |h| ==> h[j].id != h[k].id && h[j].op != h[k].op)
  }

  lemma ChainActive(h: History)
    requires OneChain(h)
    ensures FindActive(h) == if h == [] then None else Some(|h| - 1)
    ensures CurrentVersion(h) == |h|
  {
  }

  lemma FindIdInChain(h: History, k: nat)
    requires OneChain(h) && k < |h|
    ensures FindId(h, h[k].id) == Some(k)
  {
  }

  /** A client's history is an earlier state of the store. */
  ghost predicate EarlierState(seen: History, h: History)
  {
    && OneChain(seen) && |seen| <= |h| && (|seen| == |h| ==> seen == h)
    && forall k :: 0 <= k < |seen| ==> seen[k].id == h[k].id
  }

  /** A write lands exactly when the binding its writer saw is still the current one and its operation is new. */
  lemma WriteLandsExactlyWhenCurrent(h: History, seen: History, record: Binding, displacedAs: BindingStatus)
    requires OneChain(h) && EarlierState(seen, h)
    requires record.version == CurrentVersion(seen) + 1
    ensures Replace(h, record, CurrentLock(seen), displacedAs).Done? <==> seen == h && !UsesOperation(h, record.op)
  {
    ChainActive(h);
    ChainActive(seen);
    if seen != h && seen != [] { assert h[|seen| - 1].id == seen[|seen| - 1].id; }
  }

  lemma ReplaceExtendsChain(h: History, record: Binding, displacedAs: BindingStatus)
    requires OneChain(h) && displacedAs != Active && FindId(h, record.id).None?
    requires record.status == Active && record.version == |h| + 1 && record.supersededBy.None?
    requires record.supersedes == if h == [] then None else Some(Last(h).id)
    requires Replace(h, record, CurrentLock(h), displacedAs).Done?
    ensures var next := Replace(h, record, CurrentLock(h), displacedAs).value;
      && OneChain(next) && |next| == |h| + 1 && Last(next) == record
      && forall k :: 0 <= k < |h| ==> SameBinding(next[k], h[k])
  {
    ChainActive(h);
    assert Replace(h, record, CurrentLock(h), displacedAs).value == Displaced(h, record, displacedAs) + [record];
    assert forall k :: 0 <= k < |h| ==> h[k].id != record.id;
    DisplacedChain(h, record, displacedAs);
  }

  /** The history without its current binding, which `record` supersedes. */
  function Displaced(h: History, record: Binding, displacedAs: BindingStatus): History
  {
    if h == [] then h else h[|h| - 1 := Last(h).(status := displacedAs, supersededBy := Some(record.id))]
  }

  lemma DisplacedChain(h: History, record: Binding, displacedAs: BindingStatus)
    requires OneChain(h) && displacedAs != Active
    requires forall k :: 0 <= k < |h| ==> h[k].id != record.id && h[k].op != record.op
    requires record.status == Active && record.version == |h| + 1 && record.supersededBy.None?
    requires record.supersedes == if h == [] then None else Some(Last(h).id)
    ensures OneChain(Displaced(h, record, displacedAs) + [record])
  {
  }

  /** The part of a stored binding that no later write changes. */
  predicate SameBinding(a: Binding, b: Binding)
  {
    a.id == b.id && a.resource == b.resource && a.branch == b.branch && a.since == b.since
    && a.version == b.version && a.op == b.op && a.supersedes == b.supersedes
  }

  /** A promotion that lands extends the chain by exactly what was confirmed; any other one changes nothing. */
  lemma PromoteKeepsChain(h: History, seen: History, f: Facts, head: Commit, version: nat, op: Operation, id: BindingId)
    requires OneChain(h) && EarlierState(seen, h) && FindId(h, id).None?
    ensures var r := Promote(h, seen, f, head, version, op, id);
      r.Done? ==>
        && OneChain(r.value) && |r.value| == |h| + 1
        && (forall k :: 0 <= k < |h| ==> SameBinding(r.value[k], h[k]))
        && CurrentVersion(h) == version && f.head == Some(head)
        && Last(r.value).since == head && Last(r.value).resource == f.resource
  {
    var r := Promote(h, seen, f, head, version, op, id);
    if r.Done? {
      ReadyPlanIsComplete(seen, f);
      ChainActive(seen);
      var record := PromotedBinding(seen, f, head, op, id);
      WriteLandsExactlyWhenCurrent(h, seen, record, Superseded);
      ReplaceExtendsChain(h, record, Superseded);
    }
  }

  /** Stored bindings keep what they were; the history only grows. */
  ghost predicate Extends(h: History, later: History)
  {
    |h| <= |later| && forall k :: 0 <= k < |h| ==> SameBinding(later[k], h[k])
  }

  /** The newest binding of `next` points where the one before the newest of `h` pointed. */
  ghost predicate Restores(h: History, next: History)
  {
    |h| >= 2 && |next| == |h| + 1 && Extends(h, next) && SameTarget(Last(next), h[|h| - 2])
  }

  predicate SameTarget(a: Binding, b: Binding)
  {
    a.resource == b.resource && a.branch == b.branch && a.since == b.since
  }

  /** A rollback that lands restores the binding before the current one, as a new newest binding. */
  lemma RollbackKeepsChain(h: History, seen: History, version: nat, target: Target, op: Operation, id: BindingId)
    requires OneChain(h) && EarlierState(seen, h) && FindId(h, id).None?
    ensures var r := Rollback(h, seen, version, target, op, id);
      r.Done? ==> OneChain(r.value) && Restores(h, r.value) && CurrentVersion(h) == version
  {
    var r := Rollback(h, seen, version, target, op, id);
    ChainActive(seen);
    if r.Done? {
      var current := Last(seen);
      var n := |seen|;
      assert current.supersedes.Some? ==> n >= 2 && current.supersedes.value == seen[n - 2].id;
      FindIdInChain(seen, n - 2);
      var record := RestoredBinding(seen[n - 2], current, op, id);
      WriteLandsExactlyWhenCurrent(h, seen, record, RolledBack);
      ReplaceExtendsChain(h, record, RolledBack);
    }
  }

  // ---- runs of interleaved clients

  datatype Event =
    | Read(client: Client)
    | Promoted(client: Client, facts: Facts, head: Commit, version: nat, op: Operation, id: BindingId)
    | RolledBackBy(client: Client, version: nat, target: Target, op: Operation, id: BindingId)

  /** The store, and what each client read last. */
  datatype World = World(history: History, seen: map<Client, History>)

  function Settle(w: World, r: Outcome<History, Refusal>): World
  {
    if r.Done? then w.(history := r.value) else w
  }

  /** Identifiers are fresh when they are generated. */
  function Step(w: World, e: Event): World
  {
    match e
    case Read(c) => w.(seen := w.seen[c := w.history])
    case Promoted(c, f, head, version, op, id) =>
      if c in w.seen && FindId(w.history, id).None?
      then Settle(w, Promote(w.history, w.seen[c], f, head, version, op, id)) else w
    case RolledBackBy(c, version, target, op, id) =>
      if c in w.seen && FindId(w.history, id).None?
      then Settle(w, Rollback(w.history, w.seen[c], version, target, op, id)) else w
  }

  function After(w: World, trace: seq<Event>): World
  {
    if trace == [] then w else Step(After(w, trace[..|trace| - 1]), Last(trace))
  }

  ghost predicate Inv(w: World)
  {
    OneChain(w.history) && forall c :: c in w.seen ==> EarlierState(w.seen[c], w.history)
  }

  lemma StepKeepsChain(w: World, e: Event)
    requires Inv(w)
    ensures Inv(Step(w, e)) && Extends(w.history, Step(w, e).history)
  {
    match e
    case Read(c) =>
    case Promoted(c, f, head, version, op, id) =>
      if c in w.seen && FindId(w.history, id).None? {
        PromoteKeepsChain(w.history, w.seen[c], f, head, version, op, id);
        GrownHistoryKeepsReaders(w, Step(w, e));
      }
    case RolledBackBy(c, version, target, op, id) =>
      if c in w.seen && FindId(w.history, id).None? {
        RollbackKeepsChain(w.history, w.seen[c], version, target, op, id);
        GrownHistoryKeepsReaders(w, Step(w, e));
      }
  }

  lemma GrownHistoryKeepsReaders(w: World, v: World)
    requires Inv(w) && v.seen == w.seen && OneChain(v.history)
    requires v.history == w.history || (|v.history| == |w.history| + 1 && Extends(w.history, v.history))
    ensures Inv(v)
  {
    forall c | c in v.seen ensures EarlierState(v.seen[c], v.history) {
      assert EarlierState(w.seen[c], w.history);
    }
  }

  /** However clients interleave, the history is one chain, and no stored binding is ever rewritten. */
  lemma {:induction false} RunKeepsChain(w: World, trace: seq<Event>)
    requires Inv(w)
    ensures Inv(After(w, trace)) && Extends(w.history, After(w, trace).history)
  {
    if trace != [] {
      RunKeepsChain(w, trace[..|trace| - 1]);
      StepKeepsChain(After(w, trace[..|trace| - 1]), Last(trace));
    }
  }

  lemma StalePromotionRefused(h: History, seen: History, f: Facts, head: Commit, version: nat, op: Operation,
      id: BindingId)
    requires OneChain(h) && EarlierState(seen, h) && seen != h
    ensures Promote(h, seen, f, head, version, op, id).Refused?
  {
    ChainActive(seen);
    if PlanBlockers(seen, f) == [] {
      ReadyPlanIsComplete(seen, f);
      var record := PromotedBinding(seen, f, head, op, id);
      if f.head == Some(head) { WriteLandsExactlyWhenCurrent(h, seen, record, Superseded); }
    }
  }

  lemma StaleRollbackRefused(h: History, seen: History, version: nat, target: Target, op: Operation, id: BindingId)
    requires OneChain(h) && EarlierState(seen, h) && seen != h
    ensures Rollback(h, seen, version, target, op, id).Refused?
  {
    ChainActive(seen);
    var n := |seen|;
    if n >= 2 {
      FindIdInChain(seen, n - 2);
      var record := RestoredBinding(seen[n - 2], Last(seen), op, id);
      WriteLandsExactlyWhenCurrent(h, seen, record, RolledBack);
    }
  }

  lemma CurrentPromotion(h: History, f: Facts, head: Commit, version: nat, op: Operation, id: BindingId)
    requires OneChain(h)
    ensures Promote(h, h, f, head, version, op, id).Done? <==>
      PlanBlockers(h, f) == [] && f.head == Some(head) && version == |h| && !UsesOperation(h, op)
  {
    ChainActive(h);
    var blockers := PlanBlockers(h, f);
    if blockers == [] {
      ReadyPlanIsComplete(h, f);
      WriteLandsExactlyWhenCurrent(h, h, PromotedBinding(h, f, head, op, id), Superseded);
    }
  }

  /**
   * A promotion lands exactly when its client's read is current, its plan is free, its confirmation holds and its
   * operation is new.
   */
  lemma PromotionLandsExactlyWhen(h: History, seen: History, f: Facts, head: Commit, version: nat, op: Operation,
      id: BindingId)
    requires OneChain(h) && EarlierState(seen, h)
    ensures Promote(h, seen, f, head, version, op, id).Done? <==>
      seen == h && PlanBlockers(h, f) == [] && f.head == Some(head) && version == |h| && !UsesOperation(h, op)
  {
    if seen == h {
      CurrentPromotion(h, f, head, version, op, id);
    } else {
      StalePromotionRefused(h, seen, f, head, version, op, id);
    }
  }

  lemma CurrentRollback(h: History, version: nat, target: Target, op: Operation, id: BindingId)
    requires OneChain(h)
    ensures Rollback(h, h, version, target, op, id).Done? <==>
      |h| >= 2 && version == |h| && Usable(target) && !UsesOperation(h, op)
  {
    ChainActive(h);
    var n := |h|;
    if n >= 2 {
      FindIdInChain(h, n - 2);
      assert h[n - 1].supersedes == Some(h[n - 2].id) && h[n - 1].version == n;
      WriteLandsExactlyWhenCurrent(h, h, RestoredBinding(h[n - 2], h[n - 1], op, id), RolledBack);
    } else if n == 1 {
      assert h[0].supersedes.None?;
    }
  }

  /**
   * A rollback lands exactly when its client's read is current, something came before, its target is usable and its
   * operation is new.
   */
  lemma RollbackLandsExactlyWhen(h: History, seen: History, version: nat, target: Target, op: Operation, id: BindingId)
    requires OneChain(h) && EarlierState(seen, h)
    ensures Rollback(h, seen, version, target, op, id).Done? <==>
      seen == h && |h| >= 2 && version == |h| && Usable(target) && !UsesOperation(h, op)
  {
    if seen == h {
      CurrentRollback(h, version, target, op, id);
    } else {
      StaleRollbackRefused(h, seen, version, target, op, id);
    }
  }

  /** In every reachable state a writer whose client read before the newest binding was written changes nothing. */
  lemma StaleWritersChangeNothing(w: World, trace: seq<Event>, e: Event)
    requires Inv(w) && !e.Read?
    requires var v := After(w, trace); e.client in v.seen ==> v.seen[e.client] != v.history
    ensures Step(After(w, trace), e) == After(w, trace)
  {
    RunKeepsChain(w, trace);
    var v := After(w, trace);
    if e.client in v.seen {
      match e
      case Promoted(c, f, head, version, op, id) =>
        StalePromotionRefused(v.history, v.seen[c], f, head, version, op, id);
      case RolledBackBy(c, version, target, op, id) =>
        StaleRollbackRefused(v.history, v.seen[c], version, target, op, id);
    }
  }

  /** A rollback that lands in a run brings back the binding before the newest one. */
  lemma RollbackStep(w: World, e: Event)
    requires Inv(w) && e.RolledBackBy?
    ensures Step(w, e) == w || Restores(w.history, Step(w, e).history)
  {
    if e.client in w.seen && FindId(w.history, e.id).None? {
      RollbackKeepsChain(w.history, w.seen[e.client], e.version, e.target, e.op, e.id);
    }
  }

  lemma RestoringTwice(h: History, next: History, last: History)
    requires Restores(h, next) && Restores(next, last)
    ensures |last| == |h| + 2 && SameTarget(Last(last), Last(h))
  {
    assert SameBinding(next[|h| - 1], h[|h| - 1]);
  }

  /** Reading changes no history, whoever reads. */
  lemma {:induction false} ReadingChangesNothing(w: World, between: seq<Event>)
    requires forall k :: 0 <= k < |between| ==> between[k].Read?
    ensures After(w, between).history == w.history
  {
    if between != [] {
      var init := between[..|between| - 1];
      assert forall k :: 0 <= k < |init| ==> init[k] == between[k];
      ReadingChangesNothing(w, init);
      assert Last(between).Read?;
    }
  }

  /**
   * Two rollbacks that land one after the other, with only reads between them, restore what was canonical before them.
   */
  lemma TwoRollbacksRestore(w: World, first: Event, between: seq<Event>, second: Event)
    requires Inv(w) && first.RolledBackBy? && second.RolledBackBy?
    requires forall k :: 0 <= k < |between| ==> between[k].Read?
    ensures var u := After(Step(w, first), between);
      Step(w, first) != w && Step(u, second) != u ==> RestoredBy(w.history, Step(u, second).history)
  {
    StepKeepsChain(w, first);
    RollbackStep(w, first);
    var u := Step(w, first);
    ReadingChangesNothing(u, between);
    RunKeepsChain(u, between);
    RollbackStep(After(u, between), second);
    if u != w && Step(After(u, between), second) != After(u, between) {
      RestoringTwice(w.history, u.history, Step(After(u, between), second).history);
    }
  }

  /** Two bindings later, the newest one points where the newest one of `h` pointed. */
  predicate RestoredBy(h: History, later: History)
  {
    h != [] && |later| == |h| + 2 && SameTarget(Last(later), Last(h))
  }

  /** Where the rollbacks that landed since `h` have led: back and forth between its last two bindings. */
  ghost predicate Alternates(h: History, later: History)
  {
    && |later| >= |h| && (|later| > |h| ==> |h| >= 2)
    && forall k :: |h| <= k < |later| ==> SameTarget(later[k], h[Repeated(|h|, k)])
  }

  /** Which of the two newest of `n` bindings the later position `k` repeats. */
  function Repeated(n: nat, k: nat): nat
    requires 2 <= n <= k
  {
    if (k - n) % 2 == 0 then n - 2 else n - 1
  }

  /**
   * So rolling back only ever alternates between the last two bindings: however many rollbacks land in a row, nothing
   * older comes back.
   */
  lemma {:induction false} RollbacksAlternate(w: World, rollbacks: seq<Event>)
    requires Inv(w)
    requires forall k :: 0 <= k < |rollbacks| ==> !rollbacks[k].Promoted?
    ensures Alternates(w.history, After(w, rollbacks).history)
  {
    if rollbacks != [] {
      var init, e := rollbacks[..|rollbacks| - 1], Last(rollbacks);
      assert forall k :: 0 <= k < |init| ==> init[k] == rollbacks[k];
      RollbacksAlternate(w, init);
      RunKeepsChain(w, init);
      var v := After(w, init);
      assert !e.Promoted?;
      if e.RolledBackBy? {
        RollbackStep(v, e);
        AlternateStep(w.history, v.history, Step(v, e).history);
      }
    }
  }

  lemma AlternateStep(h: History, later: History, next: History)
    requires Alternates(h, later) && Extends(h, later) && (next == later || Restores(later, next))
    ensures Alternates(h, next)
  {
    forall k | |h| <= k < |next| ensures SameTarget(next[k], h[Repeated(|h|, k)]) {
      if k < |later| { assert SameBinding(next[k], later[k]); } else { NewestRepeats(h, later, next); }
    }
  }

  lemma NewestRepeats(h: History, later: History, next: History)
    requires Alternates(h, later) && Extends(h, later) && Restores(later, next) && |h| >= 2
    ensures SameTarget(Last(next), h[Repeated(|h|, |later|)])
  {
    var p := |later| - 2;
    if p >= |h| {
      assert Repeated(|h|, p) == Repeated(|h|, |later|);
    } else {
      assert SameBinding(later[p], h[p]);
    }
  }
}
