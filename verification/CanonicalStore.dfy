/** The canonical-repository service over its stored history. */
module CanonicalStores {
  import opened CanonicalRepository
  import opened Common
  import opened Records

  /** Blockers accumulate in the order they are checked. */
  method BuildPlan(seen: History, f: Facts) returns (blockers: seq<PlanBlocker>)
    ensures blockers == PlanBlockers(seen, f)
  {
    blockers := BuildProjectPlan(f);
    var candidate := BuildResourcePlan(f);
    blockers := blockers + candidate;
    var described := BuildDescriptionPlan(f.described);
    blockers := blockers + described;
    if f.head.None? { blockers := blockers + [HeadUnresolved]; }
    else if f.headReachable == Some(false) { blockers := blockers + [HeadUnreachable]; }
    var standing := BuildHistoryPlan(seen, f);
    blockers := blockers + standing;
  }

  method BuildProjectPlan(f: Facts) returns (blockers: seq<PlanBlocker>)
    ensures blockers == ProjectBlockers(f)
  {
    blockers := [];
    if !f.projectActive { blockers := blockers + [ProjectNotActive]; }
    if f.production { blockers := blockers + [Production]; }
  }

  method BuildResourcePlan(f: Facts) returns (blockers: seq<PlanBlocker>)
    ensures blockers == ResourceBlockers(f)
  {
    blockers := [];
    if !f.resourceActive { blockers := blockers + [ResourceInactive]; }
    if !f.github { blockers := blockers + [ResourceTypeInvalid]; }
    if !f.readable || !f.writable { blockers := blockers + [PermissionsInsufficient]; }
  }

  method BuildHistoryPlan(seen: History, f: Facts) returns (blockers: seq<PlanBlocker>)
    ensures blockers == HistoryBlockers(seen, f)
  {
    blockers := [];
    if exists i :: 0 <= i < |seen| && seen[i].status == Candidate { blockers := blockers + [ConflictingPromotion]; }
    if f.unfinishedExport { blockers := blockers + [TransferInProgress]; }
    var active := FindActive(seen);
    if active.Some? && seen[active.value].resource == f.resource { blockers := blockers + [AlreadyCanonical]; }
  }

  method BuildDescriptionPlan(d: Option<Description>) returns (blockers: seq<PlanBlocker>)
    ensures blockers == DescriptionBlockers(d)
  {
    if d.None? { return [Unreachable]; }
    var v := d.value;
    blockers := [];
    if !v.sameIdentity { blockers := blockers + [IdentityMismatch]; }
    if v.branch.None? { blockers := blockers + [DefaultBranchMissing]; }
    if !v.pull || !v.push { blockers := blockers + [ProviderPermissions]; }
    if v.empty { blockers := blockers + [Empty]; }
  }

  /** The store holds one chain, the client read an earlier state of it, and the identifier is new. */
  ghost predicate Reader(h: History, seen: History, id: BindingId)
  {
    OneChain(h) && EarlierState(seen, h) && FindId(h, id).None?
  }

  class CanonicalStore {
    var history: History

    constructor ()
      ensures history == []
    {
      history := [];
    }

    /** The store's own check and write, with nothing in between. */
    method ReplaceActive(record: Binding, expected: Option<Lock>,
        displacedAs: BindingStatus) returns (refusal: Option<Refusal>)
      modifies this
      ensures Replace(old(history), record, expected, displacedAs) ==
                if refusal.Some? then Refused(refusal.value) else Done(history)
      ensures refusal.Some? ==> history == old(history)
      ensures refusal.None? ==> CurrentLock(old(history)) == expected && !UsesOperation(old(history), record.op)
      ensures refusal.None? ==> history != [] && Last(history) == record
    {
      var active := FindActive(history);
      if expected.Some? {
        if active.None? { return Some(LockLost); }
        if history[active.value].id != expected.value.id || history[active.value].version != expected.value.version {
          return Some(LockLost);
        }
      } else if active.Some? {
        return Some(AlreadyActive);
      }
      if UsesOperation(history, record.op) { return Some(OperationUsed); }
      if UsesVersion(history, record.version) { return Some(VersionTaken); }
      if active.Some? {
        var displaced := history[active.value].(status := displacedAs, supersededBy := Some(record.id));
        history := history[active.value := displaced];
      }
      history := history + [record];
      refusal := None;
    }

    /** `seen` is the history as this client read it; the store may have moved on since. */
    method PromoteRepository(seen: History, f: Facts, expectedHead: Commit, expectedVersion: nat, op: Operation,
        id: BindingId)
      returns (refusal: Option<Refusal>)
      modifies this
      ensures Promote(old(history), seen, f, expectedHead, expectedVersion, op, id) ==
                if refusal.Some? then Refused(refusal.value) else Done(history)
      ensures refusal.Some? ==> history == old(history)
      ensures Reader(old(history), seen, id) ==> OneChain(history)
      ensures Reader(old(history), seen, id) && refusal.None? ==>
        && seen == old(history) && Extends(old(history), history) && |history| == |old(history)| + 1
        && Last(history).resource == f.resource && Last(history).since == expectedHead
    {
      if Reader(history, seen, id) {
        PromoteKeepsChain(history, seen, f, expectedHead, expectedVersion, op, id);
        PromotionLandsExactlyWhen(history, seen, f, expectedHead, expectedVersion, op, id);
      }
      var blockers := BuildPlan(seen, f);
      if blockers != [] { return Some(BlockedBy(blockers)); }
      ReadyPlanIsComplete(seen, f);
      if f.head != Some(expectedHead) || CurrentVersion(seen) != expectedVersion { return Some(StalePlan); }
      var record := PromotedBinding(seen, f, expectedHead, op, id);
      refusal := ReplaceActive(record, CurrentLock(seen), Superseded);
    }

    method RollbackRepository(seen: History, expectedVersion: nat, target: Target, op: Operation,
        id: BindingId) returns (refusal: Option<Refusal>)
      modifies this
      ensures Rollback(old(history), seen, expectedVersion, target, op, id) ==
                if refusal.Some? then Refused(refusal.value) else Done(history)
      ensures refusal.Some? ==> history == old(history)
      ensures Reader(old(history), seen, id) ==> OneChain(history)
      ensures Reader(old(history), seen, id) && refusal.None?
          ==> seen == old(history) && Restores(old(history), history)
    {
      if Reader(history, seen, id) {
        RollbackKeepsChain(history, seen, expectedVersion, target, op, id);
        RollbackLandsExactlyWhen(history, seen, expectedVersion, target, op, id);
      }
      var active := FindActive(seen);
      if active.None? { return Some(NothingActive); }
      var current := seen[active.value];
      if current.version != expectedVersion { return Some(StaleTarget); }
      if current.supersedes.None? { return Some(NothingToRestore); }
      var previous := FindId(seen, current.supersedes.value);
      if previous.None? { return Some(NothingToRestore); }
      if !target.registered { return Some(TargetMissing); }
      if !target.active { return Some(TargetInactive); }
      if target.readable == Some(false) { return Some(TargetUnreachable); }
      var record := RestoredBinding(seen[previous.value], current, op, id);
      refusal := ReplaceActive(record, Some(Lock(current.id, current.version)), RolledBack);
    }
  }
}
