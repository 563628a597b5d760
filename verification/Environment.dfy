/** One run of a throwaway environment: what is attempted, what the verdict says, and what is torn down. */
module Environment {
  import opened Common
  import opened Parity

  type DependencyKind = nat
  type Command = nat
  type ProbePath = nat

  datatype FailureClass =
    | PlanUnresolved | NoScenarios | InfrastructureUnavailable | DependencyUnavailable | BuildFailed
    | EnvironmentBootFailed | HealthCheckFailed | ScenarioFailed | ContractGap | CoverageIncomplete
    | ReferenceNotProven | ParityMismatch

  /** `references` are the dependencies that environment values name. */
  datatype Plan = Plan(
    executable: bool, dependencies: seq<DependencyKind>, references: seq<DependencyKind>,
    install: seq<Command>, build: seq<Command>, prepare: seq<Command>, health: seq<ProbePath>)

  datatype Phase = Install | Build | Prepare

  datatype Item = Dependency(i: nat) | RunCommand(phase: Phase, i: nat) | StartApplication | AwaitHealth | RunCollection

  datatype Step = Step(item: Item, passed: bool)

  datatype Container = Service(i: nat) | Application

  datatype CommandAnswer = Exit(code: int) | RunnerBroke

  /** One round of probing: what each path answered, and whether the application still ran afterwards. */
  datatype Round = Round(answer: ProbePath -> Option<int>, running: bool)

  datatype CollectionAnswer =
    | CollectionBroke
    | CollectionRan(proven: bool, passed: bool, inventoryComplete: bool, reports: seq<ComparableStep>)

  /** Everything the run observes; `probes` and `rounds` are what fits before the timeouts. */
  datatype World = World(
    runtimeUp: bool, serviceStarts: nat -> bool, probes: nat -> seq<bool>, answer: (Phase, nat) -> CommandAnswer,
    applicationStarts: bool, rounds: seq<Round>, collection: CollectionAnswer)

  datatype Evidence = Evidence(proven: bool, failure: Option<FailureClass>, steps: seq<Step>,
      reports: seq<ComparableStep>)

  datatype Ending = Returned(evidence: Evidence) | Threw

  /** How a run ended, and the containers handed to each teardown. */
  datatype Execution = Execution(ending: Ending, teardowns: seq<seq<Container>>)

  // ---- what is attempted, in order

  function Commands(phase: Phase, n: nat): (r: seq<Item>)
    ensures |r| == n && forall i :: 0 <= i < n ==> r[i] == RunCommand(phase, i)
  {
    seq(n, i requires 0 <= i < n => RunCommand(phase, i))
  }

  function Dependencies(n: nat): (r: seq<Item>)
    ensures |r| == n && forall i :: 0 <= i < n ==> r[i] == Dependency(i)
  {
    seq(n, i requires 0 <= i < n => Dependency(i))
  }

  function Agenda(plan: Plan): seq<Item>
  {
    Dependencies(|plan.dependencies|)
      + (Commands(Install, |plan.install|) + (Commands(Build, |plan.build|) + (Commands(Prepare, |plan.prepare|)
      + [StartApplication, AwaitHealth, RunCollection])))
  }

  // ---- how each item goes

  datatype Judgement = Passes | Fails(failure: FailureClass) | Breaks

  function FirstAnswer(paths: seq<ProbePath>, answer: ProbePath -> Option<int>): Option<ProbePath>
  {
    if paths == [] then None
    else if Answers(answer, paths[0]) then Some(paths[0])
    else FirstAnswer(paths[1..], answer)
  }

  datatype Health = Answered(path: ProbePath) | Exited | NeverAnswered

  /** Ready means that some probe answers below 500; an application that stopped is not waited for. */
  function HealthOf(paths: seq<ProbePath>, rounds: seq<Round>): Health
  {
    if rounds == [] then NeverAnswered
    else
      var first := FirstAnswer(paths, rounds[0].answer);
      if first.Some? then Answered(first.value)
      else if !rounds[0].running then Exited
      else HealthOf(paths, rounds[1..])
  }

  lemma {:induction false} FirstAnswerMeans(paths: seq<ProbePath>, answer: ProbePath -> Option<int>)
    ensures FirstAnswer(paths, answer).Some? <==> exists i :: 0 <= i < |paths| && Answers(answer, paths[i])
    ensures FirstAnswer(paths, answer).Some?
        ==> FirstAnswer(paths, answer).value in paths && Answers(answer, FirstAnswer(paths, answer).value)
  {
    if paths != [] {
      FirstAnswerMeans(paths[1..], answer);
      assert forall i :: 1 <= i < |paths| ==> paths[1..][i - 1] == paths[i];
      if FirstAnswer(paths[1..], answer).Some? && !Answers(answer, paths[0]) {
        var i :| 0 <= i < |paths[1..]| && Answers(answer, paths[1..][i]);
        assert Answers(answer, paths[i + 1]);
      }
    }
  }

  predicate Answers(answer: ProbePath -> Option<int>, path: ProbePath)
  {
    answer(path).Some? && answer(path).value < 500
  }

  /** In this round nobody answered and the application still ran. */
  ghost predicate StillWaiting(paths: seq<ProbePath>, round: Round)
  {
    round.running && forall i :: 0 <= i < |paths| ==> !Answers(round.answer, paths[i])
  }

  /** The first round that is not waited through decides: an answer wins even over an application that then stopped. */
  lemma {:induction false} HealthMeans(paths: seq<ProbePath>, rounds: seq<Round>)
    ensures HealthOf(paths, rounds) == NeverAnswered
        <==> forall k :: 0 <= k < |rounds| ==> StillWaiting(paths, rounds[k])
    ensures HealthOf(paths, rounds) != NeverAnswered ==>
      exists k :: 0 <= k < |rounds| && !StillWaiting(paths, rounds[k])
        && (forall i :: 0 <= i < k ==> StillWaiting(paths, rounds[i]))
        && (HealthOf(paths, rounds).Answered? <==> exists i :: 0 <= i < |paths| && Answers(rounds[k].answer, paths[i]))
  {
    if rounds != [] {
      FirstAnswerMeans(paths, rounds[0].answer);
      if StillWaiting(paths, rounds[0]) {
        HealthMeans(paths, rounds[1..]);
        assert forall k :: 1 <= k < |rounds| ==> rounds[1..][k - 1] == rounds[k];
        if HealthOf(paths, rounds) != NeverAnswered {
          var k :| 0 <= k < |rounds[1..]| && !StillWaiting(paths, rounds[1..][k])
              && (forall i :: 0 <= i < k ==> StillWaiting(paths, rounds[1..][i]))
            && (HealthOf(paths, rounds[1..]).Answered?
              <==> exists i :: 0 <= i < |paths| && Answers(rounds[1..][k].answer, paths[i]));
          assert !StillWaiting(paths, rounds[k + 1]);
          forall i | 0 <= i < k + 1 ensures StillWaiting(paths, rounds[i]) {
            if i > 0 { assert StillWaiting(paths, rounds[1..][i - 1]); }
          }
        }
      }
    }
  }

  function CollectionFailure(passed: bool, inventoryComplete: bool): FailureClass
  {
    if !passed then ScenarioFailed else if !inventoryComplete then ContractGap else CoverageIncomplete
  }

  function Judge(plan: Plan, w: World, item: Item): Judgement
  {
    match item
    case Dependency(i) => if w.serviceStarts(i) && true in w.probes(i) then Passes else Fails(DependencyUnavailable)
    case RunCommand(phase, i) =>
      (match w.answer(phase, i)
       case RunnerBroke => Breaks
       case Exit(code) =>
         if code == 0 then Passes else Fails(if phase == Prepare then EnvironmentBootFailed else BuildFailed))
    case StartApplication => if w.applicationStarts then Passes else Fails(EnvironmentBootFailed)
    case AwaitHealth =>
      (match HealthOf(plan.health, w.rounds)
       case Answered(_) => Passes
       case Exited => Fails(EnvironmentBootFailed)
       case NeverAnswered => Fails(HealthCheckFailed))
    case RunCollection =>
      (match w.collection
       case CollectionBroke => Breaks
       case CollectionRan(proven, passed, complete, _) =>
         if proven then Passes else Fails(CollectionFailure(passed, complete)))
  }

  /** The containers that attempting the item leaves behind. */
  function Starts(w: World): Item -> seq<Container>
  {
    (item: Item) => match item
      case Dependency(i) => if w.serviceStarts(i) then [Service(i)] else []
      case StartApplication => if w.applicationStarts then [Application] else []
      case _ => []
  }

  // ---- the run

  datatype Stop = FailedAs(failure: FailureClass) | Broke

  datatype Progress = Progress(steps: seq<Step>, containers: seq<Container>, stop: Option<Stop>)

  function Advance(plan: Plan, w: World, p: Progress, item: Item): Progress
  {
    if p.stop.Some? then p
    else
      var containers := p.containers + Starts(w)(item);
      match Judge(plan, w, item)
      case Passes => Progress(p.steps + [Step(item, true)], containers, None)
      case Fails(failure) => Progress(p.steps + [Step(item, false)], containers, Some(FailedAs(failure)))
      case Breaks => Progress(p.steps, containers, Some(Broke))
  }

  function Through(plan: Plan, w: World, p: Progress, items: seq<Item>): Progress
    decreases |items|
  {
    if items == [] then p else Through(plan, w, Advance(plan, w, p, items[0]), items[1..])
  }

  const BEFORE := Progress([], [], None)

  predicate UnknownReference(plan: Plan)
  {
    exists i :: 0 <= i < |plan.references| && plan.references[i] !in plan.dependencies
  }

  function Unproven(failure: FailureClass): Ending { Returned(Evidence(false, Some(failure), [], [])) }

  function Reports(w: World): seq<ComparableStep>
  {
    if w.collection.CollectionRan? then w.collection.reports else []
  }

  /** The evidence of a run that reached `p` and stopped or finished there. */
  function Ended(w: World, p: Progress): Ending
  {
    match p.stop
    case Some(Broke) => Threw
    case Some(FailedAs(failure)) =>
      var collected := p.steps != [] && Last(p.steps).item == RunCollection;
      Returned(Evidence(false, Some(failure), p.steps, if collected then Reports(w) else []))
    case None => Returned(Evidence(true, None, p.steps, Reports(w)))
  }

  function ExecutionOf(plan: Plan, scenarios: nat, w: World): Execution
  {
    if !plan.executable then Execution(Unproven(PlanUnresolved), [])
    else if scenarios == 0 then Execution(Unproven(NoScenarios), [])
    else if UnknownReference(plan) then Execution(Unproven(PlanUnresolved), [])
    else if !w.runtimeUp then Execution(Unproven(InfrastructureUnavailable), [[]])
    else
      var p := Through(plan, w, BEFORE, Agenda(plan));
      Execution(Ended(w, p), [p.containers])
  }

  // ---- what the run guarantees

  function PassedSteps(items: seq<Item>): seq<Step>
  {
    seq(|items|, i requires 0 <= i < |items| => Step(items[i], true))
  }

  ghost predicate AllPass(plan: Plan, w: World, items: seq<Item>)
  {
    forall i :: 0 <= i < |items| ==> Judge(plan, w, items[i]) == Passes
  }

  /**
   * Exactly the items before the first one that does not pass are recorded as passed, and everything attempted is
   * accounted for.
   */
  ghost predicate Shaped(plan: Plan, w: World, items: seq<Item>, p: Progress)
  {
    if p.stop.None? then
      && p.steps == PassedSteps(items) && p.containers == FlatMap(Starts(w), items)
      && AllPass(plan, w, items)
    else
      exists k :: 0 <= k < |items| && StoppedAt(plan, w, items, p, k)
  }

  ghost predicate StoppedAt(plan: Plan, w: World, items: seq<Item>, p: Progress, k: nat)
    requires k < |items|
  {
    && (forall i :: 0 <= i < k ==> Judge(plan, w, items[i]) == Passes)
    && p.containers == FlatMap(Starts(w), items[..k + 1])
    && match p.stop
       case None => false
       case Some(FailedAs(failure)) =>
         Judge(plan, w, items[k]) == Fails(failure) && p.steps == PassedSteps(items[..k]) + [Step(items[k], false)]
       case Some(Broke) => Judge(plan, w, items[k]) == Breaks && p.steps == PassedSteps(items[..k])
  }

  lemma {:induction false} ThroughConcat(plan: Plan, w: World, p: Progress, a: seq<Item>, b: seq<Item>)
    ensures Through(plan, w, p, a + b) == Through(plan, w, Through(plan, w, p, a), b)
    decreases |a|
  {
    if a == [] {
      assert a + b == b;
    } else {
      assert (a + b)[0] == a[0] && (a + b)[1..] == a[1..] + b;
      ThroughConcat(plan, w, Advance(plan, w, p, a[0]), a[1..], b);
    }
  }

  lemma {:induction false} ThroughStopped(plan: Plan, w: World, p: Progress, items: seq<Item>)
    requires p.stop.Some?
    ensures Through(plan, w, p, items) == p
    decreases |items|
  {
    if items != [] { ThroughStopped(plan, w, p, items[1..]); }
  }

  lemma {:induction false} ThroughShape(plan: Plan, w: World, items: seq<Item>)
    ensures Shaped(plan, w, items, Through(plan, w, BEFORE, items))
  {
    if items != [] {
      var init, item := items[..|items| - 1], Last(items);
      assert items == init + [item];
      ThroughShape(plan, w, init);
      var p := Through(plan, w, BEFORE, init);
      ThroughConcat(plan, w, BEFORE, init, [item]);
      assert [item][1..] == [];
      assert Through(plan, w, p, [item]) == Advance(plan, w, p, item);
      ShapeStep(plan, w, init, item, p);
    }
  }

  lemma ShapeStays(plan: Plan, w: World, init: seq<Item>, item: Item, p: Progress)
    requires Shaped(plan, w, init, p) && p.stop.Some?
    ensures Shaped(plan, w, init + [item], p)
  {
    var items := init + [item];
    var k :| 0 <= k < |init| && StoppedAt(plan, w, init, p, k);
    assert items[..k + 1] == init[..k + 1] && items[..k] == init[..k];
    assert StoppedAt(plan, w, items, p, k);
  }

  lemma ShapeStep(plan: Plan, w: World, init: seq<Item>, item: Item, p: Progress)
    requires Shaped(plan, w, init, p)
    ensures Shaped(plan, w, init + [item], Advance(plan, w, p, item))
  {
    if p.stop.Some? {
      ShapeStays(plan, w, init, item, p);
    } else {
      FlatMapAppend(Starts(w), init, item);
      if Judge(plan, w, item) == Passes {
        assert PassedSteps(init + [item]) == PassedSteps(init) + [Step(item, true)];
      } else {
        ShapeStops(plan, w, init, item, p);
      }
    }
  }

  lemma ShapeStops(plan: Plan, w: World, init: seq<Item>, item: Item, p: Progress)
    requires Shaped(plan, w, init, p) && p.stop.None? && Judge(plan, w, item) != Passes
    ensures Shaped(plan, w, init + [item], Advance(plan, w, p, item))
  {
    var items, n := init + [item], |init|;
    FlatMapAppend(Starts(w), init, item);
    assert items[..n] == init && items[..n + 1] == items;
    assert StoppedAt(plan, w, items, Advance(plan, w, p, item), n);
  }

  /** The gates before anything is provisioned. */
  predicate Attempted(plan: Plan, scenarios: nat)
  {
    plan.executable && scenarios > 0 && !UnknownReference(plan)
  }

  /**
   * On every returning run: not proven exactly when a failure class is set, at most one step failed and it is the last,
   * and proven exactly when everything planned was attempted in order and passed.
   */
  lemma VerdictIsHonest(plan: Plan, scenarios: nat, w: World)
    requires Returns(plan, scenarios, w)
    ensures var e := EvidenceOf(plan, scenarios, w);
      && (e.proven <==> e.failure.None?)
      && Follows(e.steps, Agenda(plan), e.failure.Some?)
      && (e.proven ==> e.steps == PassedSteps(Agenda(plan)))
      && (e.proven <==> Attempted(plan, scenarios) && w.runtimeUp && AllPass(plan, w, Agenda(plan)))
  {
    if Attempted(plan, scenarios) && w.runtimeUp {
      var items := Agenda(plan);
      var p := Through(plan, w, BEFORE, items);
      ThroughShape(plan, w, items);
      HonestProgress(plan, w, items, p);
    }
  }

  /** The steps follow the agenda, and only the last of them can have failed. */
  ghost predicate Follows(steps: seq<Step>, items: seq<Item>, failed: bool)
  {
    && |steps| <= |items| && (forall k :: 0 <= k < |steps| ==> steps[k].item == items[k])
    && forall k :: 0 <= k < |steps| && !steps[k].passed ==> k == |steps| - 1 && failed
  }

  lemma FailedLast(items: seq<Item>, k: nat)
    requires k < |items|
    ensures Follows(PassedSteps(items[..k]) + [Step(items[k], false)], items, true)
  {
    var steps := PassedSteps(items[..k]) + [Step(items[k], false)];
    forall i | 0 <= i < |steps| ensures steps[i] == Step(items[i], i < k) { }
  }

  lemma HonestProgress(plan: Plan, w: World, items: seq<Item>, p: Progress)
    requires Shaped(plan, w, items, p) && p.stop != Some(Broke)
    ensures Follows(p.steps, items, p.stop.Some?)
    ensures p.stop.None? <==> AllPass(plan, w, items)
  {
    if p.stop.Some? {
      var k :| 0 <= k < |items| && StoppedAt(plan, w, items, p, k);
      FailedLast(items, k);
    }
  }

  /** How many items were attempted before the run ended, the last one included. */
  ghost predicate AttemptedUpTo(plan: Plan, w: World, n: nat)
  {
    && n <= |Agenda(plan)|
    && (forall i :: 0 <= i < n - 1 ==> Judge(plan, w, Agenda(plan)[i]) == Passes)
    && (n < |Agenda(plan)| ==> n > 0 && Judge(plan, w, Agenda(plan)[n - 1]) != Passes)
  }

  /**
   * However the run ends, by returning or by an error thrown halfway, an environment whose provisioning was attempted
   * is torn down exactly once, with every container that was started; and nothing is torn down otherwise.
   */
  lemma TeardownIsComplete(plan: Plan, scenarios: nat, w: World)
    ensures var x := ExecutionOf(plan, scenarios, w);
      && |x.teardowns| == (if Attempted(plan, scenarios) then 1 else 0)
      && (Attempted(plan, scenarios) && !w.runtimeUp ==> x.teardowns == [[]])
      && (Attempted(plan, scenarios) && w.runtimeUp ==>
            exists n: nat :: AttemptedUpTo(plan, w, n) && x.teardowns == [FlatMap(Starts(w), Agenda(plan)[..n])])
  {
    if Attempted(plan, scenarios) && w.runtimeUp {
      var items := Agenda(plan);
      var p := Through(plan, w, BEFORE, items);
      ThroughShape(plan, w, items);
      if p.stop.None? {
        assert items[..|items|] == items;
        assert AttemptedUpTo(plan, w, |items|);
      } else {
        var k :| 0 <= k < |items| && StoppedAt(plan, w, items, p, k);
        assert AttemptedUpTo(plan, w, k + 1);
      }
    }
  }

  /** Attempting the item leaves this container running. */
  predicate Leaves(w: World, item: Item, c: Container)
  {
    match item
    case Dependency(i) => c == Service(i) && w.serviceStarts(i)
    case StartApplication => c == Application && w.applicationStarts
    case _ => false
  }

  /** No container is leaked and none is invented: what is torn down is what the attempted items left running. */
  lemma NothingLeaks(plan: Plan, scenarios: nat, w: World)
    requires Attempted(plan, scenarios) && w.runtimeUp
    ensures var x := ExecutionOf(plan, scenarios, w);
      && |x.teardowns| == 1
      && exists n: nat :: AttemptedUpTo(plan, w, n)
           && forall c :: c in x.teardowns[0] <==> exists k :: 0 <= k < n && Leaves(w, Agenda(plan)[k], c)
  {
    TeardownIsComplete(plan, scenarios, w);
    var x := ExecutionOf(plan, scenarios, w);
    var n: nat :| AttemptedUpTo(plan, w, n) && x.teardowns == [FlatMap(Starts(w), Agenda(plan)[..n])];
    var done := Agenda(plan)[..n];
    forall c: Container ensures c in x.teardowns[0] <==> exists k :: 0 <= k < n && Leaves(w, Agenda(plan)[k], c) {
      FlatMapMember(Starts(w), done, c);
      forall k | 0 <= k < n ensures c in Starts(w)(done[k]) <==> Leaves(w, Agenda(plan)[k], c) { }
    }
  }

  // ---- the run as it is executed

  method AwaitReadiness(probes: seq<bool>) returns (ready: bool)
    ensures ready == (true in probes)
  {
    ready := false;
    for i := 0 to |probes|
      invariant !ready && true !in probes[..i]
    {
      if probes[i] { return true; }
    }
  }

  method ProvisionDependencies(plan: Plan, w: World) returns (p: Progress)
    ensures p == Through(plan, w, BEFORE, Dependencies(|plan.dependencies|))
  {
    var steps: seq<Step>, containers: seq<Container> := [], [];
    ghost var all := Dependencies(|plan.dependencies|);
    for i := 0 to |plan.dependencies|
      invariant Through(plan, w, BEFORE, all) == Through(plan, w, Progress(steps, containers, None), all[i..])
    {
      assert all[i..][0] == Dependency(i) && all[i..][1..] == all[i + 1..];
      if !w.serviceStarts(i) {
        p := Progress(steps + [Step(Dependency(i), false)], containers, Some(FailedAs(DependencyUnavailable)));
        assert containers + [] == containers;
        ThroughStopped(plan, w, p, all[i + 1..]);
        return;
      }
      containers := containers + [Service(i)];
      var ready := AwaitReadiness(w.probes(i));
      if !ready {
        p := Progress(steps + [Step(Dependency(i), false)], containers, Some(FailedAs(DependencyUnavailable)));
        ThroughStopped(plan, w, p, all[i + 1..]);
        return;
      }
      steps := steps + [Step(Dependency(i), true)];
    }
    p := Progress(steps, containers, None);
    assert all[|all|..] == [];
  }

  method RunCommands(plan: Plan, w: World, before: Progress, phase: Phase, n: nat) returns (p: Progress)
    ensures p == Through(plan, w, before, Commands(phase, n))
  {
    ghost var all := Commands(phase, n);
    if before.stop.Some? {
      ThroughStopped(plan, w, before, all);
      return before;
    }
    var steps := before.steps;
    for i := 0 to n
      invariant Through(plan, w, before, all) == Through(plan, w, Progress(steps, before.containers, None), all[i..])
    {
      assert all[i..][0] == RunCommand(phase, i) && all[i..][1..] == all[i + 1..];
      assert before.containers + [] == before.containers;
      match w.answer(phase, i) {
        case RunnerBroke =>
          p := Progress(steps, before.containers, Some(Broke));
          ThroughStopped(plan, w, p, all[i + 1..]);
          return;
        case Exit(code) =>
          steps := steps + [Step(RunCommand(phase, i), code == 0)];
          if code != 0 {
            p := Progress(steps, before.containers,
                Some(FailedAs(if phase == Prepare then EnvironmentBootFailed else BuildFailed)));
            ThroughStopped(plan, w, p, all[i + 1..]);
            return;
          }
      }
    }
    p := Progress(steps, before.containers, None);
    assert all[|all|..] == [];
  }

  method ProbeOnce(paths: seq<ProbePath>, answer: ProbePath -> Option<int>) returns (found: Option<ProbePath>)
    ensures found == FirstAnswer(paths, answer)
  {
    for i := 0 to |paths|
      invariant FirstAnswer(paths, answer) == FirstAnswer(paths[i..], answer)
    {
      assert paths[i..][0] == paths[i] && paths[i..][1..] == paths[i + 1..];
      var response := answer(paths[i]);
      if response.Some? && response.value < 500 { return Some(paths[i]); }
    }
    found := None;
  }

  method AwaitAnswer(paths: seq<ProbePath>, rounds: seq<Round>) returns (health: Health)
    ensures health == HealthOf(paths, rounds)
  {
    for i := 0 to |rounds|
      invariant HealthOf(paths, rounds) == HealthOf(paths, rounds[i..])
    {
      assert rounds[i..][0] == rounds[i] && rounds[i..][1..] == rounds[i + 1..];
      var ready := ProbeOnce(paths, rounds[i].answer);
      if ready.Some? { return Answered(ready.value); }
      if !rounds[i].running { return Exited; }
    }
    health := NeverAnswered;
  }

  method StartAndVerify(plan: Plan, w: World, before: Progress) returns (p: Progress)
    requires before.stop.None?
    ensures p == Through(plan, w, before, [StartApplication, AwaitHealth, RunCollection])
  {
    Unrolled(plan, w, before);
    var steps, containers := before.steps, before.containers;
    if !w.applicationStarts {
      return Progress(steps + [Step(StartApplication, false)], containers, Some(FailedAs(EnvironmentBootFailed)));
    }
    containers := containers + [Application];
    steps := steps + [Step(StartApplication, true)];
    var health := AwaitAnswer(plan.health, w.rounds);
    if !health.Answered? {
      steps := steps + [Step(AwaitHealth, false)];
      return Progress(steps, containers,
          Some(FailedAs(if health.Exited? then EnvironmentBootFailed else HealthCheckFailed)));
    }
    steps := steps + [Step(AwaitHealth, true)];
    match w.collection {
      case CollectionBroke => p := Progress(steps, containers, Some(Broke));
      case CollectionRan(proven, passed, complete, _) =>
        steps := steps + [Step(RunCollection, proven)];
        p := Progress(steps, containers, if proven then None else Some(FailedAs(CollectionFailure(passed, complete))));
    }
  }

  lemma Unrolled(plan: Plan, w: World, p: Progress)
    ensures Through(plan, w, p, [StartApplication, AwaitHealth, RunCollection]) ==
            Advance(plan, w, Advance(plan, w, Advance(plan, w, p, StartApplication), AwaitHealth), RunCollection)
    ensures forall c: seq<Container> :: c + [] == c
  {
    var all := [StartApplication, AwaitHealth, RunCollection];
    assert all[1..] == [AwaitHealth, RunCollection] && all[1..][1..] == [RunCollection] && all[1..][1..][1..] == [];
    assert forall q :: Through(plan, w, q, [RunCollection]) == Advance(plan, w, q, RunCollection) by {
      assert [RunCollection][1..] == [];
    }
  }

  lemma AgendaUnfolds(plan: Plan, w: World)
    ensures var d := Through(plan, w, BEFORE, Dependencies(|plan.dependencies|));
            var i := Through(plan, w, d, Commands(Install, |plan.install|));
            var b := Through(plan, w, i, Commands(Build, |plan.build|));
            var c := Through(plan, w, b, Commands(Prepare, |plan.prepare|));
            Through(plan, w, BEFORE, Agenda(plan))
              == Through(plan, w, c, [StartApplication, AwaitHealth, RunCollection])
  {
    var last := [StartApplication, AwaitHealth, RunCollection];
    var deps, inst := Dependencies(|plan.dependencies|), Commands(Install, |plan.install|);
    var bld, prep := Commands(Build, |plan.build|), Commands(Prepare, |plan.prepare|);
    ThroughConcat(plan, w, BEFORE, deps, inst + (bld + (prep + last)));
    var d := Through(plan, w, BEFORE, deps);
    ThroughConcat(plan, w, d, inst, bld + (prep + last));
    var i := Through(plan, w, d, inst);
    ThroughConcat(plan, w, i, bld, prep + last);
    ThroughConcat(plan, w, Through(plan, w, i, bld), prep, last);
  }

  /** Whatever happens after the runtime was asked to prepare, the teardown runs, once, with what was started. */
  method ExecuteEnvironment(plan: Plan, scenarios: nat, w: World) returns (x: Execution)
    ensures x == ExecutionOf(plan, scenarios, w)
  {
    if !plan.executable { return Execution(Unproven(PlanUnresolved), []); }
    if scenarios == 0 { return Execution(Unproven(NoScenarios), []); }
    if UnknownReference(plan) { return Execution(Unproven(PlanUnresolved), []); }
    if !w.runtimeUp { return Execution(Unproven(InfrastructureUnavailable), [[]]); }
    AgendaUnfolds(plan, w);
    var p := ProvisionDependencies(plan, w);
    p := RunCommands(plan, w, p, Install, |plan.install|);
    p := RunCommands(plan, w, p, Build, |plan.build|);
    p := RunCommands(plan, w, p, Prepare, |plan.prepare|);
    if p.stop.None? {
      p := StartAndVerify(plan, w, p);
    } else {
      ThroughStopped(plan, w, p, [StartApplication, AwaitHealth, RunCollection]);
    }
    x := Execution(Ended(w, p), [p.containers]);
  }

  // ---- comparison with a reference implementation

  datatype Compared = Compared(evidence: Evidence, parity: Report)

  /** The subject's own failure is reported first, then an unproven reference, then a difference. */
  function CompareEvidence(reference: Evidence, subject: Evidence): Compared
  {
    var parity := Comparison(reference.reports, subject.reports);
    var failure :=
      if subject.failure.Some? then subject.failure
      else if !reference.proven then Some(ReferenceNotProven)
      else if !parity.matches then Some(ParityMismatch)
      else None;
    Compared(subject.(proven := failure.None?, failure := failure), parity)
  }

  method ExecuteComparison(referencePlan: Plan, referenceWorld: World, plan: Plan, w: World,
      scenarios: nat) returns (r: Option<Compared>)
    ensures var reference, subject := ExecutionOf(referencePlan, scenarios, referenceWorld).ending,
        ExecutionOf(plan, scenarios, w).ending;
            r == if reference.Threw? || subject.Threw?
                 then None else Some(CompareEvidence(reference.evidence, subject.evidence))
  {
    var reference := ExecuteEnvironment(referencePlan, scenarios, referenceWorld);
    if reference.ending.Threw? { return None; }
    var subject := ExecuteEnvironment(plan, scenarios, w);
    if subject.ending.Threw? { return None; }
    var left, right := reference.ending.evidence, subject.ending.evidence;
    var parity := CompareExecutions(left.reports, right.reports);
    var failure := right.failure;
    if failure.None? && !left.proven { failure := Some(ReferenceNotProven); }
    if failure.None? && !parity.matches { failure := Some(ParityMismatch); }
    r := Some(Compared(right.(proven := failure.None?, failure := failure), parity));
  }

  predicate Returns(plan: Plan, scenarios: nat, w: World) { ExecutionOf(plan, scenarios, w).ending.Returned? }

  function EvidenceOf(plan: Plan, scenarios: nat, w: World): Evidence
    requires Returns(plan, scenarios, w)
  {
    ExecutionOf(plan, scenarios, w).ending.evidence
  }

  /** Steps are identified by their keys, and bodies are what a JSON parser gives. */
  predicate Comparable(steps: seq<ComparableStep>) { UniqueKeys(steps) && WellFormedBodies(steps) }

  /**
   * A comparison is proven exactly when everything planned passed in both environments and both behaved the same: the
   * same steps, and on each the same outcome, status, content type and normalised body, none of it truncated.
   */
  lemma ComparisonProvenExactlyWhen(referencePlan: Plan, referenceWorld: World, plan: Plan, w: World, scenarios: nat)
    requires Returns(referencePlan, scenarios, referenceWorld) && Returns(plan, scenarios, w)
    requires Comparable(EvidenceOf(referencePlan, scenarios, referenceWorld).reports)
    requires Comparable(EvidenceOf(plan, scenarios, w).reports)
    ensures var reference, subject := EvidenceOf(referencePlan, scenarios, referenceWorld),
        EvidenceOf(plan, scenarios, w);
      && (CompareEvidence(reference, subject).evidence.proven <==>
            reference.proven && subject.proven && SameBehaviour(reference.reports, subject.reports))
      && (CompareEvidence(reference, subject).evidence.proven
        <==> CompareEvidence(reference, subject).evidence.failure.None?)
  {
    VerdictIsHonest(referencePlan, scenarios, referenceWorld);
    VerdictIsHonest(plan, scenarios, w);
    MatchExactlyWhenSameBehaviour(EvidenceOf(referencePlan, scenarios, referenceWorld).reports,
        EvidenceOf(plan, scenarios, w).reports);
  }
}
