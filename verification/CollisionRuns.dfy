/** Two runs in which a caller's own operation identifier carries the resume marker. */
module CollisionRuns {
  import opened Common
  import opened Events
  import opened JobInvariant
  import opened Jobs
  import opened NameCollisions
  import opened Protocol
  import opened Readiness
  import opened Records
  import opened Recovery

  const T0 := Task(Planned, 0, 0, GatePlan(false, false, false, false))
  const WORKING := T0.(state := Implementing)
  const FRESH := Store(false, [], [], map[0 := T0, 1 := T0], [])
  const OWN := OperationId(0, Plain)
  const NEXT := OperationId(0, Attempt(1))

  function Launched(task: TaskId, op: OperationId, run: RunId, at: Instant): Job
  {
    NewJob(task, Implementation, op, 0, 0, at).(branch := Some(0), run := Some(run), status := JobStatus.Dispatched)
  }

  function Opened(task: TaskId, op: OperationId): Run { Run(task, op, RunStatus.Running, None) }

  function Launching(task: TaskId, op: OperationId): Event
  {
    ImplementationEnqueued(task, op, 0, true, NoDependency, Started(None))
  }

  const UNSEEN := Observation(None, false, Started(None), 0)

  function Passed(id: JobId): Event { Reconciled(id, None, false, Started(None)) }

  lemma OneMoreEvent(s: Store, trace: Trace, m: Moment)
    ensures After(s, trace + [m]) == Step(After(s, trace), m.event, m.now)
  {
    assert (trace + [m])[..|trace|] == trace;
  }

  /** Two tasks launched at once, the second one's caller using a name of the first one's attempts. */
  function BothLaunched(theirs: OperationId): Store
  {
    FRESH.(jobs := [Launched(0, OWN, 0, 0), Launched(1, theirs, 1, 0)], runs := [Opened(0, OWN), Opened(1, theirs)],
           tasks := map[0 := WORKING, 1 := WORKING])
  }

  function Both(theirs: OperationId): Trace { [Moment(Launching(0, OWN), 0)] + [Moment(Launching(1, theirs), 0)] }

  const FIRST := FRESH.(jobs := [Launched(0, OWN, 0, 0)], runs := [Opened(0, OWN)],
    tasks := map[0 := WORKING, 1 := T0])

  lemma FirstLaunches()
    ensures Step(FRESH, Launching(0, OWN), 0) == FIRST
  {
  }

  lemma SecondLaunches(theirs: OperationId)
    requires theirs != OWN
    ensures Step(FIRST, Launching(1, theirs), 0) == BothLaunched(theirs)
  {
    assert FIRST.jobs[..0] == [];
    assert FindByOp(FIRST.jobs, theirs).None? && !InFlight(FIRST.jobs, 1) && InheritedCommit(FIRST.jobs, 1, 0) == None;
    assert FIRST.tasks[1 := WORKING] == BothLaunched(theirs).tasks;
  }

  lemma BothLaunch(theirs: OperationId)
    requires theirs != OWN
    ensures After(FRESH, Both(theirs)) == BothLaunched(theirs)
  {
    var none: Trace, one := [], Moment(Launching(0, OWN), 0);
    assert none + [one] == [one];
    FirstLaunches();
    SecondLaunches(theirs);
    OneMoreEvent(FRESH, none, one);
    OneMoreEvent(FRESH, [one], Moment(Launching(1, theirs), 0));
  }

  // ---- the work is lost and the pass throws

  lemma FirstJobStalls(s: Store, now: Instant)
    requires s.jobs != [] && s.jobs[0] == Launched(0, OWN, 0, 0) && now > 15 * MINUTE
    ensures ResumesStall(s, 0, UNSEEN.(now := now))
  {
    assert Decide(s.jobs[0], None, now) == Terminalize(JobStatus.Failed, NeverStarted);
  }

  lemma SecondJobHoldsTheName()
    ensures Holder(BothLaunched(NEXT), 0) == Some(1)
  {
    var jobs := BothLaunched(NEXT).jobs;
    assert jobs[..1][..0] == [] && jobs[..1] == [jobs[0]];
    assert FindByOp(jobs[..1], NEXT).None?;
  }

  lemma BothBelong(theirs: OperationId)
    ensures OneInFlight(BothLaunched(theirs).jobs) && RunsBelong(BothLaunched(theirs))
  {
  }

  /**
   * The marker is not reserved, and this run shows what that costs. Sixteen minutes later the first job is found never
   * to have started: it ends, its next attempt's identifier is taken by a job that was never resumed, and the pass
   * throws. Its run is still open and the task still implementing: the work is neither carried on nor stopped.
   */
  lemma MarkedNameLosesWork()
    ensures !Plainly(Both(NEXT))
    ensures var s := After(FRESH, Both(NEXT));
            var r := Iterate(s, 0, UNSEEN.(now := 16 * MINUTE));
            && r.threw && !Conserves(s, r.store) && OneInFlight(r.store.jobs)
            && r.store.tasks == s.tasks && r.store.runs == s.runs && !Active(r.store.jobs[0].status)
  {
    BothLaunch(NEXT);
    assert !PlainlyNamed(Both(NEXT)[1].event);
    var s, o := BothLaunched(NEXT), UNSEEN.(now := 16 * MINUTE);
    FirstJobStalls(s, o.now);
    SecondJobHoldsTheName();
    BothBelong(NEXT);
    ContinuesExactlyWhenNameIsFree(s, 0, o);
    EndedJobIsDead(s, 0, o);
    KeepsOneInFlightExactlyWhen(s, 0, o);
    ConservesExactlyWhen(s, 0, o);
  }

  // ---- two jobs of one task in flight

  const OTHER := OperationId(0, Attempt(9))
  const LATER := OperationId(5, Plain)

  /** The second task's job, given up on after sixteen minutes. */
  const STALLED := EndStalled(Launched(1, OTHER, 1, 0), JobStatus.Failed, NeverStarted, 16 * MINUTE)

  /** Its next attempt, dispatched in the same iteration. */
  const ATTEMPT := NextAttempt(Launched(1, OTHER, 1, 0), 1, NeverStarted, 16 * MINUTE).(status := JobStatus.Dispatched)

  const CANCELLED := ATTEMPT.(
    status := JobStatus.Cancelled, finishedAt := Some(17 * MINUTE), updatedAt := 17 * MINUTE,
        error := Some(CancelledByOperator))

  function Resumed(): Store
  {
    var s := BothLaunched(OTHER);
    s.(jobs := [s.jobs[0], STALLED, ATTEMPT])
  }

  function Stopped(): Store
  {
    var s := BothLaunched(OTHER);
    s.(jobs := [s.jobs[0], STALLED, CANCELLED], runs := [s.runs[0], s.runs[1].(status := RunStatus.Cancelled)])
  }

  function Relaunched(): Store
  {
    var s := Stopped();
    s.(jobs := s.jobs + [Launched(1, LATER, 2, 18 * MINUTE)], runs := s.runs + [Opened(1, LATER)])
  }

  lemma SecondStallResumes()
    ensures Step(BothLaunched(OTHER), Passed(1), 16 * MINUTE) == Resumed()
  {
    var s, now := BothLaunched(OTHER), 16 * MINUTE;
    assert Decide(s.jobs[1], None, now) == Terminalize(JobStatus.Failed, NeverStarted);
    var ended := PutJob(s, 1, STALLED);
    assert ended.jobs[..1] == [s.jobs[0]] && ended.jobs[..1][..0] == [];
    assert FindByOp(ended.jobs[..1], NEXT).None? && FindByOp(ended.jobs, NEXT).None?;
    var created := ended.jobs + [ATTEMPT.(status := JobStatus.Queued)];
    assert created[2 := ATTEMPT] == Resumed().jobs;
  }

  lemma AttemptIsCancelled()
    ensures Step(Resumed(), JobCancelled(2), 17 * MINUTE) == Stopped()
  {
  }

  lemma TaskIsLaunchedAgain()
    ensures Step(Stopped(), Launching(1, LATER), 18 * MINUTE) == Relaunched()
  {
    var s := Stopped();
    assert s.jobs[..2] == [s.jobs[0], s.jobs[1]] && s.jobs[..2][..1] == [s.jobs[0]] && s.jobs[..2][..1][..0] == [];
    assert FindByOp(s.jobs[..2][..1], LATER).None? && FindByOp(s.jobs[..2], LATER).None?
        && FindByOp(s.jobs, LATER).None?;
    assert InheritedCommit(s.jobs[..2][..1], 1, 0).None? && InheritedCommit(s.jobs[..2], 1, 0).None?
        && InheritedCommit(s.jobs, 1, 0).None?;
    assert !InFlight(s.jobs, 1);
    assert s.tasks[1 := WORKING] == s.tasks;
  }

  /** Both tasks are launched, the second one's attempt is cancelled, and its operator launches it again. */
  function Relaunching(): Trace
  {
    Both(OTHER) + [Moment(Passed(1), 16 * MINUTE)] + [Moment(JobCancelled(2), 17 * MINUTE)]
      + [Moment(Launching(1, LATER), 18 * MINUTE)]
  }

  lemma RelaunchingLeads()
    ensures After(FRESH, Relaunching()) == Relaunched()
  {
    BothLaunch(OTHER);
    SecondStallResumes();
    AttemptIsCancelled();
    TaskIsLaunchedAgain();
    OneMoreEvent(FRESH, Both(OTHER), Moment(Passed(1), 16 * MINUTE));
    OneMoreEvent(FRESH, Both(OTHER) + [Moment(Passed(1), 16 * MINUTE)], Moment(JobCancelled(2), 17 * MINUTE));
    OneMoreEvent(FRESH, Both(OTHER) + [Moment(Passed(1), 16 * MINUTE)] + [Moment(JobCancelled(2), 17 * MINUTE)],
                 Moment(Launching(1, LATER), 18 * MINUTE));
  }

  lemma AttemptHoldsTheName()
    ensures Holder(Relaunched(), 0) == Some(2)
  {
    var jobs := Relaunched().jobs;
    assert jobs[..3][..2][..1] == [jobs[0]] && jobs[..3][..2] == [jobs[0], jobs[1]] && jobs[..3][..2][..1][..0] == [];
    assert FindByOp(jobs[..3][..2][..1], NEXT).None? && FindByOp(jobs[..3][..2], NEXT).None?;
    assert FindByOp(jobs[..3], NEXT) == Some(2);
  }

  lemma RelaunchedBelongs()
    ensures OneInFlight(Relaunched().jobs) && RunsBelong(Relaunched())
  {
  }

  lemma CancelledAttemptIsRevived()
    ensures var r := Iterate(Relaunched(), 0, UNSEEN.(now := 19 * MINUTE));
            && !r.threw && |r.store.jobs| == 4 && r.store.jobs[3] == Relaunched().jobs[3]
            && r.store.jobs[2].task == 1 && Active(r.store.jobs[2].status)
            && r.store.jobs[0].task == 0 && !Active(r.store.jobs[0].status) && r.store.jobs[1] == Relaunched().jobs[1]
  {
    var s, o := Relaunched(), UNSEEN.(now := 19 * MINUTE);
    AttemptHoldsTheName();
    FirstJobStalls(s, o.now);
    assert Due(s.jobs[2], o.now);
    HeldNameRevives(s, 0, o, 2);
    EndedJobIsDead(s, 0, o);
  }

  lemma FirstWorkIsLost()
    ensures !Conserves(Relaunched(), Iterate(Relaunched(), 0, UNSEEN.(now := 19 * MINUTE)).store)
  {
    var s, o := Relaunched(), UNSEEN.(now := 19 * MINUTE);
    RelaunchedBelongs();
    AttemptHoldsTheName();
    FirstJobStalls(s, o.now);
    ConservesExactlyWhen(s, 0, o);
    assert Due(s.jobs[2], o.now) && !AtRest(s, s.jobs[0]);
  }

  lemma SecondTaskHasTwo()
    ensures var jobs := Iterate(Relaunched(), 0, UNSEEN.(now := 19 * MINUTE)).store.jobs;
            && |jobs| == 4 && jobs[2].task == jobs[3].task == 1 && Active(jobs[2].status) && Active(jobs[3].status)
            && !InFlight(jobs, 0)
  {
    CancelledAttemptIsRevived();
    assert Relaunched().jobs[1].task == 1 && Relaunched().jobs[3] == Launched(1, LATER, 2, 18 * MINUTE);
  }

  /**
   * One job of each task is in flight when the first task's job is found never to have started. Its next identifier is
   * that of the second task's cancelled attempt, so the pass dispatches that one again. Nothing throws; the second task
   * has two jobs in flight, and the first one's work is neither carried on nor stopped.
   */
  lemma MarkedNamePutsTwoInFlight()
    ensures var s := After(FRESH, Relaunching());
            var r := Iterate(s, 0, UNSEEN.(now := 19 * MINUTE));
            && OneInFlight(s.jobs) && !r.threw
            && |r.store.jobs| == 4 && r.store.jobs[2].task == r.store.jobs[3].task == 1
            && Active(r.store.jobs[2].status) && Active(r.store.jobs[3].status)
            && !Conserves(s, r.store) && !InFlight(r.store.jobs, 0)
  {
    RelaunchingLeads();
    RelaunchedBelongs();
    CancelledAttemptIsRevived();
    SecondTaskHasTwo();
    FirstWorkIsLost();
  }
}
