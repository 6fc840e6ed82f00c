/** Worker load in the whole system of scheduler, workers and network: it is conserved
    exactly as long as every report that arrives is harmless, which is the case while no
    dispatch that a worker accepted is put back to waiting. */
module SystemLoad {
  import opened Common
  import opened RuntimeModel
  import opened Moves
  import opened Handlers
  import opened Runs
  import opened LoadConservation
  import opened HarmlessReports
  import opened Delivery

  // ----------------------------------------------- whatever the network does to answers

  ghost predicate Placed(s: State, i: int) { i in s.instances && s.instances[i].worker.Some? }

  /** Instances in flight are with some worker, and only known workers are recorded. */
  ghost predicate Manned(s: State) {
    Attached(s) && forall i :: Placed(s, i) ==> s.instances[i].worker.value in s.workers
  }

  /** Only an instance that has been with a worker goes back into flight. */
  ghost predicate Revivable(s: State, m: Move)
    requires Enabled(s, m)
  {
    m.Settle? && InFlight(m.st) ==> Placed(s, m.id)
  }

  lemma MoveKeepsKnown(s: State, m: Move)
    requires WellFormed(s) && Manned(s) && Enabled(s, m)
    ensures forall i :: Placed(Apply(s, m), i) ==> Apply(s, m).instances[i].worker.value in Apply(s, m).workers
  {
    SameWorkers(s, m);
  }

  lemma MoveKeepsManned(s: State, m: Move)
    requires WellFormed(s) && Manned(s) && Enabled(s, m) && Revivable(s, m)
    ensures Manned(Apply(s, m)) && forall i :: Placed(s, i) ==> Placed(Apply(s, m), i)
  {
    MoveKeepsKnown(s, m);
    MoveKeepsAttached(s, m);
  }

  lemma {:induction false} PathKeepsManned(s: State, ms: seq<Move>)
    requires Sound(s) && Manned(s) && Path(s, ms) && Quiet(ms)
    ensures Manned(ApplyAll(s, ms)) && forall i :: Placed(s, i) ==> Placed(ApplyAll(s, ms), i)
    decreases |ms|
  {
    if ms != [] {
      MoveKeepsWellFormed(s, ms[0]);
      MoveKeepsLinks(s, ms[0]);
      MoveKeepsManned(s, ms[0]);
      PathKeepsManned(Apply(s, ms[0]), ms[1..]);
    }
  }

  lemma StepKeepsManned(s: State, e: Event)
    requires Sound(s) && Manned(s) && Possible(s, e)
    requires e.Reported? && Effective(s, e.report) && InFlight(e.report.status) ==> Placed(s, s.bySchedule[e.report.schedule])
    ensures Manned(Step(s, e)) && forall i :: Placed(s, i) ==> Placed(Step(s, e), i)
  {
    var ms := EventMoves(s, e);
    if ms != [] && (e.Reported? || e.CancelRequest?) {
      MoveKeepsWellFormed(s, ms[0]);
      MoveKeepsLinks(s, ms[0]);
      MoveKeepsManned(s, ms[0]);
      PathKeepsManned(Apply(s, ms[0]), ms[1..]);
    } else {
      PathKeepsManned(s, ms);
    }
  }

  /** What a worker has accepted was recorded as dispatched to some worker. */
  ghost predicate AllPlaced(s: State, jobs: set<Job>) {
    forall job :: job in jobs ==> Listed(s, job) && Placed(s, s.bySchedule[job.0])
  }

  ghost predicate Crewed(sys: System) { Invariant(sys) && Manned(sys.core) && AllPlaced(sys.core, sys.accepted) }

  lemma CoreKeepsCrewed(sys: System, e: Event)
    requires Crewed(sys) && Possible(sys.core, e) && DistinctIds(Step(sys.core, e)) && (e.Reported? ==> e.report in sys.wire)
    ensures var core := Step(sys.core, e); Manned(core) && AllPlaced(core, sys.accepted + DispatchedJobs(core))
  {
    var core := Step(sys.core, e);
    if e.Reported? { assert FromWorker(sys, e.report) && JobOf(e.report) in sys.accepted; }
    StepKeepsManned(sys.core, e);
    StepKeeps(sys.core, e);
    CoreStep(sys.core, e);
    forall job | job in sys.accepted + DispatchedJobs(core) ensures Listed(core, job) && Placed(core, core.bySchedule[job.0]) {
      if job in sys.accepted {
        assert Listed(sys.core, job);
        IndexIsStable(sys.core, core, job.0);
      } else {
        DispatchedAreListed(core, job);
      }
    }
  }

  lemma NextKeepsCrewed(sys: System, e: SystemEvent)
    requires Crewed(sys) && Occurs(sys, e)
    ensures Crewed(Next(sys, e))
  {
    assert Invariant(Next(sys, e)) by { NextKeeps(sys, e); }
    match e
    case Scheduler(event) => CoreKeepsCrewed(sys, event);
    case Deliver(r, env) => CoreKeepsCrewed(sys, Reported(r, env));
    case LostAnswer(job) => AllPlacedGrows(sys.core, sys.accepted, job);
    case _ =>
  }

  lemma AllPlacedGrows(s: State, jobs: set<Job>, job: Job)
    requires AllPlaced(s, jobs) && Listed(s, job) && Placed(s, s.bySchedule[job.0])
    ensures AllPlaced(s, jobs + {job})
  {}

  // ------------------------------------------------------------- exactly when conserved

  /** In every state of the run every worker's load is what it has in flight plus what
      cancelling has leaked. */
  ghost predicate AlwaysConserved(sys: System, events: seq<SystemEvent>)
    requires IsSystemRun(sys, events)
    decreases |events|
  {
    Conserved(sys.core) && (events != [] ==> AlwaysConserved(Next(sys, events[0]), events[1..]))
  }

  /** Every report is harmless to the scheduler's state when it arrives. */
  ghost predicate ArrivalsHarmless(sys: System, events: seq<SystemEvent>)
    requires IsSystemRun(sys, events)
    decreases |events|
  {
    events != [] ==>
      && (events[0].Deliver? ==> Harmless(sys.core, events[0].report))
      && ArrivalsHarmless(Next(sys, events[0]), events[1..])
  }

  lemma AccountedIsConserved(s: State)
    requires Accounted(s)
    ensures Conserved(s)
  {
    ConservedIffEven(s);
  }

  /** A harmful report in the system always shows in some worker's load. */
  lemma HarmShows(sys: System, r: Report, env: Env)
    requires Crewed(sys) && Accounted(sys.core) && Occurs(sys, Deliver(r, env)) && !Harmless(sys.core, r)
    ensures !Conserved(ReportStatus(sys.core, r, env).0)
  {
    assert FromWorker(sys, r) && Placed(sys.core, sys.core.bySchedule[r.schedule]);
    var w := Upset(Resolve(sys.core, r.schedule).value, r).value;
    HarmUpsets(sys.core, r, w);
    HarmStays(sys.core, r, env, w);
    NextKeepsCrewed(sys, Deliver(r, env));
    ConservedIffEven(ReportStatus(sys.core, r, env).0);
  }

  lemma NextConservesIff(sys: System, e: SystemEvent)
    requires Crewed(sys) && Accounted(sys.core) && Occurs(sys, e)
    ensures var s', ok := Next(sys, e).core, e.Deliver? ==> Harmless(sys.core, e.report);
            (Conserved(s') <==> ok) && (Accounted(s') <==> ok)
  {
    match e
    case Scheduler(event) =>
      StepKeepsAccounted(sys.core, event);
      AccountedIsConserved(Step(sys.core, event));
    case Deliver(r, env) =>
      assert FromWorker(sys, r);
      ReportBalancesIff(sys.core, r, env);
      if Harmless(sys.core, r) { AccountedIsConserved(ReportStatus(sys.core, r, env).0); } else { HarmShows(sys, r, env); }
    case _ => AccountedIsConserved(sys.core);
  }

  lemma {:induction false} ConservedIff(sys: System, events: seq<SystemEvent>)
    requires Crewed(sys) && Accounted(sys.core) && IsSystemRun(sys, events)
    ensures AlwaysConserved(sys, events) <==> ArrivalsHarmless(sys, events)
    ensures ArrivalsHarmless(sys, events) ==> Accounted(RunSystem(sys, events).core)
    decreases |events|
  {
    AccountedIsConserved(sys.core);
    if events != [] {
      var sys1 := Next(sys, events[0]);
      NextKeepsCrewed(sys, events[0]);
      NextConservesIff(sys, events[0]);
      if Accounted(sys1.core) { ConservedIff(sys1, events[1..]); }
    }
  }

  lemma InitialIsAccounted(sys: System)
    requires Initial(sys)
    ensures Crewed(sys) && Accounted(sys.core)
  {
    InitialIsOk(sys);
    assert forall v :: Occupants(sys.core.instances, sys.core.leaked, v) == {};
  }

  /** Whatever the network does, dispatches included: loads are conserved in every state
      of a run if and only if every report is harmless when it arrives. */
  lemma SystemLoadIsConservedIff(sys: System, events: seq<SystemEvent>)
    requires Initial(sys) && IsSystemRun(sys, events)
    ensures AlwaysConserved(sys, events) <==> ArrivalsHarmless(sys, events)
  {
    InitialIsAccounted(sys);
    ConservedIff(sys, events);
  }

  /** As long as arriving reports are harmless, a worker's load is what it has in flight
      plus what cancelling has leaked, and within its maximum. */
  lemma SystemLoadIsConserved(sys: System, events: seq<SystemEvent>, w: WorkerId)
    requires Initial(sys) && IsSystemRun(sys, events) && ArrivalsHarmless(sys, events)
    requires w in RunSystem(sys, events).core.workers
    ensures var s := RunSystem(sys, events).core; var load := s.workers[w].load;
            && load == |InFlightOn(s, w)| + |LeakedOn(s, w)|
            && (load == 0 || load <= s.workers[w].max)
  {
    InitialIsAccounted(sys);
    ConservedIff(sys, events);
    AccountedIsConserved(RunSystem(sys, events).core);
  }

  // ------------------------------------------------------------- which losses are harmless

  /** Instance i was accepted by w and is running there or over. */
  ghost predicate Assigned(s: State, i: int, w: WorkerId) {
    && i in s.instances && s.instances[i].worker == Some(w)
    && (InFlight(s.instances[i].status) || IsTerminal(s.instances[i].status))
  }

  ghost predicate JobAssigned(s: State, job: Job) { Listed(s, job) && Assigned(s, s.bySchedule[job.0], job.1) }

  ghost predicate AllAssigned(s: State, jobs: set<Job>) { forall job :: job in jobs ==> JobAssigned(s, job) }

  /** The accounts balance, and what a worker has accepted is assigned to it. */
  ghost predicate Staffed(sys: System) {
    Crewed(sys) && Accounted(sys.core) && AllAssigned(sys.core, sys.accepted)
  }

  lemma MoveKeepsAssigned(s: State, m: Move, i: int, w: WorkerId)
    requires WellFormed(s) && Enabled(s, m) && Regular(s, m) && Assigned(s, i, w)
    ensures Assigned(Apply(s, m), i, w)
  {}

  lemma {:induction false} QuietKeepsAssigned(s: State, ms: seq<Move>, i: int, w: WorkerId)
    requires Sound(s) && Path(s, ms) && Quiet(ms) && Assigned(s, i, w)
    ensures Assigned(ApplyAll(s, ms), i, w)
    decreases |ms|
  {
    if ms != [] {
      MoveKeepsWellFormed(s, ms[0]);
      MoveKeepsLinks(s, ms[0]);
      MoveKeepsAssigned(s, ms[0], i, w);
      QuietKeepsAssigned(Apply(s, ms[0]), ms[1..], i, w);
    }
  }

  lemma StepKeepsAssigned(s: State, e: Event, i: int, w: WorkerId)
    requires Accounted(s) && Proper(s, e) && Assigned(s, i, w)
    ensures Assigned(Step(s, e), i, w)
  {
    var ms := EventMoves(s, e);
    if ms != [] && (e.Reported? || e.CancelRequest?) {
      MoveKeepsWellFormed(s, ms[0]);
      MoveKeepsLinks(s, ms[0]);
      MoveKeepsAssigned(s, ms[0], i, w);
      QuietKeepsAssigned(Apply(s, ms[0]), ms[1..], i, w);
    } else {
      QuietKeepsAssigned(s, ms, i, w);
    }
  }

  lemma JobStaysAssigned(s: State, e: Event, job: Job)
    requires Traceable(s) && Accounted(s) && Proper(s, e) && DistinctIds(Step(s, e)) && JobAssigned(s, job)
    ensures JobAssigned(Step(s, e), job)
  {
    CoreStep(s, e);
    StepKeeps(s, e);
    IndexIsStable(s, Step(s, e), job.0);
    StepKeepsAssigned(s, e, s.bySchedule[job.0], job.1);
  }

  lemma DispatchedAreAssigned(s: State, job: Job)
    requires Traceable(s) && job in DispatchedJobs(s)
    ensures JobAssigned(s, job)
  {}

  lemma StaffedIsHarmless(sys: System, r: Report)
    requires Staffed(sys) && r in sys.wire
    ensures WorkerSends(r.status) && Harmless(sys.core, r)
  {
    assert FromWorker(sys, r) && JobAssigned(sys.core, JobOf(r));
  }

  lemma CoreKeepsAssigned(sys: System, e: Event)
    requires Staffed(sys) && Proper(sys.core, e) && DistinctIds(Step(sys.core, e))
    ensures var core := Step(sys.core, e); AllAssigned(core, sys.accepted + DispatchedJobs(core))
  {
    var core := Step(sys.core, e);
    CoreStep(sys.core, e);
    forall job | job in sys.accepted + DispatchedJobs(core) ensures JobAssigned(core, job) {
      if job in sys.accepted { JobStaysAssigned(sys.core, e, job); } else { DispatchedAreAssigned(core, job); }
    }
  }

  lemma AcceptedStayAssigned(sys: System, e: SystemEvent)
    requires Staffed(sys) && Occurs(sys, e) && (e.LostAnswer? ==> JobAssigned(sys.core, e.job))
    ensures AllAssigned(Next(sys, e).core, Next(sys, e).accepted)
  {
    match e
    case Scheduler(event) => CoreKeepsAssigned(sys, event);
    case Deliver(r, env) =>
      StaffedIsHarmless(sys, r);
      CoreKeepsAssigned(sys, Reported(r, env));
    case _ =>
  }

  lemma NextKeepsStaffed(sys: System, e: SystemEvent)
    requires Staffed(sys) && Occurs(sys, e) && (e.LostAnswer? ==> JobAssigned(sys.core, e.job))
    ensures Staffed(Next(sys, e)) && (e.Deliver? ==> Harmless(sys.core, e.report))
  {
    if e.Deliver? { StaffedIsHarmless(sys, e.report); }
    NextKeepsCrewed(sys, e);
    NextConservesIff(sys, e);
    AcceptedStayAssigned(sys, e);
  }

  /** An answer is lost only to a dispatch whose instance is in flight or over by then; a
      trigger dispatch taken for refused is over at once. */
  ghost predicate NoneWaits(sys: System, events: seq<SystemEvent>)
    requires IsSystemRun(sys, events)
    decreases |events|
  {
    events != [] ==>
      && (events[0].LostAnswer? ==> JobAssigned(sys.core, events[0].job))
      && NoneWaits(Next(sys, events[0]), events[1..])
  }

  lemma {:induction false} StaffedRunIsHarmless(sys: System, events: seq<SystemEvent>)
    requires Staffed(sys) && IsSystemRun(sys, events) && NoneWaits(sys, events)
    ensures ArrivalsHarmless(sys, events)
    decreases |events|
  {
    if events != [] {
      NextKeepsStaffed(sys, events[0]);
      StaffedRunIsHarmless(Next(sys, events[0]), events[1..]);
    }
  }

  /** Loads are conserved unless the answer to a retry's dispatch is lost: then the retry
      is put back to waiting while its worker executes it. */
  lemma LossesOfTriggersAreHarmless(sys: System, events: seq<SystemEvent>)
    requires Initial(sys) && IsSystemRun(sys, events) && NoneWaits(sys, events)
    ensures ArrivalsHarmless(sys, events) && AlwaysConserved(sys, events)
  {
    InitialIsAccounted(sys);
    StaffedRunIsHarmless(sys, events);
    ConservedIff(sys, events);
  }

  ghost predicate AnswersArrive(events: seq<SystemEvent>) { forall i :: 0 <= i < |events| ==> !events[i].LostAnswer? }

  lemma {:induction false} AnsweredNoneWaits(sys: System, events: seq<SystemEvent>)
    requires IsSystemRun(sys, events) && AnswersArrive(events)
    ensures NoneWaits(sys, events)
    decreases |events|
  {
    if events != [] {
      assert !events[0].LostAnswer?;
      AnsweredNoneWaits(Next(sys, events[0]), events[1..]);
    }
  }

  /** In particular, with no assumption about reports, as long as every dispatch that
      reaches its worker is answered. */
  lemma AnsweredLoadIsConserved(sys: System, events: seq<SystemEvent>)
    requires Initial(sys) && IsSystemRun(sys, events) && AnswersArrive(events)
    ensures ArrivalsHarmless(sys, events) && AlwaysConserved(sys, events)
  {
    AnsweredNoneWaits(sys, events);
    LossesOfTriggersAreHarmless(sys, events);
  }
}
