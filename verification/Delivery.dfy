/** Scheduler, workers and network together. Workers execute what they accepted,
    report over a channel that loses, delays, duplicates and reorders, buffer what
    they could not deliver and flush it later (internal/worker/handler.go,
    internal/worker/local_store.go). Every step of a worker that another process
    can observe is a separate event. */
module Delivery {
  import opened Common
  import opened RuntimeModel
  import opened Moves
  import opened Runs
  import opened DuplicateReports

  type Job = (ScheduleId, WorkerId)

  /** accepted: dispatches a worker has ever accepted, also those whose answer was
      lost, so that the scheduler took them for refused. wire: every report ever
      sent; each may arrive any number of times, or never. acked: reports the
      scheduler has handled without an error. ended: jobs whose execution is over.
      inHand: final reports whose sender still waits for the answer. store: the
      buffer files. flushing: buffered reports being delivered again. */
  datatype System = System(
    core: State, accepted: set<Job>, wire: set<Report>, acked: set<Report>,
    ended: set<Job>, inHand: set<Report>, store: map<Job, Report>, flushing: set<Report>)

  datatype SystemEvent =
    | Scheduler(event: Event)
    | LostAnswer(job: Job)
    | Start(job: Job)
    | Finish(job: Job, status: Status, errorCode: string)
    | Deliver(report: Report, env: Env)
    | Answered(report: Report)
    | TimedOut(report: Report)
    | FlushSend(job: Job)
    | FlushAnswered(report: Report)
    | FlushFailed(report: Report)
    | FlushRestart

  ghost function DispatchedJobs(s: State): set<Job> {
    set i | i in s.instances && s.instances[i].status == Dispatched && s.instances[i].worker.Some?
      :: (s.instances[i].schedule, s.instances[i].worker.value)
  }

  ghost function WithCore(sys: System, core: State): System {
    sys.(core := core, accepted := sys.accepted + DispatchedJobs(core))
  }

  ghost predicate Listed(s: State, job: Job) {
    !job.0.NoId? && job.0 in s.bySchedule && s.bySchedule[job.0] in s.instances
  }

  ghost predicate Occurs(sys: System, e: SystemEvent) {
    match e
    case Scheduler(event) => !event.Reported? && Possible(sys.core, event) && DistinctIds(Step(sys.core, event))
    case LostAnswer(job) => Listed(sys.core, job) && Resolve(sys.core, job.0).value.worker == Some(job.1)
    case Start(job) => job in sys.accepted
    case Finish(job, status, _) => job in sys.accepted && IsTerminal(status) && WorkerSends(status)
    case Deliver(r, env) => r in sys.wire && DistinctIds(ReportStatus(sys.core, r, env).0)
    case Answered(r) => r in sys.inHand && r in sys.acked && r.worker.Some?
    case TimedOut(r) => r in sys.inHand && r.worker.Some?
    case FlushSend(job) => job in sys.store
    case FlushAnswered(r) => r in sys.flushing && r in sys.acked && r.worker.Some?
    case FlushFailed(r) => r in sys.flushing
    case FlushRestart => true
  }

  ghost function JobOf(r: Report): Job
    requires r.worker.Some?
  {
    (r.schedule, r.worker.value)
  }

  ghost function Next(sys: System, e: SystemEvent): System
    requires Occurs(sys, e)
  {
    match e
    case Scheduler(event) => WithCore(sys, Step(sys.core, event))
    case LostAnswer(job) => sys.(accepted := sys.accepted + {job})
    case Start(job) => sys.(wire := sys.wire + {Report(job.0, Some(job.1), Running, "")})
    case Finish(job, status, code) =>
      var r := Report(job.0, Some(job.1), status, code);
      sys.(wire := sys.wire + {r}, ended := sys.ended + {job}, inHand := sys.inHand + {r})
    case Deliver(r, env) =>
      var (core, ok) := ReportStatus(sys.core, r, env);
      WithCore(sys, core).(acked := if ok then sys.acked + {r} else sys.acked)
    case Answered(r) => sys.(inHand := sys.inHand - {r}, store := sys.store - {JobOf(r)})
    case TimedOut(r) => sys.(inHand := sys.inHand - {r}, store := sys.store[JobOf(r) := r])
    case FlushSend(job) => sys.(wire := sys.wire + {sys.store[job]}, flushing := sys.flushing + {sys.store[job]})
    case FlushAnswered(r) => sys.(flushing := sys.flushing - {r}, store := sys.store - {JobOf(r)})
    case FlushFailed(r) => sys.(flushing := sys.flushing - {r})
    case FlushRestart => sys.(flushing := {})
  }

  // ---------------------------------------------------------------- the invariant

  ghost predicate FromWorker(sys: System, r: Report) {
    WorkerSends(r.status) && r.worker.Some? && JobOf(r) in sys.accepted
  }

  ghost predicate Final(sys: System, r: Report) { r in sys.wire && FromWorker(sys, r) && IsTerminal(r.status) }

  ghost predicate Invariant(sys: System) {
    && Traceable(sys.core)
    && (forall job :: job in sys.accepted ==> Listed(sys.core, job))
    && (forall r :: r in sys.wire ==> FromWorker(sys, r))
    && (forall r :: r in sys.acked && r.worker.Some? && IsTerminal(r.status) ==> Settled(sys.core, r.schedule))
    && (forall r :: r in sys.inHand ==> Final(sys, r))
    && (forall r :: r in sys.flushing ==> Final(sys, r))
    && (forall job :: job in sys.store ==> Final(sys, sys.store[job]) && JobOf(sys.store[job]) == job)
    && (forall job :: job in sys.ended ==> Safe(sys, job))
  }

  /** The outcome of an ended job is in its worker's hand, in its worker's store,
      or at the scheduler. */
  ghost predicate Safe(sys: System, job: Job) {
    || (exists r :: r in sys.inHand && r.worker.Some? && JobOf(r) == job)
    || job in sys.store
    || Settled(sys.core, job.0)
  }

  // ------------------------------------------------------------ scheduler progress

  lemma ListedStays(s: State, s': State, job: Job)
    requires Traceable(s) && Traceable(s') && Evolves(s, s') && Listed(s, job)
    ensures Listed(s', job)
  {
    IndexIsStable(s, s', job.0);
  }

  /** What a step of the scheduler preserves for the rest of the system. */
  lemma CoreStep(s: State, e: Event)
    requires Traceable(s) && Possible(s, e) && DistinctIds(Step(s, e))
    ensures Traceable(Step(s, e))
    ensures forall sid :: Settled(s, sid) ==> Settled(Step(s, e), sid)
    ensures forall job :: Listed(s, job) ==> Listed(Step(s, e), job)
  {
    var s' := Step(s, e);
    StepKeeps(s, e);
    StepKeepsIndexed(s, e);
    forall sid | Settled(s, sid) ensures Settled(s', sid) { SettledStays(s, s', sid); }
    forall job | Listed(s, job) ensures Listed(s', job) { ListedStays(s, s', job); }
  }

  lemma DispatchedAreListed(s: State, job: Job)
    requires Traceable(s) && job in DispatchedJobs(s)
    ensures Listed(s, job)
  {}

  lemma DeliveredIsSettled(sys: System, r: Report, env: Env)
    requires Invariant(sys) && r in sys.wire && IsTerminal(r.status) && DistinctIds(ReportStatus(sys.core, r, env).0)
    ensures Settled(ReportStatus(sys.core, r, env).0, r.schedule)
  {
    CoreStep(sys.core, Reported(r, env));
    assert FromWorker(sys, r) && Listed(sys.core, JobOf(r));
    assert Listed(ReportStatus(sys.core, r, env).0, JobOf(r));
    TerminalReportSettles(sys.core, r, env);
  }

  // ------------------------------------------------------------------- every event

  /** A scheduler step carries the invariant over to the new core. */
  lemma CoreChange(sys: System, e: Event)
    requires Invariant(sys) && Possible(sys.core, e) && DistinctIds(Step(sys.core, e))
    ensures Invariant(WithCore(sys, Step(sys.core, e)))
  {
    var core := Step(sys.core, e);
    var sys' := WithCore(sys, core);
    CoreStep(sys.core, e);
    forall job | job in sys'.accepted ensures Listed(core, job) {
      if job in sys.accepted {
        assert Listed(sys.core, job);
      } else {
        DispatchedAreListed(core, job);
      }
    }
    forall r | r in sys.wire ensures FromWorker(sys', r) { assert FromWorker(sys, r); }
    forall r | r in sys.inHand || r in sys.flushing ensures Final(sys', r) { assert Final(sys, r); }
    forall job | job in sys.store ensures Final(sys', sys.store[job]) { assert Final(sys, sys.store[job]); }
    forall job | job in sys.ended ensures Safe(sys', job) { assert Safe(sys, job); }
  }

  lemma DeliverKeeps(sys: System, r: Report, env: Env)
    requires Invariant(sys) && Occurs(sys, Deliver(r, env))
    ensures Invariant(Next(sys, Deliver(r, env)))
  {
    CoreChange(sys, Reported(r, env));
    if IsTerminal(r.status) { DeliveredIsSettled(sys, r, env); }
    var mid := WithCore(sys, ReportStatus(sys.core, r, env).0);
    var sys' := Next(sys, Deliver(r, env));
    forall r | r in sys.wire ensures FromWorker(sys', r) { assert FromWorker(mid, r); }
    forall r | r in sys.inHand || r in sys.flushing ensures Final(sys', r) { assert Final(mid, r); }
    forall job | job in sys.store ensures Final(sys', sys.store[job]) { assert Final(mid, sys.store[job]); }
    forall job | job in sys.ended ensures Safe(sys', job) { assert Safe(mid, job); }
  }

  /** Steps of a worker leave the scheduler alone. */
  lemma WorkerKeeps(sys: System, e: SystemEvent)
    requires Invariant(sys) && Occurs(sys, e) && !e.Scheduler? && !e.Deliver?
    ensures Invariant(Next(sys, e))
  {
    var sys' := Next(sys, e);
    forall r | r in sys'.wire ensures FromWorker(sys', r) {
      if r in sys.wire { assert FromWorker(sys, r); }
    }
    forall r | r in sys'.inHand || r in sys'.flushing ensures Final(sys', r) {
      if r in sys.inHand || r in sys.flushing { assert Final(sys, r); }
    }
    forall job | job in sys'.store ensures Final(sys', sys'.store[job]) && JobOf(sys'.store[job]) == job {
      if job in sys.store { assert Final(sys, sys.store[job]); }
    }
    forall job | job in sys'.ended ensures Safe(sys', job) { EndedStaysSafe(sys, e, job); }
  }

  lemma EndedStaysSafe(sys: System, e: SystemEvent, job: Job)
    requires Invariant(sys) && Occurs(sys, e) && !e.Scheduler? && !e.Deliver? && job in Next(sys, e).ended
    ensures Safe(Next(sys, e), job)
  {
    var sys' := Next(sys, e);
    if job in sys.ended {
      assert Safe(sys, job);
      if !Settled(sys.core, job.0) {
        if e.Answered? || e.FlushAnswered? {
          assert Final(sys, e.report);
          assert Settled(sys.core, e.report.schedule);
        }
        if r :| r in sys.inHand && r.worker.Some? && JobOf(r) == job {
          assert e.TimedOut? && e.report == r ==> job in sys'.store;
          assert !(e.TimedOut? && e.report == r) ==> r in sys'.inHand;
        }
      }
    } else {
      var r := Report(e.job.0, Some(e.job.1), e.status, e.errorCode);
      assert r in sys'.inHand && JobOf(r) == job;
    }
  }

  lemma NextKeeps(sys: System, e: SystemEvent)
    requires Invariant(sys) && Occurs(sys, e)
    ensures Invariant(Next(sys, e))
  {
    match e
    case Scheduler(event) => CoreChange(sys, event);
    case Deliver(r, env) => DeliverKeeps(sys, r, env);
    case _ => WorkerKeeps(sys, e);
  }

  ghost predicate IsSystemRun(sys: System, events: seq<SystemEvent>)
    decreases |events|
  {
    events == [] || (Occurs(sys, events[0]) && IsSystemRun(Next(sys, events[0]), events[1..]))
  }

  ghost function RunSystem(sys: System, events: seq<SystemEvent>): System
    requires IsSystemRun(sys, events)
    decreases |events|
  {
    if events == [] then sys else RunSystem(Next(sys, events[0]), events[1..])
  }

  lemma {:induction false} SystemRunKeeps(sys: System, events: seq<SystemEvent>)
    requires Invariant(sys) && IsSystemRun(sys, events)
    ensures Invariant(RunSystem(sys, events))
    decreases |events|
  {
    if events != [] {
      NextKeeps(sys, events[0]);
      SystemRunKeeps(Next(sys, events[0]), events[1..]);
    }
  }

  /** A fresh scheduler, and workers that have accepted, sent and stored nothing. */
  ghost predicate Initial(sys: System) {
    && Fresh(sys.core) && sys.accepted == {} && sys.wire == {} && sys.acked == {}
    && sys.ended == {} && sys.inHand == {} && sys.store == map[] && sys.flushing == {}
  }

  lemma InitialIsOk(sys: System)
    requires Initial(sys)
    ensures Invariant(sys)
  {}

  /** Whatever happens to requests and answers, dispatches included, no outcome of an
      ended execution is lost. */
  lemma NoOutcomeIsLost(sys: System, events: seq<SystemEvent>, job: Job)
    requires Initial(sys) && IsSystemRun(sys, events) && job in RunSystem(sys, events).ended
    ensures Safe(RunSystem(sys, events), job)
  {
    InitialIsOk(sys);
    SystemRunKeeps(sys, events);
  }

  /** An empty store with nothing in hand means every ended job is terminal at the scheduler. */
  lemma DrainedMeansDelivered(sys: System, events: seq<SystemEvent>)
    requires Initial(sys) && IsSystemRun(sys, events)
    requires var sys' := RunSystem(sys, events); sys'.store == map[] && sys'.inHand == {}
    ensures var sys' := RunSystem(sys, events); forall job :: job in sys'.ended ==> Settled(sys'.core, job.0)
  {
    InitialIsOk(sys);
    SystemRunKeeps(sys, events);
    var sys' := RunSystem(sys, events);
    forall job | job in sys'.ended ensures Settled(sys'.core, job.0) { assert Safe(sys', job); }
  }
}
