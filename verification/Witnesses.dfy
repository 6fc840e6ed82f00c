/** Concrete runs and inputs: that the situations the theorems speak of do occur, and
    where the code falls short of what it promises. */
module Witnesses {
  import opened Common
  import opened RuntimeModel
  import opened Moves
  import opened Runs
  import LoadConservation
  import RetryWindow
  import Delivery

  // -------------------------------------------------------------- one task, one worker

  function TheTask(maxRetry: int, window: int): Task {
    Task(1, true, "", maxRetry, OtherPolicy("none"), "", 0, window, LeastLoadedFirst, map[], 1, 0)
  }

  function TheWorker(load: int): map<WorkerId, Worker> { map[7 := Worker(7, true, map[], 2, load)] }

  function Begin(maxRetry: int, window: int): State {
    State(map[1 := TheTask(maxRetry, window)], [], map[], map[], 1, TheWorker(0), 0, map[], {})
  }

  /** Instant, distinct clock readings, and a transport that accepts or refuses. */
  function At(now: int, accepts: bool): Env { Env(now, i => i, _ => accepts) }

  /** A scan without cache and backpressure that finds one task due. */
  function Finds(task: int): ScanInput { ScanInput(None, [], [task], 0) }

  /** An instance on the worker. */
  function Sent(id: int, count: nat, sid: ScheduleId, at: int): Instance {
    Instance(id, 1, sid, 0, 0, at, at, Some(7), Dispatched, count, "", 0)
  }

  lemma BeginIsFresh(maxRetry: int, window: int)
    ensures Fresh(Begin(maxRetry, window)) && Sound(Begin(maxRetry, window))
  {}

  lemma OnlyCandidate(workers: map<WorkerId, Worker>, load: int)
    requires workers == TheWorker(load) && load < 2
    ensures Candidates(workers, map[]) == {7} && LeastLoaded(workers, {7}) == {7} && Least({7}) == 7
  {}

  lemma PickOnly(s: State, t: Task, load: int)
    requires s.workers == TheWorker(load) && load < 2 && t.labels == map[] && t.strategy == LeastLoadedFirst
    ensures Pick(s, t) == (s.(workers := TheWorker(load + 1)), Some(Worker(7, true, map[], 2, load + 1)))
  {
    OnlyCandidate(s.workers, load);
    assert s.workers[7 := Worker(7, true, map[], 2, load + 1)] == TheWorker(load + 1);
  }

  lemma OnlyDue(s: State, t: Task, now: int)
    requires s.tasks == map[1 := t] && IsDue(t, now)
    ensures DueListing(s, now, [1])
  {}

  /** A scan at `now` that finds the task due and the worker with room. */
  function Triggered(s: State, t: Task, now: int, load: int): State {
    var id, sid := s.nextId, TriggerId(t.id, s.nextId);
    s.(tasks := s.tasks[t.id := Later(t, now)],
       instances := s.instances[id := Sent(id, 0, sid, now).(task := t.id)], bySchedule := s.bySchedule[sid := id],
       nextId := id + 1, workers := TheWorker(load + 1))
  }

  function Later(t: Task, now: int): Task { t.(next := now + 365 * 24 * 3600 * SECOND) }

  lemma ShardSent(s: State, t: Task, now: int, load: int)
    requires t.labels == map[] && t.strategy == LeastLoadedFirst && t.totalShards == 0
    requires s.workers == TheWorker(load) && load < 2
    ensures var s' := s.(instances := Triggered(s, t, now, load).instances, bySchedule := Triggered(s, t, now, load).bySchedule,
                         nextId := s.nextId + 1, workers := TheWorker(load + 1));
            TriggerShard(s, t, 0, At(now, true)) == (s', Outcome.Sent)
  {
    var env := At(now, true);
    var root, id := RootInstance(s, t, 0, env), s.nextId;
    var s1 := Create(s, root);
    PickOnly(s1, t, load);
    Overwritten(s.instances, id, root.(id := id), Sent(id, 0, TriggerId(t.id, id), now).(task := t.id));
  }

  lemma Overwritten<K, V>(m: map<K, V>, k: K, a: V, b: V)
    ensures m[k := a][k := b] == m[k := b]
  {}

  lemma ScanOfOne(s: State, t: Task, env: Env)
    requires t.id in s.tasks && s.tasks[t.id] == t && DueListing(s, env.now, [t.id])
    ensures TriggerScan(s, Finds(t.id), env) == HandleTask(s, t, env)
  {
    assert CachedDue(s, [], env.now) == [];
    var ids := ScanIds(s, Finds(t.id), env.now);
    assert ids == [t.id];
    var tasks := Load(s.tasks, ids);
    assert tasks == [t] && tasks[1..] == [];
    assert HandleTasks(HandleTask(s, tasks[0], env), tasks[1..], env) == HandleTask(s, t, env);
  }

  /** What ScanTriggers asks of a state and a due task. */
  ghost predicate Ready(s: State, t: Task, load: int) {
    && t.id in s.tasks && s.tasks[t.id] == t && GateOpen(s, t.id) && t.labels == map[] && t.strategy == LeastLoadedFirst
    && t.totalShards == 0 && t.cronExpr == "" && s.workers == TheWorker(load) && load < 2
  }

  lemma ShardsSent(s: State, t: Task, now: int, load: int)
    requires Ready(s, t, load)
    ensures TriggerShards(s, t, 0, At(now, true)) == (Triggered(s, t, now, load).(tasks := s.tasks), Outcome.Sent)
  {
    var env := At(now, true);
    ShardSent(s, t, now, load);
    var s1 := TriggerShard(s, t, 0, env).0;
    assert TriggerShards(s1, t, 1, env) == (s1, Outcome.Sent);
  }

  lemma TaskHandled(s: State, t: Task, now: int, load: int)
    requires Ready(s, t, load)
    ensures HandleTask(s, t, At(now, true)) == Triggered(s, t, now, load)
  {
    ShardsSent(s, t, now, load);
  }

  lemma ScanTriggers(s: State, t: Task, now: int, load: int)
    requires Ready(s, t, load) && DueListing(s, now, [t.id])
    ensures StepsTo(s, Trigger(Finds(t.id), At(now, true)), Triggered(s, t, now, load))
  {
    ScanOfOne(s, t, At(now, true));
    TaskHandled(s, t, now, load);
  }

  // ------------------------------------------------------------------ a failed attempt

  function FailureOf(inst: Instance): Report { Report(inst.schedule, Some(7), Failed, "") }

  /** The attempt has failed and given its place back. */
  function Released(s: State, inst: Instance, load: int): State {
    s.(instances := s.instances[inst.id := inst.(status := Failed, errorCode := "")], workers := TheWorker(load - 1))
  }

  function NextAttempt(n: int, inst: Instance, now: int, accepted: bool): Instance {
    Sent(n, inst.retryCount + 1, RetryId(1, inst.retryCount + 1, n), now).(status := if accepted then Dispatched else RetryWaiting)
  }

  /** The retry has been created and sent, or has bounced back to waiting. */
  function Retried(s: State, inst: Instance, now: int, load: int, accepted: bool): State {
    var n, r := s.nextId, Released(s, inst, load);
    r.(instances := r.instances[n := NextAttempt(n, inst, now, accepted)],
       bySchedule := s.bySchedule[RetryId(1, inst.retryCount + 1, n) := n], nextId := n + 1,
       retryOf := s.retryOf[n := inst.id], workers := TheWorker(if accepted then load else load - 1))
  }

  /** `inst` is the running attempt of the one task, which still retries. */
  ghost predicate Retries(s: State, inst: Instance, t: Task, now: int, load: int) {
    && s.tasks == map[1 := t] && t == TheTask(t.maxRetry, t.retryWindow).(next := t.next)
    && inst == Sent(inst.id, inst.retryCount, inst.schedule, inst.triggered) && !inst.schedule.NoId?
    && inst.schedule in s.bySchedule && s.bySchedule[inst.schedule] == inst.id
    && inst.id in s.instances && s.instances[inst.id] == inst && inst.id != s.nextId
    && inst.retryCount < t.maxRetry && !WindowExceeded(inst, t.retryWindow, now)
    && s.workers == TheWorker(load) && 1 <= load <= 2
  }

  lemma RetrySent(r: State, inst: Instance, t: Task, now: int, load: int, accepted: bool)
    requires t == TheTask(t.maxRetry, t.retryWindow).(next := t.next) && r.workers == TheWorker(load - 1) && 1 <= load <= 2
    requires inst == Sent(inst.id, inst.retryCount, inst.schedule, inst.triggered)
    ensures var n, env := r.nextId, At(now, accepted);
            var s1 := CreateRetry(r, inst.id, RetryInstance(r, inst, t, Pending, 0, env));
            Redispatch(s1, n, t, env) ==
              (s1.(instances := r.instances[n := NextAttempt(n, inst, now, accepted)],
                   workers := TheWorker(if accepted then load else load - 1)), if accepted then Outcome.Sent else Refused)
  {
    var n, env := r.nextId, At(now, accepted);
    var c := RetryInstance(r, inst, t, Pending, 0, env);
    var s1 := CreateRetry(r, inst.id, c);
    PickOnly(s1, t, load - 1);
    var sent := NextAttempt(n, inst, now, true);
    Overwritten(r.instances, n, c.(id := n), sent);
    Overwritten(r.instances, n, sent, sent.(status := RetryWaiting));
    Overwritten(TheWorker(load), 7, Worker(7, true, map[], 2, load), Worker(7, true, map[], 2, load - 1));
    assert TheWorker(load)[7 := Worker(7, true, map[], 2, load - 1)] == TheWorker(load - 1);
  }

  lemma FailureReleases(s: State, inst: Instance, t: Task, now: int, load: int, env: Env)
    requires Retries(s, inst, t, now, load)
    ensures ReportStatus(s, FailureOf(inst), env) == RetryIfNeeded(Released(s, inst, load), inst, FailureOf(inst), env)
  {
    assert TheWorker(load)[7 := Worker(7, true, map[], 2, load - 1)] == TheWorker(load - 1);
    assert ReleaseReported(SetResult(s, inst.schedule, Failed, ""), Some(7)) == Released(s, inst, load);
  }

  lemma RetryCreated(s: State, inst: Instance, t: Task, now: int, load: int, accepted: bool)
    requires Retries(s, inst, t, now, load)
    ensures RetryIfNeeded(Released(s, inst, load), inst, FailureOf(inst), At(now, accepted))
            == (Retried(s, inst, now, load, accepted), true)
  {
    RetrySent(Released(s, inst, load), inst, t, now, load, accepted);
  }

  lemma FailureRetries(s: State, inst: Instance, t: Task, now: int, load: int, accepted: bool)
    requires Retries(s, inst, t, now, load)
    ensures ReportStatus(s, FailureOf(inst), At(now, accepted)) == (Retried(s, inst, now, load, accepted), true)
  {
    FailureReleases(s, inst, t, now, load, At(now, accepted));
    RetryCreated(s, inst, t, now, load, accepted);
  }

  // ----------------------------------------------------------- a chain beyond its window

  function FirstScan(): Event { Trigger(Finds(1), At(1, true)) }

  function AfterScan(maxRetry: int, window: int): State {
    Triggered(Begin(maxRetry, window), TheTask(maxRetry, window), 1, 0)
  }

  lemma FirstStep(maxRetry: int, window: int)
    ensures StepsTo(Begin(maxRetry, window), FirstScan(), AfterScan(maxRetry, window))
  {
    var s := Begin(maxRetry, window);
    OnlyDue(s, TheTask(maxRetry, window), 1);
    ScanTriggers(s, TheTask(maxRetry, window), 1, 0);
  }

  ghost predicate StepsTo(s: State, e: Event, s': State) { Possible(s, e) && Step(s, e) == s' }

  ghost predicate Reaches(s: State, events: seq<Event>, s': State) { IsRun(s, events) && Run(s, events) == s' }

  lemma TwoSteps(s: State, a: Event, b: Event, s1: State, s2: State)
    requires StepsTo(s, a, s1) && StepsTo(s1, b, s2)
    ensures Reaches(s, [a] + [b], s2)
  {
    RunAppend(s, [], a);
    assert [] + [a] == [a];
    RunAppend(s, [a], b);
  }

  lemma ThreeSteps(s: State, events: seq<Event>, a: Event, b: Event, c: Event, s1: State, s2: State, s3: State)
    requires events == [a] + [b] + [c]
    requires StepsTo(s, a, s1) && StepsTo(s1, b, s2) && StepsTo(s2, c, s3)
    ensures Reaches(s, events, s3)
  {
    TwoSteps(s, a, b, s1, s2);
    RunAppend(s, [a] + [b], c);
  }

  function Attempt1(): Instance { Sent(1, 0, TriggerId(1, 1), 1) }

  function Attempt2(now: int): Instance { Sent(2, 1, RetryId(1, 1, 2), now) }

  function Fails(inst: Instance, now: int, accepted: bool): Event { Reported(FailureOf(inst), At(now, accepted)) }

  function AfterOne(maxRetry: int, window: int, now: int, accepted: bool): State {
    Retried(AfterScan(maxRetry, window), Attempt1(), now, 1, accepted)
  }

  lemma SecondStep(maxRetry: int, window: int, now: int, accepted: bool)
    requires maxRetry >= 1 && !WindowExceeded(Attempt1(), window, now)
    ensures StepsTo(AfterScan(maxRetry, window), Fails(Attempt1(), now, accepted), AfterOne(maxRetry, window, now, accepted))
  {
    FailureRetries(AfterScan(maxRetry, window), Attempt1(), Later(TheTask(maxRetry, window), 1), now, 1, accepted);
  }

  function AfterTwo(maxRetry: int, window: int, now: int, later: int): State {
    Retried(AfterOne(maxRetry, window, now, true), Attempt2(now), later, 1, true)
  }

  lemma ThirdStep(maxRetry: int, window: int, now: int, later: int)
    requires maxRetry >= 2 && !WindowExceeded(Attempt2(now), window, later)
    ensures StepsTo(AfterOne(maxRetry, window, now, true), Fails(Attempt2(now), later, true),
                    AfterTwo(maxRetry, window, now, later))
  {
    var s := AfterOne(maxRetry, window, now, true);
    FailureRetries(s, Attempt2(now), Later(TheTask(maxRetry, window), 1), later, 1, true);
  }

  /** Two attempts that fail at the given instants. */
  function TwoFailures(now: int, later: int): seq<Event> {
    [FirstScan()] + [Fails(Attempt1(), now, true)] + [Fails(Attempt2(now), later, true)]
  }

  lemma TwoFailuresRun(maxRetry: int, window: int, now: int, later: int)
    requires maxRetry >= 2 && !WindowExceeded(Attempt1(), window, now) && !WindowExceeded(Attempt2(now), window, later)
    ensures Reaches(Begin(maxRetry, window), TwoFailures(now, later), AfterTwo(maxRetry, window, now, later))
  {
    FirstStep(maxRetry, window);
    SecondStep(maxRetry, window, now, true);
    ThirdStep(maxRetry, window, now, later);
    ThreeSteps(Begin(maxRetry, window), TwoFailures(now, later), FirstScan(), Fails(Attempt1(), now, true),
               Fails(Attempt2(now), later, true),
               AfterScan(maxRetry, window), AfterOne(maxRetry, window, now, true), AfterTwo(maxRetry, window, now, later));
  }

  lemma ThirdIsLate(maxRetry: int, window: int, now: int, later: int)
    requires maxRetry >= 2 && window > 0
    ensures var s, c, t := AfterTwo(maxRetry, window, now, later), [1, 2, 3], Later(TheTask(maxRetry, window), 1);
            && IsChain(s, c) && RetryWindow.Windowed(s, c, t) && c[0] in s.instances && c[2] in s.instances
            && RetryWindow.CreatedAt(s, c[2]) == later && RetryWindow.CreatedAt(s, c[0]) == 1
  {
    assert AfterTwo(maxRetry, window, now, later).retryOf == map[2 := 1, 3 := 2];
  }

  lemma LateRefutes(s: State, events: seq<Event>, s': State, c: seq<int>, k: nat, t: Task, window: int)
    requires Fresh(s) && Reaches(s, events, s') && IsChain(s', c) && RetryWindow.Windowed(s', c, t) && k < |c|
    requires t.retryWindow == window && c[k] in s'.instances
    requires RetryWindow.CreatedAt(s', c[k]) - RetryWindow.CreatedAt(s', c[0]) > window * SECOND
    ensures !RetryWindow.WindowIsTotal(t.maxRetry, window)
  {
    assert Run(s, events) == s';
  }

  /** If both attempts fail just before their own window closes, the third is created two
      windows after the first. */
  lemma ChainOutlasts(maxRetry: int, window: int)
    requires maxRetry >= 2 && 0 < window && window * SECOND <= MAX_INT64
    ensures !RetryWindow.WindowIsTotal(maxRetry, window)
  {
    var now, later, t := 1 + window * SECOND, 1 + 2 * (window * SECOND), Later(TheTask(maxRetry, window), 1);
    BeginIsFresh(maxRetry, window);
    TwoFailuresRun(maxRetry, window, now, later);
    ThirdIsLate(maxRetry, window, now, later);
    LateRefutes(Begin(maxRetry, window), TwoFailures(now, later), AfterTwo(maxRetry, window, now, later), [1, 2, 3], 2, t,
                window);
  }

  /** The documented meaning of the window holds exactly for tasks with at most one retry. */
  lemma WindowIsTotalIff(maxRetry: int, window: int)
    requires 0 < window && window * SECOND <= MAX_INT64
    ensures RetryWindow.WindowIsTotal(maxRetry, window) <==> maxRetry <= 1
  {
    if maxRetry <= 1 { RetryWindow.OneRetryIsWithin(maxRetry, window); } else { ChainOutlasts(maxRetry, window); }
  }

  // ------------------------------------------------------------------- leaking a place

  function AfterCancel(): State {
    var s := AfterScan(0, 0);
    s.(instances := map[1 := Attempt1().(status := Cancelled, errorCode := "cancelled")], leaked := {1})
  }

  lemma CancelStep()
    ensures var s, e := AfterScan(0, 0), CancelRequest(TriggerId(1, 1));
            StepsTo(s, e, AfterCancel()) && LoadConservation.CancelsInFlight(s, e) && Resolve(s, e.schedule).value.worker == Some(7)
  {
    var s := AfterScan(0, 0);
    assert s.instances == map[1 := Attempt1()];
    assert s.instances[1 := Attempt1().(status := Cancelled, errorCode := "cancelled")] == AfterCancel().instances;
  }

  lemma LeakInTwo(s: State, a: Event, b: Event, s1: State, w: WorkerId)
    requires LoadConservation.Proper(s, a) && StepsTo(s, a, s1) && LoadConservation.Proper(s1, b)
    requires LoadConservation.CancelsInFlight(s1, b) && Resolve(s1, b.schedule).value.worker == Some(w)
    ensures LoadConservation.IsProperRun(s, [a] + [b]) && LoadConservation.LeaksOn(s, [a] + [b], w)
  {
    assert ([a] + [b])[1..] == [b] && [b][1..] == [];
    assert LoadConservation.IsProperRun(s1, [b]);
    assert LoadConservation.LeaksOn(s1, [b], w);
  }

  /** Triggering and then cancelling leaves the worker with a load and no work. */
  lemma CancellingLeaks()
    ensures var s, events := Begin(0, 0), [FirstScan()] + [CancelRequest(TriggerId(1, 1))];
            && Fresh(s) && LoadConservation.IsProperRun(s, events) && LoadConservation.LeaksOn(s, events, 7)
            && Reaches(s, events, AfterCancel())
            && AfterCancel().workers[7].load == 1 && LoadConservation.InFlightOn(AfterCancel(), 7) == {}
  {
    var s, cancel := Begin(0, 0), CancelRequest(TriggerId(1, 1));
    BeginIsFresh(0, 0);
    FirstStep(0, 0);
    CancelStep();
    LeakInTwo(s, FirstScan(), cancel, AfterScan(0, 0), 7);
    TwoSteps(s, FirstScan(), cancel, AfterScan(0, 0), AfterCancel());
  }

  // ------------------------------------------------------------- the system at work

  ghost predicate Happens(sys: Delivery.System, e: Delivery.SystemEvent, sys': Delivery.System) {
    Delivery.Occurs(sys, e) && Delivery.Next(sys, e) == sys'
  }

  ghost predicate Arrives(sys: Delivery.System, events: seq<Delivery.SystemEvent>, sys': Delivery.System) {
    Delivery.IsSystemRun(sys, events) && Delivery.RunSystem(sys, events) == sys'
  }

  lemma {:induction false} Continue(sys: Delivery.System, events: seq<Delivery.SystemEvent>, sys1: Delivery.System,
                                    e: Delivery.SystemEvent, sys2: Delivery.System)
    requires Arrives(sys, events, sys1) && Happens(sys1, e, sys2)
    ensures Arrives(sys, events + [e], sys2)
    decreases |events|
  {
    if events == [] {
      assert events + [e] == [e] && [e][1..] == [];
    } else {
      assert (events + [e])[1..] == events[1..] + [e];
      Continue(Delivery.Next(sys, events[0]), events[1..], sys1, e, sys2);
    }
  }

  /** A system before its first event. */
  function Quiet(maxRetry: int): Delivery.System {
    Delivery.System(Begin(maxRetry, 0), {}, {}, {}, {}, {}, map[], {})
  }

  const FIRST: Delivery.Job := (TriggerId(1, 1), 7)

  function ReportOn(job: Delivery.Job, st: Status): Report { Report(job.0, Some(job.1), st, "") }

  function Scanned(maxRetry: int): Delivery.System {
    Quiet(maxRetry).(core := AfterScan(maxRetry, 0), accepted := {FIRST})
  }

  lemma OneDispatched(s: State)
    requires s.instances == map[1 := Attempt1()]
    ensures Delivery.DispatchedJobs(s) == {FIRST} && DistinctIds(s)
  {
    assert 1 in s.instances && s.instances[1].status == Dispatched;
  }

  lemma ScanHappens(maxRetry: int)
    ensures Happens(Quiet(maxRetry), Delivery.SystemEvent.Scheduler(FirstScan()), Scanned(maxRetry))
  {
    FirstStep(maxRetry, 0);
    assert AfterScan(maxRetry, 0).instances == map[1 := Attempt1()];
    OneDispatched(AfterScan(maxRetry, 0));
    CoreHappens(Quiet(maxRetry), FirstScan(), AfterScan(maxRetry, 0));
  }

  lemma CoreHappens(sys: Delivery.System, e: Event, s': State)
    requires StepsTo(sys.core, e, s') && !e.Reported? && DistinctIds(s')
    ensures Happens(sys, Delivery.SystemEvent.Scheduler(e),
                    sys.(core := s', accepted := sys.accepted + Delivery.DispatchedJobs(s')))
  {}

  /** The execution is over and its report on the way. */
  function Over(sys: Delivery.System, job: Delivery.Job, st: Status): Delivery.System {
    sys.(wire := sys.wire + {ReportOn(job, st)}, ended := sys.ended + {job}, inHand := sys.inHand + {ReportOn(job, st)})
  }

  lemma FinishHappens(sys: Delivery.System, job: Delivery.Job, st: Status)
    requires job in sys.accepted && (st.Success? || st.Failed?)
    ensures Happens(sys, Delivery.Finish(job, st, ""), Over(sys, job, st))
  {}

  function AfterSuccess(): State {
    AfterScan(0, 0).(instances := map[1 := Attempt1().(status := Success, errorCode := "")], workers := TheWorker(0))
  }

  lemma SuccessStep(now: int)
    ensures ReportStatus(AfterScan(0, 0), ReportOn(FIRST, Success), At(now, true)) == (AfterSuccess(), true)
  {
    var s := AfterScan(0, 0);
    assert s.instances == map[1 := Attempt1()];
    assert s.instances[1 := Attempt1().(status := Success, errorCode := "")] == AfterSuccess().instances;
    assert TheWorker(1)[7 := Worker(7, true, map[], 2, 0)] == TheWorker(0);
  }

  /** The report was lost, has been buffered and is being delivered again. */
  function Resent(): Delivery.System {
    Over(Scanned(0), FIRST, Success).(inHand := {}, store := map[FIRST := ReportOn(FIRST, Success)],
                                      flushing := {ReportOn(FIRST, Success)})
  }

  function Buffered(): Delivery.System { Resent().(flushing := {}) }

  lemma BufferHappens()
    ensures var r, sys2 := ReportOn(FIRST, Success), Over(Scanned(0), FIRST, Success);
            Happens(sys2, Delivery.TimedOut(r), Buffered()) && Happens(Buffered(), Delivery.FlushSend(FIRST), Resent())
  {}

  lemma OverArrives()
    ensures Arrives(Quiet(0), [] + [Delivery.SystemEvent.Scheduler(FirstScan())] + [Delivery.Finish(FIRST, Success, "")],
                    Over(Scanned(0), FIRST, Success))
  {
    var sys0, sys1, e1 := Quiet(0), Scanned(0), Delivery.SystemEvent.Scheduler(FirstScan());
    ScanHappens(0);
    Continue(sys0, [], sys0, e1, sys1);
    FinishHappens(sys1, FIRST, Success);
    Continue(sys0, [] + [e1], sys1, Delivery.Finish(FIRST, Success, ""), Over(sys1, FIRST, Success));
  }

  lemma ResentArrives()
    ensures var r := ReportOn(FIRST, Success);
            Arrives(Quiet(0), [] + [Delivery.SystemEvent.Scheduler(FirstScan())] + [Delivery.Finish(FIRST, Success, "")]
                              + [Delivery.TimedOut(r)] + [Delivery.FlushSend(FIRST)], Resent())
  {
    var r, e1, e2 := ReportOn(FIRST, Success), Delivery.SystemEvent.Scheduler(FirstScan()), Delivery.Finish(FIRST, Success, "");
    OverArrives();
    BufferHappens();
    Continue(Quiet(0), [] + [e1] + [e2], Over(Scanned(0), FIRST, Success), Delivery.TimedOut(r), Buffered());
    Continue(Quiet(0), [] + [e1] + [e2] + [Delivery.TimedOut(r)], Buffered(), Delivery.FlushSend(FIRST), Resent());
  }

  function Delivered(): Delivery.System {
    Resent().(core := AfterSuccess(), acked := {ReportOn(FIRST, Success)}, flushing := {}, store := map[])
  }

  lemma DeliveryHappens()
    ensures var r := ReportOn(FIRST, Success);
            var mid := Delivered().(flushing := {r}, store := Resent().store);
            Happens(Resent(), Delivery.Deliver(r, At(2, true)), mid) && Happens(mid, Delivery.FlushAnswered(r), Delivered())
  {
    SuccessStep(2);
    assert Delivery.DispatchedJobs(AfterSuccess()) == {};
  }

  /** An execution ends, its report is lost, buffered, flushed, delivered and answered: the
      store is empty again and the instance has its outcome. */
  lemma LostReportArrives() returns (events: seq<Delivery.SystemEvent>)
    ensures Delivery.Initial(Quiet(0)) && Arrives(Quiet(0), events, Delivered())
    ensures FIRST in Delivered().ended && Delivered().store == map[] && Settled(Delivered().core, FIRST.0)
  {
    var r := ReportOn(FIRST, Success);
    var mid := Delivered().(flushing := {r}, store := Resent().store);
    ResentArrives();
    DeliveryHappens();
    events := [] + [Delivery.SystemEvent.Scheduler(FirstScan())] + [Delivery.Finish(FIRST, Success, "")]
              + [Delivery.TimedOut(r)] + [Delivery.FlushSend(FIRST)];
    Continue(Quiet(0), events, Resent(), Delivery.Deliver(r, At(2, true)), mid);
    events := events + [Delivery.Deliver(r, At(2, true))];
    Continue(Quiet(0), events, mid, Delivery.FlushAnswered(r), Delivered());
    events := events + [Delivery.FlushAnswered(r)];
  }

  // -------------------------------------------------------------- a lost dispatch answer

  const SECOND_JOB: Delivery.Job := (RetryId(1, 1, 2), 7)

  function RescanAt(): int { 1 + 365 * 24 * 3600 * SECOND }

  /** The first attempt has failed; its retry was refused, as the scheduler believes. */
  function Bounced(): State { AfterOne(1, 0, 2, false) }

  /** A second scan has put a third instance on the worker. */
  function Rescanned(): State { Triggered(Bounced(), Later(TheTask(1, 0), 1), RescanAt(), 0) }

  /** The refused retry has succeeded after all and "given back" a place it never had. */
  function Robbed(): State {
    var s := Rescanned();
    s.(instances := s.instances[2 := s.instances[2].(status := Success, errorCode := "")], workers := TheWorker(0))
  }

  lemma BouncedIs()
    ensures Bounced().instances == map[1 := Attempt1().(status := Failed, errorCode := ""),
                                       2 := Attempt2(2).(status := RetryWaiting)]
    ensures Bounced().bySchedule == map[TriggerId(1, 1) := 1, RetryId(1, 1, 2) := 2]
  {}

  lemma RescannedIs()
    ensures 2 in Rescanned().instances
    ensures Rescanned().instances == map[1 := Attempt1().(status := Failed, errorCode := ""),
                                         2 := Attempt2(2).(status := RetryWaiting), 3 := Sent(3, 0, TriggerId(1, 3), RescanAt())]
    ensures Rescanned().bySchedule == map[TriggerId(1, 1) := 1, RetryId(1, 1, 2) := 2, TriggerId(1, 3) := 3]
  {
    BouncedIs();
  }

  lemma RescanStep()
    ensures StepsTo(Bounced(), Trigger(Finds(1), At(RescanAt(), true)), Rescanned())
  {
    var s, t := Bounced(), Later(TheTask(1, 0), 1);
    OnlyDue(s, t, RescanAt());
    ScanTriggers(s, t, RescanAt(), 0);
  }

  lemma RobStep()
    ensures 2 in Rescanned().instances
    ensures ReportStatus(Rescanned(), ReportOn(SECOND_JOB, Success), At(RescanAt(), true)) == (Robbed(), true)
  {
    RescannedIs();
    assert TheWorker(1)[7 := Worker(7, true, map[], 2, 0)] == TheWorker(0);
  }

  /** In the end the worker runs the third instance and has no load at all. */
  lemma RobbedIsUnbalanced()
    ensures 2 in Rescanned().instances && 7 in Robbed().workers && Robbed().workers[7].load == 0
    ensures LoadConservation.InFlightOn(Robbed(), 7) == {3} && LoadConservation.LeakedOn(Robbed(), 7) == {}
  {
    RescannedIs();
  }

  const THIRD: Delivery.Job := (TriggerId(1, 3), 7)

  function Failing(): Delivery.System { Over(Scanned(1), FIRST, Failed) }

  function Refusing(): Delivery.System { Failing().(core := Bounced(), acked := {ReportOn(FIRST, Failed)}) }

  function Rescanning(): Delivery.System { Refusing().(core := Rescanned(), accepted := {FIRST, THIRD}) }

  function Surprised(): Delivery.System { Rescanning().(accepted := {FIRST, THIRD, SECOND_JOB}) }

  function Robbing(): Delivery.System {
    Over(Surprised(), SECOND_JOB, Success).(core := Robbed(), acked := {ReportOn(FIRST, Failed), ReportOn(SECOND_JOB, Success)})
  }

  lemma DeliverHappens(sys: Delivery.System, r: Report, env: Env, s': State)
    requires r in sys.wire && ReportStatus(sys.core, r, env) == (s', true) && DistinctIds(s')
    ensures Happens(sys, Delivery.Deliver(r, env),
                    sys.(core := s', accepted := sys.accepted + Delivery.DispatchedJobs(s'), acked := sys.acked + {r}))
  {}

  lemma RefusalStep()
    ensures ReportStatus(AfterScan(1, 0), ReportOn(FIRST, Failed), At(2, false)) == (Bounced(), true)
  {
    FailureRetries(AfterScan(1, 0), Attempt1(), Later(TheTask(1, 0), 1), 2, 1, false);
  }

  lemma BouncedJobs()
    ensures Delivery.DispatchedJobs(Bounced()) == {} && DistinctIds(Bounced())
  {
    BouncedIs();
  }

  lemma RefusalHappens()
    ensures Happens(Failing(), Delivery.Deliver(ReportOn(FIRST, Failed), At(2, false)), Refusing())
  {
    RefusalStep();
    BouncedJobs();
    DeliverHappens(Failing(), ReportOn(FIRST, Failed), At(2, false), Bounced());
    assert Failing().accepted + {} == Failing().accepted;
  }

  /** Three instances with their own IDs, of which only the third is with the worker. */
  lemma ThirdDispatched(s: State, a: Instance, b: Instance, c: Instance)
    requires s.instances == map[1 := a, 2 := b, 3 := c]
    requires a.status != Dispatched && b.status != Dispatched && c == Sent(3, 0, TriggerId(1, 3), RescanAt())
    requires a.schedule == TriggerId(1, 1) && b.schedule == RetryId(1, 1, 2)
    ensures Delivery.DispatchedJobs(s) == {THIRD} && DistinctIds(s)
  {
    assert 3 in s.instances && s.instances[3].status == Dispatched;
  }

  lemma RescannedJobs()
    ensures Delivery.DispatchedJobs(Rescanned()) == {THIRD} && DistinctIds(Rescanned())
  {
    RescannedIs();
    ThirdDispatched(Rescanned(), Attempt1().(status := Failed, errorCode := ""), Attempt2(2).(status := RetryWaiting),
                    Sent(3, 0, TriggerId(1, 3), RescanAt()));
  }

  lemma RobbedJobs()
    ensures 2 in Rescanned().instances && Delivery.DispatchedJobs(Robbed()) == {THIRD} && DistinctIds(Robbed())
  {
    RescannedIs();
    ThirdDispatched(Robbed(), Attempt1().(status := Failed, errorCode := ""), Attempt2(2).(status := Success, errorCode := ""),
                    Sent(3, 0, TriggerId(1, 3), RescanAt()));
  }

  lemma RescanHappens()
    ensures Happens(Refusing(), Delivery.SystemEvent.Scheduler(Trigger(Finds(1), At(RescanAt(), true))), Rescanning())
  {
    RescanStep();
    RescannedJobs();
    CoreHappens(Refusing(), Trigger(Finds(1), At(RescanAt(), true)), Rescanned());
    RescanningIs();
  }

  lemma RescanningIs()
    ensures Refusing().(core := Rescanned(), accepted := Refusing().accepted + {THIRD}) == Rescanning()
  {
    assert {FIRST} + {THIRD} == {FIRST, THIRD};
  }

  lemma SurpriseHappens()
    ensures Happens(Rescanning(), Delivery.LostAnswer(SECOND_JOB), Surprised())
  {
    RescannedIs();
    assert {FIRST, THIRD} + {SECOND_JOB} == {FIRST, THIRD, SECOND_JOB};
  }

  lemma RobberyHappens()
    ensures Happens(Over(Surprised(), SECOND_JOB, Success), Delivery.Deliver(ReportOn(SECOND_JOB, Success), At(RescanAt(), true)),
                    Robbing())
  {
    var r, sys := ReportOn(SECOND_JOB, Success), Over(Surprised(), SECOND_JOB, Success);
    RobStep();
    RobbedJobs();
    DeliverHappens(sys, r, At(RescanAt(), true), Robbed());
    assert sys.accepted + {THIRD} == sys.accepted;
    assert sys.acked + {r} == {ReportOn(FIRST, Failed), r};
  }

  lemma RefusingArrives() returns (events: seq<Delivery.SystemEvent>)
    ensures Arrives(Quiet(1), events, Refusing())
  {
    var sys0, e1 := Quiet(1), Delivery.SystemEvent.Scheduler(FirstScan());
    ScanHappens(1);
    Continue(sys0, [], sys0, e1, Scanned(1));
    FinishHappens(Scanned(1), FIRST, Failed);
    Continue(sys0, [] + [e1], Scanned(1), Delivery.Finish(FIRST, Failed, ""), Failing());
    RefusalHappens();
    events := [] + [e1] + [Delivery.Finish(FIRST, Failed, "")];
    Continue(sys0, events, Failing(), Delivery.Deliver(ReportOn(FIRST, Failed), At(2, false)), Refusing());
    events := events + [Delivery.Deliver(ReportOn(FIRST, Failed), At(2, false))];
  }

  lemma SurprisedArrives() returns (events: seq<Delivery.SystemEvent>)
    ensures Arrives(Quiet(1), events, Surprised())
  {
    var rescan := Delivery.SystemEvent.Scheduler(Trigger(Finds(1), At(RescanAt(), true)));
    events := RefusingArrives();
    RescanHappens();
    Continue(Quiet(1), events, Refusing(), rescan, Rescanning());
    events := events + [rescan];
    SurpriseHappens();
    Continue(Quiet(1), events, Rescanning(), Delivery.LostAnswer(SECOND_JOB), Surprised());
    events := events + [Delivery.LostAnswer(SECOND_JOB)];
  }

  /** A lost answer to a dispatch can unbalance the load: a run that ends with work in
      flight on a worker whose load is 0. Its outcomes are safe all the same. */
  lemma LostAnswerUnbalances() returns (events: seq<Delivery.SystemEvent>)
    ensures Delivery.Initial(Quiet(1)) && Arrives(Quiet(1), events, Robbing())
    ensures var s := Robbing().core;
            7 in s.workers && s.workers[7].load == 0
            && LoadConservation.InFlightOn(s, 7) == {3} && LoadConservation.LeakedOn(s, 7) == {}
  {
    var job, deliver := SECOND_JOB, Delivery.Deliver(ReportOn(SECOND_JOB, Success), At(RescanAt(), true));
    events := SurprisedArrives();
    FinishHappens(Surprised(), job, Success);
    Continue(Quiet(1), events, Surprised(), Delivery.Finish(job, Success, ""), Over(Surprised(), job, Success));
    events := events + [Delivery.Finish(job, Success, "")];
    RobberyHappens();
    Continue(Quiet(1), events, Over(Surprised(), job, Success), deliver, Robbing());
    events := events + [deliver];
    RobbedIsUnbalanced();
  }
}
