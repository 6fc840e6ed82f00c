/** Reports are idempotent: whatever duplicated or reordered list of reports
    reaches the scheduler for one instance, only the prefix through the first
    terminal report has any effect. */
module DuplicateReports {
  import opened Common
  import opened RuntimeModel
  import opened Moves
  import opened Handlers
  import opened Runs

  ghost function ReportAll(s: State, rs: seq<(Report, Env)>): State
    decreases |rs|
  {
    if rs == [] then s else ReportAll(ReportStatus(s, rs[0].0, rs[0].1).0, rs[1..])
  }

  /** The reports up to and including the first terminal one. */
  ghost function ThroughTerminal(rs: seq<(Report, Env)>): seq<(Report, Env)> {
    if rs == [] then []
    else if IsTerminal(rs[0].0.status) then [rs[0]]
    else [rs[0]] + ThroughTerminal(rs[1..])
  }

  ghost predicate SameInstance(rs: seq<(Report, Env)>, sid: ScheduleId) {
    forall i :: 0 <= i < |rs| ==> rs[i].0.schedule == sid
  }

  /** Reports about sid have no further effect. */
  ghost predicate Closed(s: State, sid: ScheduleId) {
    sid.NoId? || Resolve(s, sid).None? || IsTerminal(Resolve(s, sid).value.status)
  }

  lemma ReportKeepsSound(s: State, r: Report, env: Env)
    requires Sound(s)
    ensures var s' := ReportStatus(s, r, env).0; Sound(s') && Evolves(s, s')
  {
    var ms := ReportMoves(s, r, env);
    PathKeeps(s, ms);
  }

  lemma RedispatchKeepsIndex(s: State, id: int, t: Task, env: Env)
    requires WellFormed(s) && Waiting(s, id)
    ensures Redispatch(s, id, t, env).0.bySchedule == s.bySchedule
  {
    if Pick(s, t).1.None? {
      PickFacts(s, t);
    } else {
      var m := RedispatchEffect(s, id, t, env);
      DispatchKeepsIndex(Rotated(s, t), m);
    }
  }

  lemma DispatchKeepsIndex(s: State, m: Move)
    requires Enabled(s, m) && (m.Place? || m.Bounce?)
    ensures Apply(s, m).bySchedule == s.bySchedule
  {}

  lemma ImmediateRetryKeepsIndex(s: State, inst: Instance, t: Task, env: Env)
    requires WellFormed(s)
    ensures ImmediateRetry(s, inst, t, env).bySchedule ==
              s.bySchedule[RetryId(t.id, inst.retryCount + 1, env.stamp(s.nextId)) := s.nextId]
  {
    var c := RetryInstance(s, inst, t, Pending, 0, env);
    CreateKeepsWellFormed(s, c);
    RedispatchKeepsIndex(CreateRetry(s, inst.id, c), s.nextId, t, env);
  }

  /** A retry never takes over the schedule ID of the instance it retries. */
  lemma RetryKeepsIndex(s: State, inst: Instance, r: Report, env: Env, sid: ScheduleId)
    requires WellFormed(s) && IdMatches(inst) && inst.schedule == sid && sid in s.bySchedule
    ensures var s' := RetryIfNeeded(s, inst, r, env).0; sid in s'.bySchedule && s'.bySchedule[sid] == s.bySchedule[sid]
  {
    var kind := RetryOutcome(s, inst, r, env);
    if kind.AtOnce? { ImmediateRetryKeepsIndex(s, inst, s.tasks[inst.task], env); }
  }

  lemma EvolvedStaysClosed(s: State, s': State, sid: ScheduleId, id: int)
    requires Evolves(s, s') && id in s.instances && IsTerminal(s.instances[id].status)
    requires sid in s'.bySchedule && s'.bySchedule[sid] == id
    ensures Closed(s', sid)
  {}

  /** What is left to do after the settling step keeps the schedule ID's entry. */
  lemma ReportKeepsIndex(s: State, r: Report, env: Env)
    requires Sound(s) && Effective(s, r) && IsTerminal(r.status)
    ensures var s' := ReportStatus(s, r, env).0;
            r.schedule in s'.bySchedule && s'.bySchedule[r.schedule] == s.bySchedule[r.schedule]
  {
    var inst, m := Resolve(s, r.schedule).value, SettleMove(s, r);
    var s1 := Apply(s, m);
    MoveKeepsWellFormed(s, m);
    MoveKeepsLinks(s, m);
    ReportOrder(s, r, env);
    var fm := FiredMoves(s1, inst.task, r.status, env.now);
    FiredKeepsIndex(s1, inst.task, r.status, env.now);
    RetryKeepsIndex(Fired(s1, inst.task, r.status, env.now), inst, r, env, r.schedule);
  }

  lemma TerminalReportCloses(s: State, r: Report, env: Env)
    requires Sound(s) && IsTerminal(r.status)
    ensures Closed(ReportStatus(s, r, env).0, r.schedule)
  {
    if Effective(s, r) {
      var m := SettleMove(s, r);
      var s1 := Apply(s, m);
      MoveKeepsWellFormed(s, m);
      MoveKeepsLinks(s, m);
      var rm := SettledMoves(s, r, env);
      PathKeeps(s1, rm);
      ReportKeepsIndex(s, r, env);
      EvolvedStaysClosed(s1, ReportStatus(s, r, env).0, r.schedule, m.id);
    }
  }

  lemma {:induction false} FireKeepsIndex(s: State, ids: seq<int>, now: int)
    ensures FireDownstream(s, ids, now).bySchedule == s.bySchedule && FireDownstream(s, ids, now).nextId == s.nextId
    decreases |ids|
  {
    if ids != [] {
      if ids[0] in s.tasks && s.tasks[ids[0]].enabled {
        FireKeepsIndex(UpdateTask(s, s.tasks[ids[0]].(next := now)), ids[1..], now);
      } else {
        FireKeepsIndex(s, ids[1..], now);
      }
    }
  }

  lemma FiredKeepsIndex(s: State, task: int, st: Status, now: int)
    ensures Fired(s, task, st, now).bySchedule == s.bySchedule && Fired(s, task, st, now).nextId == s.nextId
  {
    if st.Success? { FireKeepsIndex(s, Downstream(s.deps, task), now); }
  }

  lemma {:induction false} ClosedIgnores(s: State, rs: seq<(Report, Env)>, sid: ScheduleId)
    requires Closed(s, sid) && SameInstance(rs, sid)
    ensures ReportAll(s, rs) == s
    decreases |rs|
  {
    if rs != [] {
      assert rs[0].0.schedule == sid;
      ClosedIgnores(s, rs[1..], sid);
    }
  }

  /** Any list of reports on one instance ends in the state its prefix through the
      first terminal report leads to. */
  lemma {:induction false} OnlyFirstTerminalCounts(s: State, rs: seq<(Report, Env)>, sid: ScheduleId)
    requires Sound(s) && SameInstance(rs, sid)
    ensures ReportAll(s, rs) == ReportAll(s, ThroughTerminal(rs))
    decreases |rs|
  {
    if rs != [] {
      var s1 := ReportStatus(s, rs[0].0, rs[0].1).0;
      assert rs[0].0.schedule == sid;
      if IsTerminal(rs[0].0.status) {
        TerminalReportCloses(s, rs[0].0, rs[0].1);
        ClosedIgnores(s1, rs[1..], sid);
        assert ThroughTerminal(rs)[1..] == [];
      } else {
        ReportKeepsSound(s, rs[0].0, rs[0].1);
        OnlyFirstTerminalCounts(s1, rs[1..], sid);
        assert ThroughTerminal(rs)[1..] == ThroughTerminal(rs[1..]);
      }
    }
  }

  // ----------------------------------------------------------------- at most once

  /** The report ends its instance: only then are downstream tasks fired, is load
      released and is a retry created. */
  ghost predicate Completes(s: State, r: Report) { Effective(s, r) && !r.status.Running? }

  lemma OnlyCompletionActs(s: State, r: Report, env: Env)
    requires Sound(s) && !Completes(s, r)
    ensures var s' := ReportStatus(s, r, env).0;
            s'.tasks == s.tasks && s'.workers == s.workers && s'.retryOf == s.retryOf && s'.nextId == s.nextId
  {
    if Effective(s, r) { ReportOrder(s, r, env); }
  }

  ghost function Completions(s: State, rs: seq<(Report, Env)>): nat
    decreases |rs|
  {
    if rs == [] then 0
    else (if Completes(s, rs[0].0) then 1 else 0) + Completions(ReportStatus(s, rs[0].0, rs[0].1).0, rs[1..])
  }

  lemma {:induction false} ClosedNeverCompletes(s: State, rs: seq<(Report, Env)>, sid: ScheduleId)
    requires Closed(s, sid) && SameInstance(rs, sid)
    ensures Completions(s, rs) == 0
    decreases |rs|
  {
    if rs != [] {
      assert rs[0].0.schedule == sid;
      ClosedNeverCompletes(s, rs[1..], sid);
    }
  }

  /** Of any reports a worker sends on one instance, at most one completes it. */
  lemma {:induction false} AtMostOneCompletion(s: State, rs: seq<(Report, Env)>, sid: ScheduleId)
    requires Sound(s) && SameInstance(rs, sid)
    requires forall i :: 0 <= i < |rs| ==> WorkerSends(rs[i].0.status)
    ensures Completions(s, rs) <= 1
    decreases |rs|
  {
    if rs != [] {
      var s1 := ReportStatus(s, rs[0].0, rs[0].1).0;
      assert rs[0].0.schedule == sid && WorkerSends(rs[0].0.status);
      if IsTerminal(rs[0].0.status) {
        TerminalReportCloses(s, rs[0].0, rs[0].1);
        ClosedNeverCompletes(s1, rs[1..], sid);
      } else {
        ReportKeepsSound(s, rs[0].0, rs[0].1);
        AtMostOneCompletion(s1, rs[1..], sid);
      }
    }
  }

  // ---------------------------------------------------------- among other events

  /** A run without the reports on sid that follow its first terminal one. */
  ghost function Prune(events: seq<Event>, sid: ScheduleId, done: bool): seq<Event>
    decreases |events|
  {
    if events == [] then []
    else
      var e, rest := events[0], events[1..];
      if e.Reported? && e.report.schedule == sid then
        if done then Prune(rest, sid, true) else [e] + Prune(rest, sid, IsTerminal(e.report.status))
      else [e] + Prune(rest, sid, done)
  }

  lemma SettledReportIsIgnored(s: State, r: Report, env: Env)
    requires Settled(s, r.schedule) && !r.schedule.NoId?
    ensures ReportStatus(s, r, env) == (s, true)
  {}

  lemma TerminalReportSettles(s: State, r: Report, env: Env)
    requires Sound(s) && IsTerminal(r.status) && !r.schedule.NoId?
    requires var s' := ReportStatus(s, r, env).0; WellFormed(s') && r.schedule in s'.bySchedule
    ensures Settled(ReportStatus(s, r, env).0, r.schedule)
  {
    TerminalReportCloses(s, r, env);
  }

  lemma RunPrepend(s: State, e: Event, events: seq<Event>)
    requires Possible(s, e) && IsRun(Step(s, e), events)
    ensures IsRun(s, [e] + events) && Run(s, [e] + events) == Run(Step(s, e), events)
  {
    assert ([e] + events)[1..] == events;
  }

  /** What a step of such a run leaves for the rest of it. */
  lemma TracedStep(s: State, events: seq<Event>, sid: ScheduleId, done: bool)
    requires Traceable(s) && events != [] && IsRun(s, events) && DistinctIds(Run(s, events))
    requires !sid.NoId? && sid in s.bySchedule && (done ==> Settled(s, sid))
    ensures var e, s1 := events[0], Step(s, events[0]);
            && Traceable(s1) && sid in s1.bySchedule && (done ==> Settled(s1, sid))
            && (e.Reported? && e.report.schedule == sid && IsTerminal(e.report.status) ==> Settled(s1, sid))
  {
    var e, s1 := events[0], Step(s, events[0]);
    StepKeeps(s, e);
    StepKeepsIndexed(s, e);
    RunKeeps(s1, events[1..]);
    DistinctBefore(s1, Run(s, events));
    IndexIsStable(s, s1, sid);
    if done { SettledStays(s, s1, sid); }
    if e.Reported? && e.report.schedule == sid && IsTerminal(e.report.status) {
      TerminalReportSettles(s, e.report, e.env);
    }
  }

  /** On any run, among scans, cancellations and reports on other instances, leaving
      out every report on an instance after its first terminal one changes nothing. */
  lemma {:induction false} LaterReportsDoNothing(s: State, events: seq<Event>, sid: ScheduleId, done: bool)
    requires Traceable(s) && IsRun(s, events) && DistinctIds(Run(s, events))
    requires !sid.NoId? && sid in s.bySchedule && (done ==> Settled(s, sid))
    ensures IsRun(s, Prune(events, sid, done)) && Run(s, Prune(events, sid, done)) == Run(s, events)
    decreases |events|
  {
    if events != [] {
      var e, rest, s1 := events[0], events[1..], Step(s, events[0]);
      TracedStep(s, events, sid, done);
      var onSid := e.Reported? && e.report.schedule == sid;
      if onSid && done {
        SettledReportIsIgnored(s, e.report, e.env);
        LaterReportsDoNothing(s, rest, sid, true);
      } else {
        var done' := if onSid then IsTerminal(e.report.status) else done;
        LaterReportsDoNothing(s1, rest, sid, done');
        RunPrepend(s, e, Prune(rest, sid, done'));
      }
    }
  }
}
