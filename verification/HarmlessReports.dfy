/** Exactly which reports keep the load accounts balanced: a worker whose load is off
    stays off through everything the scheduler does next, so one harmful report is
    never made good by the handler that processes it. */
module HarmlessReports {
  import opened Common
  import opened RuntimeModel
  import opened Moves
  import opened Handlers
  import opened LoadConservation

  lemma MoveKeepsLeaks(s: State, m: Move)
    requires WellFormed(s) && LeaksCancelled(s) && Enabled(s, m)
    ensures LeaksCancelled(Apply(s, m))
  {
    MoveEvolves(s, m);
  }

  /** Anything but a report changes load and occupants alike. */
  lemma QuietMoveKeepsEven(s: State, m: Move, w: WorkerId)
    requires WellFormed(s) && LeaksCancelled(s) && Enabled(s, m) && !m.Settle? && w in s.workers
    ensures Even(Apply(s, m), w) <==> Even(s, w)
  {
    LoadAfter(s, m, w);
    OccupancyChange(s, m, w);
  }

  lemma {:induction false} QuietPathKeepsEven(s: State, ms: seq<Move>, w: WorkerId)
    requires Sound(s) && LeaksCancelled(s) && Path(s, ms) && Quiet(ms) && w in s.workers
    ensures w in ApplyAll(s, ms).workers && (Even(ApplyAll(s, ms), w) <==> Even(s, w))
    decreases |ms|
  {
    if ms != [] {
      MoveKeepsWellFormed(s, ms[0]);
      MoveKeepsLinks(s, ms[0]);
      MoveKeepsLeaks(s, ms[0]);
      SameWorkers(s, ms[0]);
      QuietMoveKeepsEven(s, ms[0], w);
      QuietPathKeepsEven(Apply(s, ms[0]), ms[1..], w);
    }
  }

  /** The worker whose account a harmful report upsets. */
  ghost function Upset(inst: Instance, r: Report): Option<WorkerId> {
    if r.status.Running? || InFlight(inst.status) then inst.worker else r.worker
  }

  lemma HarmUpsets(s: State, r: Report, w: WorkerId)
    requires Accounted(s) && WorkerSends(r.status) && Effective(s, r) && !Harmless(s, r) && w in s.workers
    requires Upset(Resolve(s, r.schedule).value, r) == Some(w)
    ensures !Even(Apply(s, SettleMove(s, r)), w)
  {
    var m := SettleMove(s, r);
    assert Even(s, w);
    LoadAfter(s, m, w);
    OccupancyChange(s, m, w);
  }

  lemma HarmStays(s: State, r: Report, env: Env, w: WorkerId)
    requires Sound(s) && LeaksCancelled(s) && Effective(s, r) && w in s.workers && !Even(Apply(s, SettleMove(s, r)), w)
    ensures w in ReportStatus(s, r, env).0.workers && !Even(ReportStatus(s, r, env).0, w)
  {
    var m := SettleMove(s, r);
    var rest := SettledMoves(s, r, env);
    MoveKeepsWellFormed(s, m);
    MoveKeepsLinks(s, m);
    MoveKeepsLeaks(s, m);
    SameWorkers(s, m);
    QuietPathKeepsEven(Apply(s, m), rest, w);
  }

  /** A harmful report leaves some worker's load off, or, if it revives an instance that
      was never sent to a known worker, an instance in flight on none. */
  lemma HarmUnbalances(s: State, r: Report, env: Env)
    requires Accounted(s) && WorkerSends(r.status) && !Harmless(s, r)
    ensures !Accounted(ReportStatus(s, r, env).0)
  {
    var inst := Resolve(s, r.schedule).value;
    var w := Upset(inst, r);
    if w.Some? && w.value in s.workers {
      HarmUpsets(s, r, w.value);
      HarmStays(s, r, env, w.value);
    } else {
      ReportOrder(s, r, env);
      assert ReportStatus(s, r, env).0.instances[s.bySchedule[r.schedule]].status == Running;
    }
  }

  /** With a status that workers send, a report keeps the accounts balanced if and only if
      it is harmless where it arrives. */
  lemma ReportBalancesIff(s: State, r: Report, env: Env)
    requires Accounted(s) && WorkerSends(r.status)
    ensures Accounted(ReportStatus(s, r, env).0) <==> Harmless(s, r)
  {
    if Harmless(s, r) { StepKeepsAccounted(s, Reported(r, env)); } else { HarmUnbalances(s, r, env); }
  }

  // -------------------------------------------------------------------------- runs

  ghost predicate FromWorkers(events: seq<Event>) {
    forall i :: 0 <= i < |events| && events[i].Reported? ==> WorkerSends(events[i].report.status)
  }

  ghost predicate AlwaysAccounted(s: State, events: seq<Event>)
    requires IsRun(s, events)
    decreases |events|
  {
    Accounted(s) && (events != [] ==> AlwaysAccounted(Step(s, events[0]), events[1..]))
  }

  /** Every report of the run is harmless in the state in which it arrives. */
  ghost predicate AllHarmless(s: State, events: seq<Event>)
    requires IsRun(s, events)
    decreases |events|
  {
    events != [] ==>
      (events[0].Reported? ==> Harmless(s, events[0].report)) && AllHarmless(Step(s, events[0]), events[1..])
  }

  lemma StepBalancesIff(s: State, e: Event)
    requires Accounted(s) && Possible(s, e) && (e.Reported? ==> WorkerSends(e.report.status))
    ensures Accounted(Step(s, e)) <==> (e.Reported? ==> Harmless(s, e.report))
  {
    if e.Reported? { ReportBalancesIff(s, e.report, e.env); } else { StepKeepsAccounted(s, e); }
  }

  /** On any run with statuses that workers send, the accounts are balanced in every state
      if and only if every report is harmless when it arrives. */
  lemma {:induction false} AccountedIff(s: State, events: seq<Event>)
    requires Accounted(s) && IsRun(s, events) && FromWorkers(events)
    ensures AlwaysAccounted(s, events) <==> AllHarmless(s, events)
    decreases |events|
  {
    if events != [] {
      StepBalancesIff(s, events[0]);
      if Accounted(Step(s, events[0])) { AccountedIff(Step(s, events[0]), events[1..]); }
    }
  }
}
