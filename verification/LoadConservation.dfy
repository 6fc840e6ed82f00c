/** Worker load is conserved: on every run of trigger scans, retry scans, proper
    reports and cancellations, a worker's load is the number of its instances in
    flight plus the number cancelled while in flight, and stays within its limit. */
module LoadConservation {
  import opened Common
  import opened RuntimeModel
  import opened Moves
  import opened Handlers
  import opened Runs

  ghost function InFlightOn(s: State, w: WorkerId): set<int> {
    set i | i in s.instances && s.instances[i].worker == Some(w) && InFlight(s.instances[i].status)
  }

  ghost function LeakedOn(s: State, w: WorkerId): set<int> {
    set i | i in s.leaked && i in s.instances && s.instances[i].worker == Some(w)
  }

  ghost predicate Occupies(instances: map<int, Instance>, leaked: set<int>, i: int, w: WorkerId) {
    i in instances && instances[i].worker == Some(w) && (InFlight(instances[i].status) || i in leaked)
  }

  ghost function Occupants(instances: map<int, Instance>, leaked: set<int>, w: WorkerId): set<int> {
    set i | i in instances && Occupies(instances, leaked, i, w)
  }

  ghost predicate LeaksCancelled(s: State) {
    forall i :: i in s.leaked ==> i in s.instances && s.instances[i].status == Cancelled
  }

  ghost predicate Attached(s: State) {
    && (forall i :: i in s.instances && InFlight(s.instances[i].status) ==>
          s.instances[i].worker.Some? && s.instances[i].worker.value in s.workers)
    && LeaksCancelled(s)
  }

  ghost predicate Even(s: State, w: WorkerId) {
    w in s.workers && s.workers[w].load == |Occupants(s.instances, s.leaked, w)|
  }

  ghost predicate Balanced(s: State) {
    forall w :: w in s.workers ==> Even(s, w) && (s.workers[w].load == 0 || s.workers[w].load <= s.workers[w].max)
  }

  ghost predicate Accounted(s: State) { Sound(s) && Attached(s) && Balanced(s) }

  /** Releasing this worker would take a unit of load away. */
  ghost predicate Takes(s: State, w: Option<WorkerId>) {
    w.Some? && w.value in s.workers && s.workers[w.value].load > 0
  }

  /** With a status that workers send, an instance in flight goes on, or ends with a
      report of the worker it was dispatched to; any other instance ends with a report
      that takes no load away. */
  ghost predicate Regular(s: State, m: Move)
    requires Enabled(s, m)
  {
    m.Settle? ==>
      var inst := s.instances[m.id];
      && WorkerSends(m.st)
      && if m.st.Running? then InFlight(inst.status) && m.reporter.None?
         else if InFlight(inst.status) then m.reporter == inst.worker
         else !Takes(s, m.reporter)
  }

  /** Changing one instance changes the occupants of a worker by that instance only. */
  lemma OccupantsUpdate(instances: map<int, Instance>, leaked: set<int>, leaked': set<int>, id: int, x: Instance, w: WorkerId)
    requires forall i :: i != id ==> (i in leaked <==> i in leaked')
    ensures var after := instances[id := x];
            Occupants(after, leaked', w) ==
              (Occupants(instances, leaked, w) - {id}) + (if Occupies(after, leaked', id, w) then {id} else {})
  {}

  lemma CountUpdate(instances: map<int, Instance>, leaked: set<int>, leaked': set<int>, id: int, x: Instance, w: WorkerId)
    requires forall i :: i != id ==> (i in leaked <==> i in leaked')
    ensures var after := instances[id := x];
            |Occupants(after, leaked', w)| == |Occupants(instances, leaked, w)|
              - (if Occupies(instances, leaked, id, w) then 1 else 0)
              + (if Occupies(after, leaked', id, w) then 1 else 0)
  {
    OccupantsUpdate(instances, leaked, leaked', id, x, w);
    var before := Occupants(instances, leaked, w);
    assert id in before <==> Occupies(instances, leaked, id, w);
    assert |before - {id}| == |before| - (if id in before then 1 else 0);
  }

  lemma MoveKeepsAttached(s: State, m: Move)
    requires WellFormed(s) && Attached(s) && Enabled(s, m)
    requires m.Settle? && InFlight(m.st) ==>
               s.instances[m.id].worker.Some? && s.instances[m.id].worker.value in s.workers
    ensures Attached(Apply(s, m))
  {
    assert s.nextId !in s.instances;
  }

  /** The instance a move changes, if it changes one. */
  ghost function Changed(s: State, m: Move): int
    requires Enabled(s, m) && !m.Retime? && !m.Rotate?
  {
    match m
    case Root(_) => s.nextId
    case Child(_, _) => s.nextId
    case Place(id, _, _) => id
    case Bounce(id, _, _, _, _) => id
    case Park(id) => id
    case Settle(id, _, _, _) => id
    case Drop(id) => id
  }

  lemma ChangesOne(s: State, m: Move)
    requires WellFormed(s) && Enabled(s, m) && !m.Retime? && !m.Rotate?
    ensures var s', id := Apply(s, m), Changed(s, m);
            && id in s'.instances && s'.instances == s.instances[id := s'.instances[id]]
            && forall i :: i != id ==> (i in s.leaked <==> i in s'.leaked)
  {}

  ghost function LoadChange(s: State, m: Move, w: WorkerId): int
    requires Enabled(s, m)
  {
    if m.Place? && m.worker == w then 1
    else if m.Settle? && m.reporter == Some(w) && w in s.workers && s.workers[w].load > 0 then -1
    else 0
  }

  lemma LoadAfter(s: State, m: Move, w: WorkerId)
    requires WellFormed(s) && Enabled(s, m) && w in s.workers
    ensures var s' := Apply(s, m);
            w in s'.workers && s'.workers[w] == s.workers[w].(load := s.workers[w].load + LoadChange(s, m, w))
  {
    if m.Settle? && m.reporter.Some? && m.reporter.value in s.workers {
      assert s.workers[m.reporter.value].id == m.reporter.value;
    }
  }

  lemma SameWorkers(s: State, m: Move)
    requires WellFormed(s) && Enabled(s, m)
    ensures Apply(s, m).workers.Keys == s.workers.Keys
  {
    if m.Settle? && m.reporter.Some? && m.reporter.value in s.workers {
      assert s.workers[m.reporter.value].id == m.reporter.value;
    }
  }

  /** Whatever a move does to the occupants is its effect on the changed instance. */
  lemma OccupancyChange(s: State, m: Move, w: WorkerId)
    requires WellFormed(s) && LeaksCancelled(s) && Enabled(s, m)
    ensures var s' := Apply(s, m);
            |Occupants(s'.instances, s'.leaked, w)| == |Occupants(s.instances, s.leaked, w)|
              + (if m.Place? && m.worker == w then 1
                 else if m.Settle? && s.instances[m.id].worker == Some(w)
                 then (if InFlight(m.st) then 1 else 0) - (if InFlight(s.instances[m.id].status) then 1 else 0)
                 else 0)
  {
    var s' := Apply(s, m);
    if !m.Retime? && !m.Rotate? {
      var id := Changed(s, m);
      ChangesOne(s, m);
      CountUpdate(s.instances, s.leaked, s'.leaked, id, s'.instances[id], w);
      assert id !in s.leaked;
    }
  }

  lemma OccupancyAfter(s: State, m: Move, w: WorkerId)
    requires Accounted(s) && Enabled(s, m) && Regular(s, m) && w in s.workers
    ensures var s' := Apply(s, m);
            |Occupants(s'.instances, s'.leaked, w)| == |Occupants(s.instances, s.leaked, w)| + LoadChange(s, m, w)
  {
    OccupancyChange(s, m, w);
    if m.Settle? && InFlight(s.instances[m.id].status) && s.instances[m.id].worker == Some(w) {
      assert m.id in Occupants(s.instances, s.leaked, w);
      assert Even(s, w) && s.workers[w].load > 0;
    }
  }

  lemma MoveKeepsAccounted(s: State, m: Move)
    requires Accounted(s) && Enabled(s, m) && Regular(s, m)
    ensures Accounted(Apply(s, m))
  {
    var s' := Apply(s, m);
    MoveKeepsWellFormed(s, m);
    MoveKeepsLinks(s, m);
    MoveKeepsAttached(s, m);
    SameWorkers(s, m);
    forall w | w in s'.workers
      ensures Even(s', w) && (s'.workers[w].load == 0 || s'.workers[w].load <= s'.workers[w].max)
    {
      assert Even(s, w);
      LoadAfter(s, m, w);
      OccupancyAfter(s, m, w);
    }
  }

  lemma {:induction false} QuietPathKeepsAccounted(s: State, ms: seq<Move>)
    requires Accounted(s) && Path(s, ms) && Quiet(ms)
    ensures Accounted(ApplyAll(s, ms)) && ApplyAll(s, ms).leaked == s.leaked
    decreases |ms|
  {
    if ms != [] {
      MoveKeepsAccounted(s, ms[0]);
      QuietPathKeepsAccounted(Apply(s, ms[0]), ms[1..]);
    }
  }

  /** A report can be ignored, or its instance is in flight and reported on by its own
      worker, or it takes no load away. */
  ghost predicate Harmless(s: State, r: Report) {
    Effective(s, r) ==>
      var inst := Resolve(s, r.schedule).value;
      if r.status.Running? then InFlight(inst.status)
      else if InFlight(inst.status) then r.worker == inst.worker
      else !Takes(s, r.worker)
  }

  ghost predicate ProperReport(s: State, r: Report) { Effective(s, r) ==> WorkerSends(r.status) && Harmless(s, r) }

  ghost predicate Proper(s: State, e: Event) { Possible(s, e) && (e.Reported? ==> ProperReport(s, e.report)) }

  ghost predicate CancelsInFlight(s: State, e: Event) {
    e.CancelRequest? && Resolve(s, e.schedule).Some? && InFlight(Resolve(s, e.schedule).value.status)
  }

  /** One effective report, then quiet moves. */
  lemma ReportKeepsAccounted(s: State, r: Report, ms: seq<Move>)
    requires Accounted(s) && ProperReport(s, r) && Effective(s, r)
    requires Path(s, ms) && ms != [] && ms[0] == SettleMove(s, r) && Quiet(ms[1..])
    ensures Accounted(ApplyAll(s, ms)) && ApplyAll(s, ms).leaked == s.leaked
  {
    MoveKeepsAccounted(s, ms[0]);
    QuietPathKeepsAccounted(Apply(s, ms[0]), ms[1..]);
  }

  lemma CancelKeepsAccounted(s: State, sid: ScheduleId)
    requires Accounted(s)
    ensures var s' := CancelInstance(s, sid).0;
            && Accounted(s')
            && s'.leaked == s.leaked + (if CancelsInFlight(s, CancelRequest(sid)) then {s.bySchedule[sid]} else {})
  {
    var ms := CancelMoves(s, sid);
    if ms != [] {
      assert ms[1..] == [];
      MoveKeepsAccounted(s, ms[0]);
    }
  }

  lemma StepKeepsAccounted(s: State, e: Event)
    requires Accounted(s) && Proper(s, e)
    ensures Accounted(Step(s, e))
    ensures Step(s, e).leaked == s.leaked + (if CancelsInFlight(s, e) then {s.bySchedule[e.schedule]} else {})
  {
    if e.CancelRequest? {
      CancelKeepsAccounted(s, e.schedule);
    } else {
      var ms := EventMoves(s, e);
      if e.Reported? && ms != [] { ReportKeepsAccounted(s, e.report, ms); } else { QuietPathKeepsAccounted(s, ms); }
    }
  }

  ghost predicate IsProperRun(s: State, events: seq<Event>)
    decreases |events|
  {
    events == [] || (Proper(s, events[0]) && IsProperRun(Step(s, events[0]), events[1..]))
  }

  /** Some event of the run cancels an instance of worker w that is in flight. */
  ghost predicate LeaksOn(s: State, events: seq<Event>, w: WorkerId)
    requires IsProperRun(s, events)
    decreases |events|
  {
    events != [] &&
    ((CancelsInFlight(s, events[0]) && Resolve(s, events[0].schedule).value.worker == Some(w))
     || LeaksOn(Step(s, events[0]), events[1..], w))
  }

  lemma {:induction false} ProperRunIsRun(s: State, events: seq<Event>)
    requires IsProperRun(s, events)
    ensures IsRun(s, events)
    decreases |events|
  {
    if events != [] { ProperRunIsRun(Step(s, events[0]), events[1..]); }
  }

  lemma {:induction false} RunKeepsAccounted(s: State, events: seq<Event>)
    requires Accounted(s) && IsProperRun(s, events)
    ensures IsRun(s, events) && Accounted(Run(s, events))
    decreases |events|
  {
    ProperRunIsRun(s, events);
    if events != [] {
      StepKeepsAccounted(s, events[0]);
      RunKeepsAccounted(Step(s, events[0]), events[1..]);
    }
  }

  lemma OccupantsSplit(s: State, w: WorkerId)
    requires Attached(s)
    ensures |Occupants(s.instances, s.leaked, w)| == |InFlightOn(s, w)| + |LeakedOn(s, w)|
  {
    assert Occupants(s.instances, s.leaked, w) == InFlightOn(s, w) + LeakedOn(s, w);
    assert InFlightOn(s, w) !! LeakedOn(s, w);
  }

  /** Every worker's load is the work it has in flight plus what cancelling has leaked. */
  ghost predicate Conserved(s: State) {
    forall w :: w in s.workers ==> s.workers[w].load == |InFlightOn(s, w)| + |LeakedOn(s, w)|
  }

  lemma ConservedIffEven(s: State)
    requires Attached(s)
    ensures Conserved(s) <==> forall w :: w in s.workers ==> Even(s, w)
  {
    forall w | w in s.workers ensures Even(s, w) <==> s.workers[w].load == |InFlightOn(s, w)| + |LeakedOn(s, w)| {
      OccupantsSplit(s, w);
    }
  }

  /** The load of every worker is exactly what it runs plus what cancellation leaked. */
  lemma LoadIsConserved(s: State, events: seq<Event>, w: WorkerId)
    requires Accounted(s) && IsProperRun(s, events) && IsRun(s, events) && w in Run(s, events).workers
    ensures var s' := Run(s, events); var load := s'.workers[w].load;
            && load == |InFlightOn(s', w)| + |LeakedOn(s', w)|
            && (load == 0 || load <= s'.workers[w].max)
  {
    RunKeepsAccounted(s, events);
    OccupantsSplit(Run(s, events), w);
  }

  lemma {:induction false} LeakedGrowth(s: State, events: seq<Event>, w: WorkerId)
    requires Accounted(s) && IsProperRun(s, events) && IsRun(s, events)
    ensures LeakedOn(Run(s, events), w) != {} <==> LeakedOn(s, w) != {} || LeaksOn(s, events, w)
    decreases |events|
  {
    if events != [] {
      var e, s1 := events[0], Step(s, events[0]);
      StepKeepsAccounted(s, e);
      StepKeeps(s, e);
      LeakedStep(s, e, w);
      LeakedGrowth(s1, events[1..], w);
    }
  }

  /** Leaked instances stay with their worker; at most one more joins them. */
  lemma LeakedJoin(s: State, s': State, id: int, w: WorkerId)
    requires s'.leaked == s.leaked + {id} && id in s'.instances
    requires forall i :: i in s.leaked ==> i in s.instances && i in s'.instances && s'.instances[i] == s.instances[i]
    ensures LeakedOn(s', w) != {} <==> LeakedOn(s, w) != {} || s'.instances[id].worker == Some(w)
  {
    assert forall i :: i in LeakedOn(s, w) ==> i in LeakedOn(s', w);
    assert forall i :: i in LeakedOn(s', w) ==> i in LeakedOn(s, w) || i == id;
    assert s'.instances[id].worker == Some(w) ==> id in LeakedOn(s', w);
  }

  lemma LeakedStay(s: State, s': State, w: WorkerId)
    requires s'.leaked == s.leaked
    requires forall i :: i in s.leaked ==> i in s.instances && i in s'.instances && s'.instances[i] == s.instances[i]
    ensures LeakedOn(s', w) == LeakedOn(s, w)
  {
    assert forall i :: i in LeakedOn(s', w) <==> i in LeakedOn(s, w);
  }

  lemma LeakedStep(s: State, e: Event, w: WorkerId)
    requires Accounted(s) && Proper(s, e)
    ensures LeakedOn(Step(s, e), w) != {} <==>
              LeakedOn(s, w) != {} || (CancelsInFlight(s, e) && Resolve(s, e.schedule).value.worker == Some(w))
  {
    var s' := Step(s, e);
    StepKeepsAccounted(s, e);
    StepKeeps(s, e);
    if CancelsInFlight(s, e) {
      var id := s.bySchedule[e.schedule];
      assert s'.instances[id].worker == s.instances[id].worker;
      LeakedJoin(s, s', id, w);
    } else {
      assert s.leaked + {} == s.leaked;
      LeakedStay(s, s', w);
    }
  }

  /** From a fresh scheduler, load equals work in flight exactly when no cancellation
      hit one of the worker's instances while it was in flight. */
  lemma LoadIsExactUnlessCancelled(s: State, events: seq<Event>, w: WorkerId)
    requires Fresh(s) && IsProperRun(s, events) && IsRun(s, events) && w in Run(s, events).workers
    ensures var s' := Run(s, events);
            s'.workers[w].load == |InFlightOn(s', w)| <==> !LeaksOn(s, events, w)
  {
    FreshIsSound(s);
    assert forall v :: Occupants(s.instances, s.leaked, v) == {};
    assert Accounted(s);
    LoadIsConserved(s, events, w);
    LeakedGrowth(s, events, w);
    assert LeakedOn(s, w) == {};
  }
}
