/** Nine guarded moves on the scheduler state, and the proof that every handler
    is a sequence of them. Whole-run properties are then proved move by move. */
module Moves {
  import opened Common
  import opened RuntimeModel

  datatype Move =
    | Retime(task: int, next: int)
    | Rotate
    | Root(inst: Instance)
    | Child(parent: int, inst: Instance)
    | Place(id: int, worker: WorkerId, now: int)
    | Bounce(id: int, worker: WorkerId, now: int, st: Status, code: string)
    | Park(id: int)
    | Settle(id: int, st: Status, code: string, reporter: Option<WorkerId>)
    | Drop(id: int)

  /** Every upstream task has a successful instance. */
  ghost predicate UpstreamDone(s: State, task: int) {
    forall d :: d in Upstream(s.deps, task) ==> HasSuccess(s, d)
  }

  ghost predicate OneUpstream(deps: seq<(int, int)>, task: int) {
    forall d, e :: d in Upstream(deps, task) && e in Upstream(deps, task) ==> d == e
  }

  ghost predicate HasSuccess(s: State, task: int) {
    exists j :: j in s.instances && s.instances[j].task == task && s.instances[j].status == Success
  }

  ghost predicate Waiting(s: State, id: int) {
    id in s.instances && (s.instances[id].status == Pending || s.instances[id].status == RetryWaiting)
  }

  ghost predicate Unfinished(s: State, id: int) { id in s.instances && !IsTerminal(s.instances[id].status) }

  /** The retry window, counted from the attempt that failed, is still open. */
  ghost predicate InWindow(failed: Instance, t: Task, at: int) { !WindowExceeded(failed, t.retryWindow, at) }

  ghost predicate Enabled(s: State, m: Move) {
    match m
    case Retime(task, next) => task in s.tasks
    case Rotate => true
    case Root(inst) =>
      && inst.status == Pending && inst.retryCount == 0 && inst.worker == None
      && inst.schedule.TriggerId? && UpstreamDone(s, inst.task) && OneUpstream(s.deps, inst.task)
    case Child(parent, inst) =>
      && parent in s.instances && IsRetryable(s.instances[parent].status) && parent !in s.retryOf.Values
      && inst.task == s.instances[parent].task && inst.task in s.tasks
      && s.instances[parent].retryCount < s.tasks[inst.task].maxRetry
      && inst.retryCount == s.instances[parent].retryCount + 1 && inst.worker == None
      && (inst.status == Pending || inst.status == RetryWaiting)
      && inst.schedule.RetryId? && inst.schedule.count == inst.retryCount
      && InWindow(s.instances[parent], s.tasks[inst.task], inst.triggered)
    case Place(id, w, _) => Waiting(s, id) && w in s.workers && HasCapacity(s.workers[w])
    case Bounce(id, w, _, st, _) =>
      && Waiting(s, id) && w in s.workers
      && (st == RetryWaiting || (st == Failed && s.instances[id].status == Pending))
    case Park(id) => id in s.instances && s.instances[id].status == Pending
    case Settle(id, _, _, _) => Unfinished(s, id)
    case Drop(id) => Unfinished(s, id)
  }

  ghost function Apply(s: State, m: Move): State
    requires Enabled(s, m)
  {
    match m
    case Retime(task, next) => s.(tasks := s.tasks[task := s.tasks[task].(next := next)])
    case Rotate => s.(rrCounter := s.rrCounter + 1)
    case Root(inst) => Create(s, inst)
    case Child(parent, inst) => CreateRetry(s, parent, inst)
    case Place(id, w, now) =>
      SetDispatch(s, id, w, now).(workers := s.workers[w := s.workers[w].(load := s.workers[w].load + 1)])
    case Bounce(id, w, now, st, code) =>
      s.(instances := s.instances[id := s.instances[id].(worker := Some(w), dispatched := now, status := st, errorCode := code)])
    case Park(id) => SetStatus(s, id, RetryWaiting)
    case Settle(id, st, code, reporter) =>
      ReleaseReported(s.(instances := s.instances[id := s.instances[id].(status := st, errorCode := code)]), reporter)
    case Drop(id) =>
      s.(instances := s.instances[id := s.instances[id].(status := Cancelled, errorCode := "cancelled")],
         leaked := if InFlight(s.instances[id].status) then s.leaked + {id} else s.leaked)
  }

  ghost predicate Path(s: State, ms: seq<Move>)
    decreases |ms|
  {
    ms == [] || (Enabled(s, ms[0]) && Path(Apply(s, ms[0]), ms[1..]))
  }

  ghost function ApplyAll(s: State, ms: seq<Move>): State
    requires Path(s, ms)
    decreases |ms|
  {
    if ms == [] then s else ApplyAll(Apply(s, ms[0]), ms[1..])
  }

  ghost predicate Leads(s: State, ms: seq<Move>, s': State) { Path(s, ms) && ApplyAll(s, ms) == s' }

  lemma {:induction false} Chain(s: State, ms: seq<Move>, s1: State, ns: seq<Move>, s2: State)
    requires Leads(s, ms, s1) && Leads(s1, ns, s2)
    ensures Leads(s, ms + ns, s2)
    decreases |ms|
  {
    if ms == [] {
      assert ms + ns == ns;
    } else {
      Chain(Apply(s, ms[0]), ms[1..], s1, ns, s2);
      assert (ms + ns)[1..] == ms[1..] + ns;
    }
  }

  lemma One(s: State, m: Move)
    requires Enabled(s, m)
    ensures Leads(s, [m], Apply(s, m))
  {}

  // ------------------------------------------------------------- well-formedness

  ghost predicate IdMatches(inst: Instance) {
    match inst.schedule
    case TriggerId(_, _) => inst.retryCount == 0
    case RetryId(_, count, _) => inst.retryCount == count > 0
    case _ => false
  }

  ghost predicate InstancesOk(instances: map<int, Instance>, nextId: int) {
    forall i :: i in instances ==> instances[i].id == i && i < nextId && IdMatches(instances[i])
  }

  ghost predicate IndexOk(instances: map<int, Instance>, bySchedule: map<ScheduleId, int>) {
    forall sid :: sid in bySchedule ==> bySchedule[sid] in instances && instances[bySchedule[sid]].schedule == sid
  }

  ghost predicate TasksOk(tasks: map<int, Task>) { forall t :: t in tasks ==> tasks[t].id == t }

  ghost predicate WorkersOk(workers: map<WorkerId, Worker>) {
    forall w :: w in workers ==> workers[w].id == w && workers[w].load >= 0
  }

  ghost predicate WellFormed(s: State) {
    && InstancesOk(s.instances, s.nextId) && IndexOk(s.instances, s.bySchedule)
    && TasksOk(s.tasks) && WorkersOk(s.workers)
  }

  /** Retries form chains: each instance is retried at most once, after it failed
      or timed out, by an instance of the same task with the next retry count. */
  ghost predicate RetryLinks(s: State) {
    && (forall i :: i in s.retryOf ==> Link(s, i, s.retryOf[i]))
    && (forall i, j :: i in s.retryOf && j in s.retryOf && s.retryOf[i] == s.retryOf[j] ==> i == j)
    && (forall i :: i in s.instances && i !in s.retryOf ==> s.instances[i].retryCount == 0)
  }

  ghost predicate Link(s: State, i: int, parent: int) {
    && i in s.instances && parent in s.instances && parent < i
    && IsRetryable(s.instances[parent].status)
    && s.instances[i].task == s.instances[parent].task && s.instances[i].task in s.tasks
    && s.instances[i].retryCount == s.instances[parent].retryCount + 1 <= s.tasks[s.instances[i].task].maxRetry
    && InWindow(s.instances[parent], s.tasks[s.instances[i].task], s.instances[i].triggered)
  }

  ghost predicate Sound(s: State) { WellFormed(s) && RetryLinks(s) }

  lemma LoadKeepsWorkers(workers: map<WorkerId, Worker>, w: WorkerId, load: int)
    requires WorkersOk(workers) && w in workers && load >= 0
    ensures WorkersOk(workers[w := workers[w].(load := load)])
  {}

  lemma MoveKeepsWellFormed(s: State, m: Move)
    requires WellFormed(s) && Enabled(s, m)
    ensures WellFormed(Apply(s, m))
  {
    var s' := Apply(s, m);
    assert WorkersOk(s'.workers) by {
      match m
      case Place(_, w, _) => LoadKeepsWorkers(s.workers, w, s.workers[w].load + 1);
      case Settle(_, _, _, r) =>
        if r.Some? && r.value in s.workers {
          var load := s.workers[r.value].load;
          assert s.workers[r.value].id == r.value;
          LoadKeepsWorkers(s.workers, r.value, if load > 0 then load - 1 else load);
        }
      case _ =>
    }
    assert TasksOk(s'.tasks);
    assert InstancesOk(s'.instances, s'.nextId);
    assert IndexOk(s'.instances, s'.bySchedule);
  }

  /** What no step ever changes: the configuration of a task, the identity of an
      instance, and everything about an instance that has reached a terminal status. */
  ghost predicate Evolves(s: State, s': State) {
    && s'.deps == s.deps
    && (forall t :: t in s.tasks ==> t in s'.tasks && s'.tasks[t].(next := 0) == s.tasks[t].(next := 0))
    && (forall i :: i in s.instances ==> i in s'.instances && Continues(s.instances[i], s'.instances[i]))
  }

  ghost predicate Continues(a: Instance, b: Instance) {
    && b.task == a.task && b.retryCount == a.retryCount && b.schedule == a.schedule && b.triggered == a.triggered
    && (IsTerminal(a.status) ==> b == a)
  }

  lemma MoveEvolves(s: State, m: Move)
    requires WellFormed(s) && Enabled(s, m)
    ensures Evolves(s, Apply(s, m))
  {
    assert s.nextId !in s.instances;
  }

  lemma LinkPersists(s: State, s': State, i: int, parent: int)
    requires Evolves(s, s') && Link(s, i, parent)
    ensures Link(s', i, parent)
  {}

  lemma MoveKeepsLinks(s: State, m: Move)
    requires WellFormed(s) && RetryLinks(s) && Enabled(s, m)
    ensures RetryLinks(Apply(s, m))
  {
    var s' := Apply(s, m);
    MoveEvolves(s, m);
    forall i | i in s.retryOf ensures Link(s', i, s.retryOf[i]) { LinkPersists(s, s', i, s.retryOf[i]); }
    if m.Child? { ChildLinks(s, m.parent, m.inst); } else { OthersKeepCounts(s, m); }
  }

  lemma OthersKeepCounts(s: State, m: Move)
    requires WellFormed(s) && RetryLinks(s) && Enabled(s, m) && !m.Child?
    ensures var s' := Apply(s, m);
            && s'.retryOf == s.retryOf
            && forall i :: i in s'.instances && i !in s.retryOf ==> s'.instances[i].retryCount == 0
  {
    MoveEvolves(s, m);
  }

  lemma ChildLinks(s: State, parent: int, inst: Instance)
    requires WellFormed(s) && RetryLinks(s) && Enabled(s, Child(parent, inst))
    ensures RetryLinks(CreateRetry(s, parent, inst))
  {
    var s' := CreateRetry(s, parent, inst);
    MoveEvolves(s, Child(parent, inst));
    assert s.nextId !in s.instances;
    forall i | i in s.retryOf ensures Link(s', i, s.retryOf[i]) && s.retryOf[i] != parent {
      LinkPersists(s, s', i, s.retryOf[i]);
      assert s.retryOf[i] in s.retryOf.Values;
    }
    assert Link(s', s.nextId, parent);
  }
}
