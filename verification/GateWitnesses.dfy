/** Runs that end with every upstream task done, the downstream task due, and its gate
    shut: one for a task with two upstream tasks, one for a task with a single one whose
    success came second. */
module GateWitnesses {
  import opened Common
  import opened RuntimeModel
  import opened Moves
  import opened Runs
  import opened Witnesses

  const YEAR := 365 * 24 * 3600 * SECOND

  function TaskOf(id: int, next: int): Task { TheTask(0, 0).(id := id, next := next) }

  function Three(a: int, b: int, c: int): map<int, Task> { map[1 := TaskOf(1, a), 2 := TaskOf(2, b), 3 := TaskOf(3, c)] }

  /** The k-th instance, triggered at instant k for task k. */
  function Attempt(k: int, st: Status): Instance {
    Instance(k, k, TriggerId(k, k), 0, 0, k, k, Some(7), st, 0, "", 0)
  }

  function Base(deps: seq<(int, int)>, tasks: map<int, Task>, load: int): State {
    State(tasks, deps, map[], map[], 1, TheWorker(load), 0, map[], {})
  }

  function Both(deps: seq<(int, int)>, next: int, first: Status, second: Status, load: int): State {
    Base(deps, Three(1 + YEAR, 2 + YEAR, next), load).(
      instances := map[1 := Attempt(1, first), 2 := Attempt(2, second)],
      bySchedule := map[TriggerId(1, 1) := 1, TriggerId(2, 2) := 2], nextId := 3)
  }

  function Start(deps: seq<(int, int)>): State { Base(deps, Three(1, 2, 10), 0) }

  function AfterFirst(deps: seq<(int, int)>): State {
    Base(deps, Three(1 + YEAR, 2, 10), 1).(
      instances := map[1 := Attempt(1, Dispatched)], bySchedule := map[TriggerId(1, 1) := 1], nextId := 2)
  }

  /** Tasks 1 and 2 depend on nothing; task 3 depends on task 2, and perhaps on task 1. */
  ghost predicate ThirdDepends(deps: seq<(int, int)>) {
    && Upstream(deps, 1) == [] && Upstream(deps, 2) == [] && Downstream(deps, 2) == [3]
    && (Downstream(deps, 1) == [] || Downstream(deps, 1) == [3])
  }

  lemma StartIsFresh(deps: seq<(int, int)>)
    ensures Fresh(Start(deps))
  {}

  lemma OneDue(s: State, id: int, now: int, a: int, b: int, c: int)
    requires s.tasks == Three(a, b, c) && id in s.tasks && IsDue(s.tasks[id], now)
    requires forall k :: k in s.tasks && k != id ==> !IsDue(s.tasks[k], now)
    ensures DueListing(s, now, [id])
  {}

  lemma FirstScanned(deps: seq<(int, int)>)
    requires ThirdDepends(deps)
    ensures StepsTo(Start(deps), Trigger(Finds(1), At(1, true)), AfterFirst(deps))
  {
    var s, t := Start(deps), TaskOf(1, 1);
    OneDue(s, 1, 1, 1, 2, 10);
    ScanTriggers(s, t, 1, 0);
    assert Triggered(s, t, 1, 0).tasks == Three(1 + YEAR, 2, 10);
    assert Triggered(s, t, 1, 0) == AfterFirst(deps);
  }

  lemma SecondTriggered(deps: seq<(int, int)>)
    ensures Triggered(AfterFirst(deps), TaskOf(2, 2), 2, 1) == Both(deps, 10, Dispatched, Dispatched, 2)
  {
    var s := Triggered(AfterFirst(deps), TaskOf(2, 2), 2, 1);
    assert s.tasks == Three(1 + YEAR, 2 + YEAR, 10);
    assert s.instances == Both(deps, 10, Dispatched, Dispatched, 2).instances;
    assert s.bySchedule == Both(deps, 10, Dispatched, Dispatched, 2).bySchedule;
  }

  lemma SecondScanned(deps: seq<(int, int)>)
    requires ThirdDepends(deps)
    ensures StepsTo(AfterFirst(deps), Trigger(Finds(2), At(2, true)), Both(deps, 10, Dispatched, Dispatched, 2))
  {
    var s, t := AfterFirst(deps), TaskOf(2, 2);
    OneDue(s, 2, 2, 1 + YEAR, 2, 10);
    ScanTriggers(s, t, 2, 1);
    SecondTriggered(deps);
  }

  function SuccessOf(k: int): Report { Report(TriggerId(k, k), Some(7), Success, "") }

  /** When the first success has been reported, task 3 is due if it depends on task 1. */
  function Fired(deps: seq<(int, int)>): int { if Downstream(deps, 1) == [3] then 3 else 10 }

  lemma Fires(s: State, ids: seq<int>, a: int, b: int, c: int, now: int)
    requires s.tasks == Three(a, b, c) && (ids == [] || ids == [3])
    ensures FireDownstream(s, ids, now) == s.(tasks := Three(a, b, if ids == [3] then now else c))
  {
    assert s.tasks[3 := TaskOf(3, now)] == Three(a, b, now);
    if ids == [3] { assert ids[1..] == []; }
  }

  lemma Frees(s: State, load: int)
    requires s.workers == TheWorker(load) && 1 <= load
    ensures ReleaseReported(s, Some(7)) == s.(workers := TheWorker(load - 1))
  {
    assert TheWorker(load)[7 := Worker(7, true, map[], 2, load - 1)] == TheWorker(load - 1);
  }

  lemma FirstSucceeds(deps: seq<(int, int)>)
    requires ThirdDepends(deps)
    ensures StepsTo(Both(deps, 10, Dispatched, Dispatched, 2), Reported(SuccessOf(1), At(3, true)),
                    Both(deps, Fired(deps), Success, Dispatched, 1))
  {
    var s := Both(deps, 10, Dispatched, Dispatched, 2);
    var s1 := SetResult(s, TriggerId(1, 1), Success, "");
    assert s1.instances == map[1 := Attempt(1, Success), 2 := Attempt(2, Dispatched)];
    Fires(s1, Downstream(deps, 1), 1 + YEAR, 2 + YEAR, 10, 3);
    Frees(FireDownstream(s1, Downstream(deps, 1), 3), 2);
  }

  lemma SecondSucceeds(deps: seq<(int, int)>)
    requires ThirdDepends(deps)
    ensures StepsTo(Both(deps, Fired(deps), Success, Dispatched, 1), Reported(SuccessOf(2), At(4, true)),
                    Both(deps, 4, Success, Success, 0))
  {
    var s := Both(deps, Fired(deps), Success, Dispatched, 1);
    var s1 := SetResult(s, TriggerId(2, 2), Success, "");
    assert s1.instances == map[1 := Attempt(1, Success), 2 := Attempt(2, Success)];
    Fires(s1, Downstream(deps, 2), 1 + YEAR, 2 + YEAR, Fired(deps), 4);
    Frees(FireDownstream(s1, Downstream(deps, 2), 4), 1);
  }

  function BothSucceed(): seq<Event> {
    [Trigger(Finds(1), At(1, true))] + [Trigger(Finds(2), At(2, true))]
    + [Reported(SuccessOf(1), At(3, true))] + [Reported(SuccessOf(2), At(4, true))]
  }

  function Done(deps: seq<(int, int)>): State { Both(deps, 4, Success, Success, 0) }

  lemma DoneIsReached(deps: seq<(int, int)>)
    requires ThirdDepends(deps)
    ensures Reaches(Start(deps), BothSucceed(), Done(deps))
  {
    FirstScanned(deps);
    SecondScanned(deps);
    FirstSucceeds(deps);
    SecondSucceeds(deps);
    var a, b, c := Trigger(Finds(1), At(1, true)), Trigger(Finds(2), At(2, true)), Reported(SuccessOf(1), At(3, true));
    ThreeSteps(Start(deps), [a] + [b] + [c], a, b, c, AfterFirst(deps), Both(deps, 10, Dispatched, Dispatched, 2),
               Both(deps, Fired(deps), Success, Dispatched, 1));
    RunAppend(Start(deps), [a] + [b] + [c], Reported(SuccessOf(2), At(4, true)));
  }

  lemma OldestIsFirst(deps: seq<(int, int)>)
    ensures OldestSuccess(Done(deps)) == Some(1)
    ensures HasSuccess(Done(deps), 1) && HasSuccess(Done(deps), 2)
  {
    var s := Done(deps);
    assert 1 in s.instances && 2 in s.instances;
    assert 1 in WithStatus(s, Success);
  }

  /** The scan that finds task 3 due puts it off by five seconds and creates nothing. */
  lemma ScanPutsOff(deps: seq<(int, int)>)
    requires !GateOpen(Done(deps), 3)
    ensures StepsTo(Done(deps), Trigger(Finds(3), At(10, true)), Both(deps, 10 + 5 * SECOND, Success, Success, 0))
  {
    var s, t := Done(deps), TaskOf(3, 4);
    OneDue(s, 3, 10, 1 + YEAR, 2 + YEAR, 4);
    ScanOfOne(s, t, At(10, true));
    assert s.tasks[3 := TaskOf(3, 10 + 5 * SECOND)] == Three(1 + YEAR, 2 + YEAR, 10 + 5 * SECOND);
  }

  /** From a fresh scheduler a run leads to a state in which all upstream tasks of task 3
      have succeeded, task 3 is due and its gate is shut, so that a scan triggers nothing. */
  ghost predicate ShutThoughDone(deps: seq<(int, int)>) {
    var s := Done(deps);
    && Fresh(Start(deps)) && Reaches(Start(deps), BothSucceed(), s) && UpstreamDone(s, 3)
    && 3 in s.tasks && IsDue(s.tasks[3], 10) && !GateOpen(s, 3)
    && exists s' :: StepsTo(s, Trigger(Finds(3), At(10, true)), s') && s'.instances == s.instances
  }

  lemma ShutWith(deps: seq<(int, int)>)
    requires ThirdDepends(deps) && 2 in Upstream(deps, 3) && forall d :: d in Upstream(deps, 3) ==> d == 1 || d == 2
    ensures ShutThoughDone(deps)
  {
    StartIsFresh(deps);
    DoneIsReached(deps);
    OldestIsFirst(deps);
    ScanPutsOff(deps);
  }

  /** Task 3 depends on both, and both have succeeded. */
  lemma TwoUpstreamsShut()
    ensures Upstream([(3, 1), (3, 2)], 3) == [1, 2] && ShutThoughDone([(3, 1), (3, 2)])
  {
    var deps: seq<(int, int)> := [(3, 1), (3, 2)];
    assert deps[1..] == [(3, 2)] && deps[1..][1..] == [];
    assert Upstream(deps, 3) == [1, 2];
    ShutWith(deps);
  }

  /** Task 3 depends on task 2 alone, which has succeeded, after task 1 did. */
  lemma OlderSuccessShuts()
    ensures Upstream([(3, 2)], 3) == [2] && ShutThoughDone([(3, 2)])
  {
    var deps: seq<(int, int)> := [(3, 2)];
    assert deps[1..] == [];
    ShutWith(deps);
  }
}
