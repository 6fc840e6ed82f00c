/** The scheduler as the source runs it: repositories updated in place, loops over
    tasks, shards, workers and instances. The object's invariant is that it has been
    reached by a run, so that every theorem about runs holds of it; each of its four
    entry points extends that run by one event. */
module Scheduler {
  import opened Common
  import opened Backpressure
  import opened RuntimeModel
  import opened Moves
  import opened Runs
  import opened LoadConservation
  import opened PendingBound
  import DependencyGate
  import Handlers
  import ReportEffects
  import TriggerEffects
  import ScanEffects
  import RetryEffects
  import Cron
  import Text

  ghost function WithCapacity(workers: map<WorkerId, Worker>): set<WorkerId> {
    set w | w in workers && HasCapacity(workers[w])
  }

  /** An increasing list is determined by its elements. */
  lemma {:induction false} AscendingIsUnique(a: seq<int>, b: seq<int>)
    requires forall i, j :: 0 <= i < j < |a| ==> a[i] < a[j]
    requires forall i, j :: 0 <= i < j < |b| ==> b[i] < b[j]
    requires forall x :: x in a <==> x in b
    ensures a == b
  {
    if a != [] || b != [] {
      var y := (a + b)[0];
      assert y in a + b;
      assert y in a && y in b;
      assert a[0] in b && b[0] in a;
      assert a[0] == b[0];
      forall x ensures x in a[1..] <==> x in b[1..] {
        assert x in a[1..] ==> x in a && x != a[0];
        assert x in b[1..] ==> x in b && x != b[0];
      }
      AscendingIsUnique(a[1..], b[1..]);
      assert a == [a[0]] + a[1..] && b == [b[0]] + b[1..];
    }
  }

  /** r is what is left of an increasing list after dropping what is not in keep. */
  ghost predicate Kept(ids: seq<int>, k: nat, keep: set<int>, r: seq<int>)
    requires k <= |ids|
  {
    && (forall i :: 0 <= i < |r| ==> r[i] in keep)
    && (forall i, j :: 0 <= i < j < |r| ==> r[i] < r[j])
    && (forall i, j :: 0 <= i < |r| && k <= j < |ids| ==> r[i] < ids[j])
    && (forall i :: 0 <= i < k && ids[i] in keep ==> ids[i] in r)
  }

  lemma KeptStep(ids: seq<int>, k: nat, keep: set<int>, r: seq<int>)
    requires k < |ids| && Kept(ids, k, keep, r) && forall i, j :: 0 <= i < j < |ids| ==> ids[i] < ids[j]
    ensures Kept(ids, k + 1, keep, if ids[k] in keep then r + [ids[k]] else r)
  {}

  lemma KeptAll(ids: seq<int>, keep: set<int>, r: seq<int>)
    requires Kept(ids, |ids|, keep, r) && forall x :: x in keep ==> x in ids
    ensures r == Ascending(keep)
  {
    forall x ensures x in r <==> x in Ascending(keep) {
      if x in keep {
        var i :| 0 <= i < |ids| && ids[i] == x;
      }
    }
    AscendingIsUnique(r, Ascending(keep));
  }

  method FilterByLabels(workers: map<WorkerId, Worker>, ids: seq<WorkerId>, selector: map<string, string>)
    returns (r: seq<WorkerId>)
    requires ids == Ascending(WithCapacity(workers))
    ensures r == Ascending(Candidates(workers, selector))
  {
    ghost var keep := Candidates(workers, selector);
    assert forall i :: 0 <= i < |ids| ==> ids[i] in ids && ids[i] in WithCapacity(workers);
    if |selector| == 0 {
      assert selector == map[];
      assert keep == WithCapacity(workers);
      return ids;
    }
    r := [];
    for k := 0 to |ids|
      invariant Kept(ids, k, keep, r)
    {
      assert ids[k] in keep <==> MatchLabels(workers[ids[k]].labels, selector);
      KeptStep(ids, k, keep, r);
      if MatchLabels(workers[ids[k]].labels, selector) { r := r + [ids[k]]; }
    }
    assert forall x :: x in keep ==> x in WithCapacity(workers);
    KeptAll(ids, keep, r);
  }

  /** The first of the listed workers whose load no other undercuts. */
  method PickLeastLoaded(workers: map<WorkerId, Worker>, ids: seq<WorkerId>) returns (k: nat)
    requires ids != [] && forall i :: 0 <= i < |ids| ==> ids[i] in workers
    ensures k < |ids|
    ensures forall i :: 0 <= i < |ids| ==> workers[ids[k]].load <= workers[ids[i]].load
    ensures forall i :: 0 <= i < k ==> workers[ids[k]].load < workers[ids[i]].load
  {
    k := 0;
    for n := 1 to |ids|
      invariant k < n
      invariant forall i :: 0 <= i < n ==> workers[ids[k]].load <= workers[ids[i]].load
      invariant forall i :: 0 <= i < k ==> workers[ids[k]].load < workers[ids[i]].load
    {
      if workers[ids[n]].load < workers[ids[k]].load { k := n; }
    }
  }

  lemma FirstMinimumIsChoice(workers: map<WorkerId, Worker>, ids: set<WorkerId>, list: seq<WorkerId>, k: nat)
    requires ids <= workers.Keys && k < |list|
    requires forall x :: x in list <==> x in ids
    requires forall i, j :: 0 <= i < j < |list| ==> list[i] < list[j]
    requires forall i :: 0 <= i < |list| ==> list[i] in workers
    requires forall i :: 0 <= i < |list| ==> workers[list[k]].load <= workers[list[i]].load
    requires forall i :: 0 <= i < k ==> workers[list[k]].load < workers[list[i]].load
    ensures ids != {} && list[k] == Least(LeastLoaded(workers, ids))
  {
    var best := list[k];
    assert best in list;
    forall v | v in ids ensures workers[best].load <= workers[v].load {
      assert v in list;
      var i :| 0 <= i < |list| && list[i] == v;
    }
    var mins := LeastLoaded(workers, ids);
    assert best in mins;
    forall v | v in mins ensures best <= v {
      assert v in list;
      var i :| 0 <= i < |list| && list[i] == v;
      assert workers[v].load <= workers[best].load;
    }
  }

  lemma NoneListed(ids: set<int>, list: seq<int>)
    requires list == Ascending(ids)
    ensures |list| == 0 <==> ids == {}
  {
    if ids != {} { assert Any(ids) in list; }
  }

  lemma PickOf(s: State, t: Task, best: Worker)
    requires Candidates(s.workers, t.labels) != {}
    requires best == s.workers[Choice(s, t)].(load := s.workers[Choice(s, t)].load + 1)
    ensures Pick(s, t) == (s.(workers := s.workers[best.id := best],
                              rrCounter := s.rrCounter + (if t.strategy.RoundRobin? then 1 else 0)), Some(best))
  {}

  class Scheduler {
    var tasks: map<int, Task>
    var deps: seq<(int, int)>
    var instances: map<int, Instance>
    var bySchedule: map<ScheduleId, int>
    var nextId: int
    var workers: map<WorkerId, Worker>
    var rrCounter: nat
    ghost var retryOf: map<int, int>
    ghost var leaked: set<int>
    ghost var start: State
    ghost var trace: seq<Event>

    ghost function View(): State
      reads this
    {
      State(tasks, deps, instances, bySchedule, nextId, workers, rrCounter, retryOf, leaked)
    }

    /** The present state is what the events so far have made of a sound start. */
    ghost predicate Valid()
      reads this
    {
      Sound(start) && IsRun(start, trace) && Run(start, trace) == View()
    }

    constructor (tasks: map<int, Task>, deps: seq<(int, int)>, workers: map<WorkerId, Worker>)
      requires TasksOk(tasks) && WorkersOk(workers)
      ensures Valid() && trace == []
      ensures View() == State(tasks, deps, map[], map[], 1, workers, 0, map[], {})
      ensures (forall w :: w in workers ==> workers[w].load == 0) ==> Fresh(View()) && Accounted(View())
    {
      this.tasks, this.deps, this.workers := tasks, deps, workers;
      instances, bySchedule, nextId, rrCounter := map[], map[], 1, 0;
      retryOf, leaked := map[], {};
      start, trace := State(tasks, deps, map[], map[], 1, workers, 0, map[], {}), [];
      assert forall w :: Occupants(map[], {}, w) == {};
    }

    // ----------------------------------------------- what holds of the object at any time

    /** Every retry chain the object holds counts up from 0, is bounded by MaxRetry, and
        has failed or timed out in all attempts but the last. */
    lemma ChainsAreProper(c: seq<int>)
      requires Valid() && IsChain(View(), c)
      ensures ProperChain(View(), c)
    {
      RetryChain(start, trace, c);
    }

    /** What the object triggered has, for every upstream task, a success. */
    lemma TriggeredAreGated()
      requires Valid() && start.instances == map[]
      ensures DependencyGate.Gated(View())
    {
      DependencyGate.RunKeepsGated(start, trace);
    }

    /** After proper events only, every load is the work in flight plus what cancelling
        has leaked. */
    lemma LoadsAreAccounted(w: WorkerId)
      requires Valid() && Fresh(start) && IsProperRun(start, trace) && w in workers
      ensures workers[w].load == |InFlightOn(View(), w)| + |LeakedOn(View(), w)|
      ensures workers[w].load == 0 || workers[w].load <= workers[w].max
    {
      FreshIsSound(start);
      assert forall v :: Occupants(start.instances, start.leaked, v) == {};
      LoadIsConserved(start, trace, w);
    }

    /** What the object holds is sound, as every run keeps it. */
    lemma StartIsSound()
      requires Valid()
      ensures Sound(View())
    {
      RunKeeps(start, trace);
    }

    // -------------------------------------------------------------- repositories

    method CreateInstance(inst: Instance) returns (id: int)
      modifies this`instances, this`bySchedule, this`nextId
      ensures View() == Create(old(View()), inst) && id == old(nextId)
    {
      id := nextId;
      instances := instances[id := inst.(id := id)];
      bySchedule := bySchedule[inst.schedule := id];
      nextId := nextId + 1;
    }

    method UpdateInstanceStatus(id: int, st: Status) returns (ok: bool)
      modifies this`instances
      ensures View() == SetStatus(old(View()), id, st) && ok == (id in old(instances))
    {
      if id !in instances { return false; }
      instances := instances[id := instances[id].(status := st)];
      return true;
    }

    method UpdateInstanceDispatch(id: int, w: WorkerId, now: int) returns (ok: bool)
      modifies this`instances
      ensures View() == SetDispatch(old(View()), id, w, now) && ok == (id in old(instances))
    {
      if id !in instances { return false; }
      instances := instances[id := instances[id].(worker := Some(w), status := Dispatched, dispatched := now)];
      return true;
    }

    method UpdateInstanceResult(sid: ScheduleId, st: Status, code: string) returns (ok: bool)
      modifies this`instances
      ensures View() == SetResult(old(View()), sid, st, code) && ok == Resolve(old(View()), sid).Some?
    {
      if sid !in bySchedule { return false; }
      var id := bySchedule[sid];
      if id !in instances { return false; }
      instances := instances[id := instances[id].(status := st, errorCode := code)];
      return true;
    }

    method GetInstanceByScheduleID(sid: ScheduleId) returns (r: Option<Instance>)
      ensures r == Resolve(View(), sid)
    {
      if sid !in bySchedule || bySchedule[sid] !in instances { return None; }
      return Some(instances[bySchedule[sid]]);
    }

    method UpsertWorker(w: Worker)
      modifies this`workers
      ensures View() == Upsert(old(View()), w)
    {
      workers := workers[w.id := w];
    }

    method SaveTask(t: Task)
      modifies this`tasks
      ensures View() == UpdateTask(old(View()), t)
    {
      if t.id in tasks { tasks := tasks[t.id := t]; }
    }

    // -------------------------------------------------------------------- routing

    method ListAvailableWorkers() returns (r: seq<WorkerId>)
      ensures r == Ascending(WithCapacity(workers))
    {
      ghost var keep := WithCapacity(workers);
      var ids := Ascending(workers.Keys);
      assert forall i :: 0 <= i < |ids| ==> ids[i] in ids && ids[i] in workers;
      r := [];
      for k := 0 to |ids|
        invariant Kept(ids, k, keep, r)
      {
        KeptStep(ids, k, keep, r);
        if HasCapacity(workers[ids[k]]) { r := r + [ids[k]]; }
      }
      assert forall x :: x in keep ==> x in workers.Keys;
      KeptAll(ids, keep, r);
    }

    /** The worker among the candidates, without touching any load yet. */
    method Choose(t: Task, ids: seq<WorkerId>) returns (chosen: WorkerId)
      requires ids == Ascending(Candidates(workers, t.labels)) && ids != []
      modifies this`rrCounter
      ensures chosen in workers && Candidates(workers, t.labels) != {} && chosen == Choice(old(View()), t)
      ensures rrCounter == old(rrCounter) + (if t.strategy.RoundRobin? then 1 else 0)
    {
      ghost var cands := Candidates(workers, t.labels);
      assert forall i :: 0 <= i < |ids| ==> ids[i] in ids && ids[i] in cands;
      if t.strategy.RoundRobin? {
        chosen := ids[rrCounter % |ids|];
        rrCounter := rrCounter + 1;
      } else {
        var k := PickLeastLoaded(workers, ids);
        FirstMinimumIsChoice(workers, cands, ids, k);
        chosen := ids[k];
      }
    }

    method PickWorker(t: Task) returns (r: Option<Worker>)
      modifies this`workers, this`rrCounter
      ensures (View(), r) == Pick(old(View()), t)
    {
      var all := ListAvailableWorkers();
      var filtered := FilterByLabels(workers, all, t.labels);
      NoneListed(Candidates(workers, t.labels), filtered);
      if |filtered| == 0 { return None; }
      var chosen := Choose(t, filtered);
      var best := workers[chosen].(load := workers[chosen].load + 1);
      UpsertWorker(best);
      r := Some(best);
      assert (View(), r) == Pick(old(View()), t) by { PickOf(old(View()), t, best); }
    }

    method ReleaseWorker(w: Worker)
      modifies this`workers
      ensures View() == Release(old(View()), w)
    {
      UpsertWorker(w.(load := if w.load > 0 then w.load - 1 else w.load));
    }

    // --------------------------------------------------------------- trigger scan

    method ListUpstreamDeps(task: int) returns (r: seq<int>)
      ensures r == Upstream(deps, task)
    {
      r := [];
      for k := 0 to |deps|
        invariant r + Upstream(deps[k..], task) == Upstream(deps, task)
      {
        if deps[k].0 == task { r := r + [deps[k].1]; }
      }
    }

    method ListDownstreamTasks(task: int) returns (r: seq<int>)
      ensures r == Downstream(deps, task)
    {
      r := [];
      for k := 0 to |deps|
        invariant r + Downstream(deps[k..], task) == Downstream(deps, task)
      {
        if deps[k].1 == task { r := r + [deps[k].0]; }
      }
    }

    /** ListInstancesByStatus("success", 1). */
    method FirstSuccess() returns (r: Option<Instance>)
      ensures r.None? <==> OldestSuccess(View()).None?
      ensures r.Some? ==> r.value == instances[OldestSuccess(View()).value]
    {
      var ids := set i | i in instances && instances[i].status == Success;
      assert ids == WithStatus(View(), Success);
      if ids == {} { return None; }
      return Some(instances[Least(ids)]);
    }

    method DependenciesSatisfied(task: int) returns (satisfied: bool)
      ensures satisfied == GateOpen(View(), task)
    {
      var upstream := ListUpstreamDeps(task);
      satisfied := true;
      for k := 0 to |upstream|
        invariant satisfied
        invariant k > 0 ==> OldestSuccess(View()).Some?
        invariant forall i :: 0 <= i < k ==> instances[OldestSuccess(View()).value].task == upstream[i]
      {
        var first := FirstSuccess();
        if first.None? || first.value.task != upstream[k] {
          assert upstream[k] in upstream;
          return false;
        }
      }
    }

    method TriggerOneShard(t: Task, shard: int, env: Env) returns (out: Outcome)
      modifies this`instances, this`bySchedule, this`nextId, this`workers, this`rrCounter
      ensures (View(), out) == TriggerShard(old(View()), t, shard, env)
    {
      var inst := Instance(0, t.id, TriggerId(t.id, env.stamp(nextId)), shard, t.totalShards,
                           env.now, 0, None, Pending, 0, "", 0);
      var id := CreateInstance(inst);
      var picked := PickWorker(t);
      if picked.None? { return NoWorker; }
      var _ := UpdateInstanceDispatch(id, picked.value.id, env.now);
      if env.accepts(id) { return Sent; }
      var _ := UpdateInstanceResult(inst.schedule, Failed, "dispatch_failed");
      ReleaseWorker(picked.value);
      return Refused;
    }

    method TriggerAllShards(t: Task, env: Env) returns (out: Outcome)
      modifies this`instances, this`bySchedule, this`nextId, this`workers, this`rrCounter
      ensures (View(), out) == TriggerShards(old(View()), t, 0, env)
    {
      var shardTotal: int := if t.totalShards <= 0 then 1 else t.totalShards;
      var shard: nat := 0;
      ghost var goal := TriggerShards(View(), t, 0, env);
      while shard < shardTotal
        invariant shard <= shardTotal
        invariant TriggerShards(View(), t, shard, env) == goal
      {
        TriggerEffects.ShardsUnfold(View(), t, shard, env);
        out := TriggerOneShard(t, shard, env);
        if out.NoWorker? {
          assert (View(), out) == goal;
          return;
        }
        shard := shard + 1;
      }
      out := Sent;
    }

    method HandleDueTask(t: Task, env: Env)
      modifies this`tasks, this`instances, this`bySchedule, this`nextId, this`workers, this`rrCounter
      ensures View() == HandleTask(old(View()), t, env)
    {
      var open := DependenciesSatisfied(t.id);
      if !open {
        SaveTask(t.(next := env.now + 5 * SECOND));
        return;
      }
      var out := TriggerAllShards(t, env);
      if out.NoWorker? {
        SaveTask(t.(next := env.now + 10 * SECOND));
        return;
      }
      var next := Some(env.now + 365 * 24 * 3600 * SECOND);
      if t.cronExpr != "" { next := Cron.NextAfter(env.now, t.cronExpr); }
      if next.Some? { SaveTask(t.(next := next.value)); }
    }

    method HandleDueTasks(due: seq<Task>, env: Env)
      modifies this`tasks, this`instances, this`bySchedule, this`nextId, this`workers, this`rrCounter
      ensures View() == HandleTasks(old(View()), due, env)
    {
      for k := 0 to |due|
        invariant HandleTasks(View(), due[k..], env) == HandleTasks(old(View()), due, env)
      {
        HandleDueTask(due[k], env);
      }
    }

    /** The due task with the earliest trigger time. */
    method Earliest(ids: set<int>) returns (t: int)
      requires ids != {} && ids <= tasks.Keys
      ensures t in ids && forall x :: x in ids ==> tasks[t].next <= tasks[x].next
    {
      var rest := ids;
      t := Least(ids);
      while rest != {}
        invariant rest <= ids && t in ids
        invariant forall x :: x in ids && x !in rest ==> tasks[t].next <= tasks[x].next
        decreases rest
      {
        var x := Least(rest);
        if tasks[x].next < tasks[t].next { t := x; }
        rest := rest - {x};
      }
    }

    method ListDueTasks(now: int) returns (ids: seq<int>)
      ensures DueListing(View(), now, ids)
    {
      var rest := set t | t in tasks && IsDue(tasks[t], now);
      ids := [];
      while rest != {} && |ids| < SCAN_LIMIT
        invariant |ids| <= SCAN_LIMIT && rest <= tasks.Keys
        invariant forall i :: 0 <= i < |ids| ==> ids[i] in tasks && IsDue(tasks[ids[i]], now) && ids[i] !in rest
        invariant forall i, j :: 0 <= i < j < |ids| ==> ids[i] != ids[j] && tasks[ids[i]].next <= tasks[ids[j]].next
        invariant forall t :: t in tasks && IsDue(tasks[t], now) ==> t in ids || t in rest
        invariant forall i, t :: 0 <= i < |ids| && t in rest ==> tasks[ids[i]].next <= tasks[t].next
        decreases rest
      {
        var t := Earliest(rest);
        ids, rest := ids + [t], rest - {t};
      }
    }

    method CachedDueTasks(cached: seq<int>, now: int) returns (r: seq<int>)
      ensures r == Take(CachedDue(View(), cached, now), SCAN_LIMIT)
    {
      r := [];
      for k := 0 to |cached|
        invariant r + CachedDue(View(), cached[k..], now) == CachedDue(View(), cached, now)
      {
        var id := cached[k];
        if id in tasks && tasks[id].enabled && tasks[id].next <= now { r := r + [id]; }
      }
      if |r| > SCAN_LIMIT { r := r[..SCAN_LIMIT]; }
    }

    /** The tasks of one scan, handled. A load report may turn the controller red after
        cut tasks. */
    method DoScan(bp: Controller?, cached: seq<int>, cut: nat, env: Env) returns (due: seq<int>)
      requires bp != null ==> bp.Valid()
      modifies this`tasks, this`instances, this`bySchedule, this`nextId, this`workers, this`rrCounter, bp
      ensures bp != null ==> bp.Valid()
      ensures DueListing(old(View()), env.now, due)
      ensures View() == TriggerScan(old(View()), ScanInput(if bp == null then None else Some(bp.config), cached, due, cut), env)
    {
      due := ListDueTasks(env.now);
      if bp != null {
        var pending := |set i | i in instances && instances[i].status == Pending|;
        assert WithStatus(View(), Pending) == set i | i in instances && instances[i].status == Pending;
        bp.UpdatePending(pending);
        var allowed := bp.AllowDispatch();
        if !allowed { return; }
      }
      ghost var start := View();
      ghost var input := ScanInput(if bp == null then None else Some(bp.config), cached, due, cut);
      var ids := CachedDueTasks(cached, env.now);
      if |ids| == 0 { ids := due; }
      if bp != null && |ids| > cut { ids := ids[..cut]; }
      assert ids == ScanIds(start, input, env.now);
      HandleDueTasks(Load(tasks, ids), env);
    }

    /** One trigger scan: finished instances stay as they are, accounts stay balanced, and
        behind a controller the backlog stays below its bound. */
    method ScanTasks(bp: Controller?, cached: seq<int>, cut: nat, env: Env) returns (due: seq<int>)
      requires Valid() && (bp != null ==> bp.Valid())
      modifies this, bp
      ensures Valid() && (bp != null ==> bp.Valid())
      ensures var input := ScanInput(if bp == null then None else Some(bp.config), cached, due, cut);
              trace == old(trace) + [Trigger(input, env)] && start == old(start)
      ensures Evolves(old(View()), View()) && (old(Accounted(View())) ==> Accounted(View()))
      ensures bp != null && BelowBound(old(View()), bp.config) ==> BelowBound(View(), bp.config)
      ensures var input := ScanInput(if bp == null then None else Some(bp.config), cached, due, cut);
              DueListing(old(View()), env.now, due) && ScanEffects.Scanned(old(View()), View(), input, env)
    {
      ghost var before := View();
      StartIsSound();
      due := DoScan(bp, cached, cut, env);
      ghost var input := ScanInput(if bp == null then None else Some(bp.config), cached, due, cut);
      ScanEffects.ScanHolds(before, View(), input, env);
      Recorded(start, trace, before, Trigger(input, env));
      trace := trace + [Trigger(input, env)];
      if bp != null && BelowBound(before, bp.config) { ScanBelowBound(before, input, env, bp.config); }
    }

    // ----------------------------------------------------------------- retry scan

    method RedispatchInstance(id: int, t: Task, env: Env) returns (out: Outcome)
      modifies this`instances, this`workers, this`rrCounter
      ensures (View(), out) == Redispatch(old(View()), id, t, env)
    {
      var picked := PickWorker(t);
      if picked.None? { return NoWorker; }
      var _ := UpdateInstanceDispatch(id, picked.value.id, env.now);
      if env.accepts(id) { return Sent; }
      var _ := UpdateInstanceStatus(id, RetryWaiting);
      ReleaseWorker(picked.value);
      return Refused;
    }

    method RetryInstances(due: seq<Instance>, env: Env)
      modifies this`instances, this`workers, this`rrCounter
      ensures View() == RetryAll(old(View()), due, env)
    {
      for k := 0 to |due|
        invariant RetryAll(View(), due[k..], env) == RetryAll(old(View()), due, env)
      {
        if due[k].task in tasks {
          var out := RedispatchInstance(due[k].id, tasks[due[k].task], env);
          if out.NoWorker? { return; }
        }
      }
    }

    method DoRetries(env: Env)
      modifies this`instances, this`workers, this`rrCounter
      ensures View() == RetryScan(old(View()), env)
    {
      var ids := Take(Ascending(set i | i in instances && instances[i].status == RetryWaiting
                                       && (instances[i].nextRetry == 0 || instances[i].nextRetry <= env.now)), SCAN_LIMIT);
      assert ids == DueRetries(View(), env.now);
      var due := CopyInstances(instances, ids);
      assert due == DueInstances(View(), env.now);
      RetryInstances(due, env);
    }

    /** One retry scan: no instance is created and none finishes. */
    method ScanRetries(env: Env)
      requires Valid()
      modifies this
      ensures Valid() && trace == old(trace) + [Event.Retry(env)] && start == old(start)
      ensures Evolves(old(View()), View()) && (old(Accounted(View())) ==> Accounted(View()))
      ensures Backlog(View()) <= old(Backlog(View()))
      ensures RetryEffects.Rescanned(old(View()), View(), env)
    {
      ghost var before := View();
      StartIsSound();
      DoRetries(env);
      RetryEffects.RetryScanIs(before, env);
      Recorded(start, trace, before, Event.Retry(env));
      trace := trace + [Event.Retry(env)];
      RetryScanBacklog(before, env);
    }

    // ------------------------------------------------------------ runtime service

    method FireDownstreamTasks(task: int, now: int)
      modifies this`tasks
      ensures View() == FireDownstream(old(View()), Downstream(old(View()).deps, task), now)
      ensures old(TasksOk(tasks)) ==> ReportEffects.DependentsDue(old(View()), tasks, task, now)
    {
      if TasksOk(tasks) { ReportEffects.FiresDependents(View(), task, now); }
      var ids := ListDownstreamTasks(task);
      for k := 0 to |ids|
        invariant FireDownstream(View(), ids[k..], now) == FireDownstream(old(View()), ids, now)
      {
        if ids[k] in tasks && tasks[ids[k]].enabled { SaveTask(tasks[ids[k]].(next := now)); }
      }
    }

    method RetriesErrorCode(t: Task, code: string) returns (r: bool)
      ensures r == RetriesError(t, code)
    {
      if t.retryPolicy != ErrorCode || t.retryOnErrors == "" { return true; }
      r := ListsCode(Text.Split(t.retryOnErrors, ','), code);
    }

    static method ListsCode(codes: seq<string>, code: string) returns (r: bool)
      ensures r == ListsError(codes, code)
    {
      for k := 0 to |codes|
        invariant forall i :: 0 <= i < k ==> !IsCode(codes[i], code)
      {
        if IsCode(codes[k], code) { return true; }
      }
      return false;
    }

    method Retry(inst: Instance, r: Report, env: Env) returns (ok: bool)
      modifies this`instances, this`bySchedule, this`nextId, this`workers, this`rrCounter, this`retryOf
      ensures (View(), ok) == RetryIfNeeded(old(View()), inst, r, env)
    {
      if !IsRetryable(r.status) { return true; }
      if inst.task !in tasks { return false; }
      var t := tasks[inst.task];
      if inst.retryCount >= t.maxRetry { return true; }
      var listed := RetriesErrorCode(t, r.errorCode);
      if !listed || WindowExceeded(inst, t.retryWindow, env.now) { return true; }
      var delay := RetryDelay(t.retryPolicy, inst.retryCount + 1, t.retryInterval);
      var retry := Instance(0, t.id, RetryId(t.id, inst.retryCount + 1, env.stamp(nextId)), inst.shardNo, inst.shardTotal,
                            env.now, 0, None, Pending, inst.retryCount + 1, "", 0);
      if delay > 0 {
        var id := CreateInstance(retry.(status := RetryWaiting, nextRetry := env.now + delay));
        retryOf := retryOf[id := inst.id];
        return true;
      }
      var id := CreateInstance(retry);
      retryOf := retryOf[id := inst.id];
      var out := RedispatchInstance(id, t, env);
      if out.NoWorker? { var _ := UpdateInstanceStatus(id, RetryWaiting); }
      return true;
    }

    method DoReport(r: Report, env: Env) returns (ok: bool)
      modifies this`tasks, this`instances, this`bySchedule, this`nextId, this`workers, this`rrCounter, this`retryOf
      ensures (View(), ok) == ReportStatus(old(View()), r, env)
    {
      if r.schedule.NoId? { return false; }
      var found := GetInstanceByScheduleID(r.schedule);
      if found.None? { return false; }
      var inst := found.value;
      if IsTerminal(inst.status) { return true; }
      var _ := UpdateInstanceResult(r.schedule, r.status, r.errorCode);
      if r.status.Running? { return true; }
      if r.status.Success? { FireDownstreamTasks(inst.task, env.now); }
      if r.worker.Some? && r.worker.value in workers { ReleaseWorker(workers[r.worker.value]); }
      ok := Retry(inst, r, env);
    }

    /** One report: a finished instance is left alone, a proper report keeps the accounts
        balanced, and none that a worker sends adds to the backlog. */
    method HandleReport(r: Report, env: Env) returns (ok: bool)
      requires Valid()
      modifies this
      ensures Valid() && trace == old(trace) + [Reported(r, env)] && start == old(start)
      ensures (View(), ok) == ReportStatus(old(View()), r, env)
      ensures Evolves(old(View()), View())
      ensures old(Accounted(View()) && ProperReport(View(), r)) ==> Accounted(View())
      ensures WorkerSends(r.status) ==> Backlog(View()) <= old(Backlog(View()))
      ensures old(Settled(View(), r.schedule)) && !r.schedule.NoId? ==> ok && View() == old(View())
      ensures ReportEffects.ReportEffect(old(View()), r, env, View(), ok)
      ensures ReportEffects.Fires(old(View()), tasks, r, env.now)
    {
      ghost var before := View();
      StartIsSound();
      ok := DoReport(r, env);
      ReportEffects.ReportHolds(before, View(), ok, r, env);
      Recorded(start, trace, before, Reported(r, env));
      trace := trace + [Reported(r, env)];
      if WorkerSends(r.status) { ReportBacklog(before, r, env); }
    }

    method DoCancel(sid: ScheduleId) returns (ok: bool)
      modifies this`instances, this`leaked
      ensures (View(), ok) == CancelInstance(old(View()), sid)
    {
      var found := GetInstanceByScheduleID(sid);
      if found.None? || IsTerminal(found.value.status) { return false; }
      ghost var id := bySchedule[sid];
      ok := UpdateInstanceResult(sid, Cancelled, "cancelled");
      if InFlight(found.value.status) { leaked := leaked + {id}; }
    }

    /** A cancellation finishes its instance, and succeeds exactly if it was unfinished. */
    method Cancel(sid: ScheduleId) returns (ok: bool)
      requires Valid()
      modifies this
      ensures Valid() && trace == old(trace) + [CancelRequest(sid)] && start == old(start)
      ensures Evolves(old(View()), View()) && (old(Accounted(View())) ==> Accounted(View()))
      ensures Backlog(View()) <= old(Backlog(View())) && workers == old(workers)
      ensures ok <==> old(Resolve(View(), sid).Some? && !Settled(View(), sid))
      ensures old(Resolve(View(), sid).Some?) ==> Settled(View(), sid)
      ensures Cancels(old(View()), View(), sid, ok)
    {
      ghost var before := View();
      ok := DoCancel(sid);
      Recorded(start, trace, before, CancelRequest(sid));
      trace := trace + [CancelRequest(sid)];
      CancelBacklog(before, sid);
      CancelSettles(before, sid);
    }
  }

  lemma CancelSettles(s: State, sid: ScheduleId)
    ensures var (s', ok) := CancelInstance(s, sid);
            && s'.workers == s.workers && (ok <==> Resolve(s, sid).Some? && !Settled(s, sid))
            && (Resolve(s, sid).Some? ==> Settled(s', sid))
            && Cancels(s, s', sid, ok)
  {}

  /** Exactly the one instance is marked cancelled. */
  ghost predicate Cancels(s: State, s': State, sid: ScheduleId, ok: bool) {
    if !ok then s' == s
    else
      && Resolve(s, sid).Some?
      && var id, inst := s.bySchedule[sid], Resolve(s, sid).value;
         s' == s.(instances := s.instances[id := inst.(status := Cancelled, errorCode := "cancelled")],
                  leaked := if InFlight(inst.status) then s.leaked + {id} else s.leaked)
  }

  /** An event on a reached state extends the run and keeps what steps keep. */
  lemma Recorded(start: State, trace: seq<Event>, s: State, e: Event)
    requires Sound(start) && IsRun(start, trace) && Run(start, trace) == s && Possible(s, e)
    ensures IsRun(start, trace + [e]) && Run(start, trace + [e]) == Step(s, e)
    ensures Sound(s) && Evolves(s, Step(s, e)) && (Accounted(s) && Proper(s, e) ==> Accounted(Step(s, e)))
  {
    RunKeeps(start, trace);
    RunAppend(start, trace, e);
    StepKeeps(s, e);
    if Accounted(s) && Proper(s, e) { StepKeepsAccounted(s, e); }
  }
}
