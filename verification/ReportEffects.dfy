/** What one status report does to the whole state: the instance, the tasks that depend
    on it, the reporting worker, and the retry. */
module ReportEffects {
  import opened Common
  import opened RuntimeModel
  import opened Moves
  import opened Handlers
  import opened Dispatching
  import Text

  // ------------------------------------------------------------- downstream tasks

  lemma {:induction false} DownstreamAre(deps: seq<(int, int)>, task: int, d: int)
    ensures d in Downstream(deps, task) <==> (d, task) in deps
  {
    if deps != [] { DownstreamAre(deps[1..], task, d); }
  }

  ghost predicate Retimed(tasks: map<int, Task>, tasks': map<int, Task>, ids: seq<int>, now: int) {
    && tasks'.Keys == tasks.Keys
    && forall d :: d in tasks ==>
         tasks'[d] == if d in ids && tasks[d].enabled then tasks[d].(next := now) else tasks[d]
  }

  lemma RetimedStep(tasks: map<int, Task>, tasks': map<int, Task>, ids: seq<int>, now: int)
    requires ids != [] && ids[0] in tasks && tasks[ids[0]].enabled
    requires Retimed(tasks[ids[0] := tasks[ids[0]].(next := now)], tasks', ids[1..], now)
    ensures Retimed(tasks, tasks', ids, now)
  {
    forall d ensures d in ids <==> d == ids[0] || d in ids[1..] {}
  }

  lemma {:induction false} FiresAll(s: State, ids: seq<int>, now: int)
    requires TasksOk(s.tasks)
    ensures var s' := FireDownstream(s, ids, now);
            s' == s.(tasks := s'.tasks) && TasksOk(s'.tasks) && Retimed(s.tasks, s'.tasks, ids, now)
    decreases |ids|
  {
    if ids != [] {
      if ids[0] in s.tasks && s.tasks[ids[0]].enabled {
        assert s.tasks[ids[0]].id == ids[0];
        FiresAll(UpdateTask(s, s.tasks[ids[0]].(next := now)), ids[1..], now);
        RetimedStep(s.tasks, FireDownstream(s, ids, now).tasks, ids, now);
      } else {
        FiresAll(s, ids[1..], now);
      }
    }
  }

  /** Exactly the enabled tasks with an edge to the finished one become due at `now`. */
  ghost predicate DependentsDue(s: State, tasks': map<int, Task>, task: int, now: int) {
    && tasks'.Keys == s.tasks.Keys
    && forall d :: d in s.tasks ==>
         tasks'[d] == if (d, task) in s.deps && s.tasks[d].enabled then s.tasks[d].(next := now) else s.tasks[d]
  }

  lemma FiresDependents(s: State, task: int, now: int)
    requires TasksOk(s.tasks)
    ensures var s' := FireDownstream(s, Downstream(s.deps, task), now);
            s' == s.(tasks := s'.tasks) && TasksOk(s'.tasks) && DependentsDue(s, s'.tasks, task, now)
  {
    FiresAll(s, Downstream(s.deps, task), now);
    forall d | d in s.tasks ensures d in Downstream(s.deps, task) <==> (d, task) in s.deps {
      DownstreamAre(s.deps, task, d);
    }
  }

  // -------------------------------------------------------------------- the retry

  /** The comma-separated list names the code, up to white space. */
  ghost predicate Names(list: string, code: string) {
    exists i :: 0 <= i < |Text.Split(list, ',')| && Text.TrimSpace(Text.Split(list, ',')[i]) == code
  }

  /** The failed attempt is retried: retries are left, the error code is one to retry
      on, and the attempt was triggered within the window. */
  ghost predicate Retries(inst: Instance, t: Task, code: string, now: int) {
    && inst.retryCount < t.maxRetry
    && (t.retryPolicy == ErrorCode && t.retryOnErrors != "" ==> Names(t.retryOnErrors, code))
    && (t.retryWindow > 0 ==> now - inst.triggered <= Wrap64(t.retryWindow * SECOND))
  }

  lemma NamesIsListed(t: Task, code: string)
    ensures RetriesError(t, code) <==> (t.retryPolicy == ErrorCode && t.retryOnErrors != "" ==> Names(t.retryOnErrors, code))
  {
    var codes := Text.Split(t.retryOnErrors, ',');
    assert ListsError(codes, code) <==> exists i :: 0 <= i < |codes| && Text.TrimSpace(codes[i]) == code by {
      forall i | 0 <= i < |codes| ensures IsCode(codes[i], code) <==> Text.TrimSpace(codes[i]) == code {}
    }
  }

  /** The retry of `inst` as it is created: the same task and shard, the next count. */
  ghost function Successor(inst: Instance, id: int, env: Env): Instance {
    Instance(id, inst.task, RetryId(inst.task, inst.retryCount + 1, env.stamp(id)), inst.shardNo, inst.shardTotal,
             env.now, 0, None, RetryWaiting, inst.retryCount + 1, "", 0)
  }

  /** From s, in which the attempt has been settled, to s', in which its retry exists. */
  ghost predicate RetryCreated(s: State, s': State, inst: Instance, t: Task, env: Env) {
    var id, c := s.nextId, Successor(inst, s.nextId, env);
    var delay := RetryDelay(t.retryPolicy, inst.retryCount + 1, t.retryInterval);
    && id in s'.instances
    && s'.nextId == id + 1 && s'.retryOf == s.retryOf[id := inst.id]
    && s'.bySchedule == s.bySchedule[c.schedule := id]
    && s'.instances == s.instances[id := s'.instances[id]]
    && s'.tasks == s.tasks && s'.deps == s.deps && s'.leaked == s.leaked
    && (if delay > 0 then s'.instances[id] == c.(nextRetry := env.now + delay) && s'.workers == s.workers
        else if NoRoom(s.workers, t.labels) then s'.instances[id] == c && s'.workers == s.workers
        else
          var got := s'.instances[id].worker;
          && got.Some? && Free(s.workers, t.labels, got.value)
          && s'.instances[id] ==
               c.(worker := got, dispatched := env.now, status := if env.accepts(id) then Dispatched else RetryWaiting)
          && s'.workers == if env.accepts(id) then Taken(s.workers, got.value) else s.workers)
  }

  lemma AtOnce(s: State, inst: Instance, t: Task, env: Env)
    requires WorkersOk(s.workers) && t.id == inst.task
    requires RetryDelay(t.retryPolicy, inst.retryCount + 1, t.retryInterval) <= 0
    ensures RetryCreated(s, ImmediateRetry(s, inst, t, env), inst, t, env)
  {
    var id := s.nextId;
    var child := RetryInstance(s, inst, t, Pending, 0, env);
    var s1 := CreateRetry(s, inst.id, child);
    RedispatchIs(s1, id, t, env);
    var s2, s' := Redispatch(s1, id, t, env).0, ImmediateRetry(s, inst, t, env);
    Twice(s.instances, id, child.(id := id), s'.instances[id]);
  }

  /** Exactly when a retry appears and what it holds. */
  lemma RetryIs(s: State, inst: Instance, r: Report, env: Env)
    requires WorkersOk(s.workers) && TasksOk(s.tasks)
    ensures var (s', ok) := RetryIfNeeded(s, inst, r, env);
            var failed := r.status.Failed? || r.status.Timeout?;
            && (ok <==> (failed ==> inst.task in s.tasks))
            && if failed && inst.task in s.tasks && Retries(inst, s.tasks[inst.task], r.errorCode, env.now)
               then RetryCreated(s, s', inst, s.tasks[inst.task], env)
               else s' == s
  {
    if IsRetryable(r.status) && inst.task in s.tasks {
      var t := s.tasks[inst.task];
      NamesIsListed(t, r.errorCode);
      if Retries(inst, t, r.errorCode, env.now) {
        if RetryDelay(t.retryPolicy, inst.retryCount + 1, t.retryInterval) <= 0 { AtOnce(s, inst, t, env); }
      }
    }
  }

  // ------------------------------------------------------------------- the report

  /** The workers after the reporting one has given a unit back, if it had one. */
  ghost function GivesBack(workers: map<WorkerId, Worker>, w: Option<WorkerId>): map<WorkerId, Worker> {
    if w.Some? && w.value in workers && workers[w.value].load > 0
    then workers[w.value := workers[w.value].(load := workers[w.value].load - 1)]
    else workers
  }

  /** What a report that is not ignored settles before the retry is considered. */
  ghost predicate SettledBy(s: State, mid: State, r: Report, now: int)
    requires Effective(s, r)
  {
    var id, inst := s.bySchedule[r.schedule], Resolve(s, r.schedule).value;
    && mid == s.(tasks := mid.tasks, instances := s.instances[id := inst.(status := r.status, errorCode := r.errorCode)],
                 workers := if r.status.Running? then s.workers else GivesBack(s.workers, r.worker))
    && if r.status.Success? then DependentsDue(s, mid.tasks, inst.task, now) else mid.tasks == s.tasks
  }

  /** The whole effect of a report and its answer. */
  ghost predicate ReportEffect(s: State, r: Report, env: Env, s': State, ok: bool) {
    if !Effective(s, r) then s' == s && (ok <==> !r.schedule.NoId? && Resolve(s, r.schedule).Some?)
    else
      var inst := Resolve(s, r.schedule).value;
      var failed := r.status.Failed? || r.status.Timeout?;
      && (ok <==> (failed ==> inst.task in s.tasks))
      && exists mid ::
           && SettledBy(s, mid, r, env.now)
           && if failed && inst.task in s.tasks && Retries(inst, s.tasks[inst.task], r.errorCode, env.now)
              then RetryCreated(mid, s', inst, s.tasks[inst.task], env)
              else s' == mid
  }

  lemma ReleaseGivesBack(s: State, w: Option<WorkerId>)
    requires WorkersOk(s.workers)
    ensures ReleaseReported(s, w) == s.(workers := GivesBack(s.workers, w)) && WorkersOk(GivesBack(s.workers, w))
  {
    if w.Some? && w.value in s.workers {
      assert s.workers[w.value].id == w.value;
      assert s.workers[w.value].load == 0 ==> s.workers[w.value := s.workers[w.value]] == s.workers;
    }
  }

  lemma ReportSettles(s: State, r: Report, env: Env) returns (mid: State)
    requires WellFormed(s) && Effective(s, r)
    ensures SettledBy(s, mid, r, env.now) && WorkersOk(mid.workers) && TasksOk(mid.tasks)
    ensures r.status.Running? ==> ReportStatus(s, r, env) == (mid, true)
    ensures !r.status.Running? ==> ReportStatus(s, r, env) == RetryIfNeeded(mid, Resolve(s, r.schedule).value, r, env)
  {
    var inst := Resolve(s, r.schedule).value;
    mid := SetResult(s, r.schedule, r.status, r.errorCode);
    if r.status.Success? {
      FiresDependents(mid, inst.task, env.now);
      mid := FireDownstream(mid, Downstream(s.deps, inst.task), env.now);
    }
    if !r.status.Running? {
      ReleaseGivesBack(mid, r.worker);
      mid := ReleaseReported(mid, r.worker);
    }
  }

  lemma ReportIs(s: State, r: Report, env: Env)
    requires WellFormed(s)
    ensures var (s', ok) := ReportStatus(s, r, env); ReportEffect(s, r, env, s', ok)
  {
    if Effective(s, r) {
      var mid := ReportSettles(s, r, env);
      RetryIs(mid, Resolve(s, r.schedule).value, r, env);
    }
  }

  /** A success makes exactly the enabled tasks that depend on it due, and nothing else
      makes any. */
  ghost predicate Fires(s: State, tasks': map<int, Task>, r: Report, now: int) {
    if Effective(s, r) && r.status.Success? then DependentsDue(s, tasks', Resolve(s, r.schedule).value.task, now)
    else tasks' == s.tasks
  }

  lemma ReportFires(s: State, r: Report, env: Env)
    requires WellFormed(s)
    ensures Fires(s, ReportStatus(s, r, env).0.tasks, r, env.now)
  {
    ReportIs(s, r, env);
  }

  lemma ReportHolds(s: State, s': State, ok: bool, r: Report, env: Env)
    requires WellFormed(s) && (s', ok) == ReportStatus(s, r, env)
    ensures ReportEffect(s, r, env, s', ok) && Fires(s, s'.tasks, r, env.now)
  {
    ReportIs(s, r, env);
    ReportFires(s, r, env);
  }
}
