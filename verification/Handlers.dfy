/** Every handler of the scheduler is a sequence of enabled moves. */
module Handlers {
  import opened Common
  import opened RuntimeModel
  import opened Moves

  lemma {:induction false} PathKeeps(s: State, ms: seq<Move>)
    requires Sound(s) && Path(s, ms)
    ensures Sound(ApplyAll(s, ms)) && Evolves(s, ApplyAll(s, ms))
    decreases |ms|
  {
    if ms != [] {
      var s1 := Apply(s, ms[0]);
      MoveKeepsWellFormed(s, ms[0]);
      MoveKeepsLinks(s, ms[0]);
      MoveEvolves(s, ms[0]);
      PathKeeps(s1, ms[1..]);
      EvolvesTransitive(s, s1, ApplyAll(s, ms));
    }
  }

  lemma EvolvesTransitive(a: State, b: State, c: State)
    requires Evolves(a, b) && Evolves(b, c)
    ensures Evolves(a, c)
  {}

  lemma UpstreamPersists(s: State, s': State, task: int)
    requires Evolves(s, s') && UpstreamDone(s, task)
    ensures UpstreamDone(s', task)
  {}

  /** Moves of the loops: no report and no cancellation among them. */
  ghost predicate Quiet(ms: seq<Move>) { forall i :: 0 <= i < |ms| ==> !ms[i].Settle? && !ms[i].Drop? }

  lemma PickFacts(s: State, t: Task)
    requires WellFormed(s)
    ensures var (s1, picked) := Pick(s, t);
            && (picked.None? ==> s1 == s)
            && (picked.Some? ==>
                  && picked.value.id in s.workers && HasCapacity(s.workers[picked.value.id])
                  && picked.value == s.workers[picked.value.id].(load := s.workers[picked.value.id].load + 1)
                  && s1 == s.(rrCounter := s1.rrCounter, workers := s.workers[picked.value.id := picked.value])
                  && s1.rrCounter == s.rrCounter + (if t.strategy.RoundRobin? then 1 else 0))
  {}

  ghost function Rotated(s: State, t: Task): State {
    if t.strategy.RoundRobin? then s.(rrCounter := s.rrCounter + 1) else s
  }

  lemma RotateThen(s: State, t: Task, m: Move) returns (ms: seq<Move>)
    requires Enabled(Rotated(s, t), m) && !m.Settle? && !m.Drop?
    ensures Quiet(ms) && Leads(s, ms, Apply(Rotated(s, t), m))
  {
    ms := [m];
    One(Rotated(s, t), m);
    if t.strategy.RoundRobin? {
      One(s, Rotate);
      Chain(s, [Rotate], Rotated(s, t), [m], Apply(Rotated(s, t), m));
      ms := [Rotate] + [m];
    }
  }

  lemma TakenAndGiven(workers: map<WorkerId, Worker>, w: WorkerId)
    requires WorkersOk(workers) && w in workers
    ensures var taken := workers[w].(load := workers[w].load + 1);
            workers[w := taken][w := taken.(load := taken.load - 1)] == workers
  {}

  /** s1 is r with one unit of worker w's capacity reserved. */
  ghost predicate Reserved(r: State, s1: State, w: Worker) {
    && w.id in r.workers && HasCapacity(r.workers[w.id])
    && w == r.workers[w.id].(load := r.workers[w.id].load + 1)
    && s1 == r.(workers := r.workers[w.id := w])
  }

  lemma PickReserves(s: State, t: Task)
    requires WellFormed(s)
    ensures var (s1, picked) := Pick(s, t);
            if picked.None? then s1 == s else Reserved(Rotated(s, t), s1, picked.value)
  {}

  /** Giving back what was just picked restores every worker. */
  lemma ReleaseUndoesPick(s: State, t: Task)
    requires WellFormed(s) && Pick(s, t).1.Some?
    ensures Release(Pick(s, t).0, Pick(s, t).1.value).workers == s.workers
  {
    PickReserves(s, t);
    TakenAndGiven(s.workers, Pick(s, t).1.value.id);
  }

  lemma PlaceEffect(r: State, s1: State, w: Worker, id: int, now: int)
    requires Reserved(r, s1, w) && Waiting(r, id)
    ensures Enabled(r, Place(id, w.id, now)) && SetDispatch(s1, id, w.id, now) == Apply(r, Place(id, w.id, now))
  {}

  lemma BounceEffect(r: State, s1: State, w: Worker, id: int, now: int, st: Status, code: string)
    requires WellFormed(r) && Reserved(r, s1, w) && Enabled(r, Bounce(id, w.id, now, st, code))
    ensures var s2 := SetDispatch(s1, id, w.id, now);
            && (code == r.instances[id].errorCode ==>
                  Release(SetStatus(s2, id, st), w) == Apply(r, Bounce(id, w.id, now, st, code)))
            && (var sid := r.instances[id].schedule;
                sid in r.bySchedule && r.bySchedule[sid] == id ==>
                  Release(SetResult(s2, sid, st, code), w) == Apply(r, Bounce(id, w.id, now, st, code)))
  {
    TakenAndGiven(r.workers, w.id);
  }

  /** The net effect of routing and dispatching a waiting instance is one move. */
  lemma RedispatchEffect(s: State, id: int, t: Task, env: Env) returns (m: Move)
    requires WellFormed(s) && Waiting(s, id) && Pick(s, t).1.Some?
    ensures Enabled(Rotated(s, t), m)
    ensures if env.accepts(id) then m.Place? && m.id == id else m.Bounce? && m.id == id && m.st == RetryWaiting
    ensures Redispatch(s, id, t, env) == (Apply(Rotated(s, t), m), if env.accepts(id) then Sent else Refused)
  {
    PickReserves(s, t);
    var (s1, picked) := Pick(s, t);
    var w := picked.value;
    if env.accepts(id) {
      m := Place(id, w.id, env.now);
      PlaceEffect(Rotated(s, t), s1, w, id, env.now);
    } else {
      m := Bounce(id, w.id, env.now, RetryWaiting, s.instances[id].errorCode);
      BounceEffect(Rotated(s, t), s1, w, id, env.now, RetryWaiting, s.instances[id].errorCode);
    }
  }

  lemma RedispatchMoves(s: State, id: int, t: Task, env: Env) returns (ms: seq<Move>)
    requires WellFormed(s) && Waiting(s, id)
    ensures var (s', out) := Redispatch(s, id, t, env);
            Quiet(ms) && Leads(s, ms, s') && (out.NoWorker? ==> s' == s)
  {
    if Pick(s, t).1.None? {
      PickFacts(s, t);
      ms := [];
    } else {
      var m := RedispatchEffect(s, id, t, env);
      ms := RotateThen(s, t, m);
    }
  }

  lemma TriggerShardEffect(s: State, t: Task, shard: int, env: Env) returns (m: Move)
    requires Sound(s)
    requires Pick(Create(s, RootInstance(s, t, shard, env)), t).1.Some?
    ensures var s1 := Create(s, RootInstance(s, t, shard, env));
            && Enabled(Rotated(s1, t), m)
            && (if env.accepts(s.nextId) then m.Place? && m.id == s.nextId else m.Bounce? && m.id == s.nextId && m.st == Failed)
            && TriggerShard(s, t, shard, env) ==
               (Apply(Rotated(s1, t), m), if env.accepts(s.nextId) then Sent else Refused)
  {
    var id, root := s.nextId, RootInstance(s, t, shard, env);
    var s1 := Create(s, root);
    CreateKeepsWellFormed(s, root);
    PickReserves(s1, t);
    var (s2, picked) := Pick(s1, t);
    var w := picked.value;
    if env.accepts(id) {
      m := Place(id, w.id, env.now);
      PlaceEffect(Rotated(s1, t), s2, w, id, env.now);
    } else {
      m := Bounce(id, w.id, env.now, Failed, "dispatch_failed");
      BounceEffect(Rotated(s1, t), s2, w, id, env.now, Failed, "dispatch_failed");
    }
  }

  lemma CreateKeepsWellFormed(s: State, inst: Instance)
    requires WellFormed(s) && IdMatches(inst)
    ensures WellFormed(Create(s, inst))
  {}

  lemma TriggerShardMoves(s: State, t: Task, shard: int, env: Env) returns (ms: seq<Move>)
    requires Sound(s) && UpstreamDone(s, t.id) && OneUpstream(s.deps, t.id)
    ensures Quiet(ms) && Leads(s, ms, TriggerShard(s, t, shard, env).0)
  {
    var root := RootInstance(s, t, shard, env);
    var s1 := Create(s, root);
    One(s, Root(root));
    if Pick(s1, t).1.None? {
      MoveKeepsWellFormed(s, Root(root));
      PickFacts(s1, t);
      ms := [Root(root)];
    } else {
      var m := TriggerShardEffect(s, t, shard, env);
      var rest := RotateThen(s1, t, m);
      Chain(s, [Root(root)], s1, rest, Apply(Rotated(s1, t), m));
      ms := [Root(root)] + rest;
    }
  }

  lemma {:induction false} TriggerShardsMoves(s: State, t: Task, shard: nat, env: Env) returns (ms: seq<Move>)
    requires Sound(s) && UpstreamDone(s, t.id) && OneUpstream(s.deps, t.id)
    ensures Quiet(ms) && Leads(s, ms, TriggerShards(s, t, shard, env).0)
    decreases ShardCount(t) - shard
  {
    if shard >= ShardCount(t) {
      ms := [];
    } else {
      var (s1, out) := TriggerShard(s, t, shard, env);
      ms := TriggerShardMoves(s, t, shard, env);
      if !out.NoWorker? {
        PathKeeps(s, ms);
        UpstreamPersists(s, s1, t.id);
        var rest := TriggerShardsMoves(s1, t, shard + 1, env);
        Chain(s, ms, s1, rest, TriggerShards(s1, t, shard + 1, env).0);
        ms := ms + rest;
      }
    }
  }

  lemma GateIsSound(s: State, task: int)
    requires GateOpen(s, task)
    ensures UpstreamDone(s, task) && OneUpstream(s.deps, task)
  {}

  /** t is a copy of a stored task that may be out of date in its trigger time only. */
  ghost predicate CopyOf(s: State, t: Task) { t.id in s.tasks && s.tasks[t.id].(next := 0) == t.(next := 0) }

  lemma RetimeMove(s: State, t: Task, next: int)
    requires CopyOf(s, t)
    ensures Leads(s, [Retime(t.id, next)], UpdateTask(s, t.(next := next)))
  {}

  lemma RetimeAfter(s: State, ms: seq<Move>, s1: State, t: Task, next: int)
    requires Sound(s) && CopyOf(s, t) && Leads(s, ms, s1) && Quiet(ms)
    ensures var ns := ms + [Retime(t.id, next)]; Quiet(ns) && Leads(s, ns, UpdateTask(s1, t.(next := next)))
  {
    PathKeeps(s, ms);
    assert CopyOf(s1, t);
    RetimeMove(s1, t, next);
    Chain(s, ms, s1, [Retime(t.id, next)], UpdateTask(s1, t.(next := next)));
  }

  lemma HandleTaskMoves(s: State, t: Task, env: Env) returns (ms: seq<Move>)
    requires Sound(s) && CopyOf(s, t)
    ensures Quiet(ms) && Leads(s, ms, HandleTask(s, t, env))
  {
    if !GateOpen(s, t.id) {
      ms := [Retime(t.id, env.now + 5 * SECOND)];
      RetimeMove(s, t, env.now + 5 * SECOND);
    } else {
      GateIsSound(s, t.id);
      var shards := TriggerShards(s, t, 0, env);
      ms := TriggerShardsMoves(s, t, 0, env);
      var next := if shards.1.NoWorker? then Some(env.now + 10 * SECOND) else NextTrigger(t, env.now);
      assert HandleTask(s, t, env) == if next.Some? then UpdateTask(shards.0, t.(next := next.value)) else shards.0;
      if next.Some? {
        RetimeAfter(s, ms, shards.0, t, next.value);
        ms := ms + [Retime(t.id, next.value)];
      }
    }
  }

  lemma {:induction false} HandleTasksMoves(s: State, tasks: seq<Task>, env: Env) returns (ms: seq<Move>)
    requires Sound(s) && forall i :: 0 <= i < |tasks| ==> CopyOf(s, tasks[i])
    ensures Quiet(ms) && Leads(s, ms, HandleTasks(s, tasks, env))
    decreases |tasks|
  {
    if tasks == [] {
      ms := [];
    } else {
      var s1 := HandleTask(s, tasks[0], env);
      ms := HandleTaskMoves(s, tasks[0], env);
      PathKeeps(s, ms);
      var rest := HandleTasksMoves(s1, tasks[1..], env);
      Chain(s, ms, s1, rest, HandleTasks(s, tasks, env));
      ms := ms + rest;
    }
  }

  lemma TriggerScanMoves(s: State, input: ScanInput, env: Env) returns (ms: seq<Move>)
    requires Sound(s) && DueListing(s, env.now, input.due)
    ensures Quiet(ms) && Leads(s, ms, TriggerScan(s, input, env))
  {
    if !ScanAllowed(s, input.pressure) {
      ms := [];
    } else {
      var ids := ScanIds(s, input, env.now);
      var tasks := Load(s.tasks, ids);
      forall i | 0 <= i < |tasks| ensures CopyOf(s, tasks[i]) { assert s.tasks[ids[i]].id == ids[i]; }
      ms := HandleTasksMoves(s, tasks, env);
    }
  }

  lemma {:induction false} RetryAllMoves(s: State, due: seq<Instance>, env: Env) returns (ms: seq<Move>)
    requires Sound(s)
    requires forall i :: 0 <= i < |due| ==> Waiting(s, due[i].id)
    requires forall i, j :: 0 <= i < j < |due| ==> due[i].id != due[j].id
    ensures Quiet(ms) && Leads(s, ms, RetryAll(s, due, env))
    decreases |due|
  {
    if due == [] {
      ms := [];
    } else if due[0].task !in s.tasks {
      ms := RetryAllMoves(s, due[1..], env);
    } else {
      var t := s.tasks[due[0].task];
      var (s1, out) := Redispatch(s, due[0].id, t, env);
      ms := RedispatchMoves(s, due[0].id, t, env);
      if !out.NoWorker? {
        PathKeeps(s, ms);
        forall i | 1 <= i < |due| ensures Waiting(s1, due[i].id) { RedispatchTouchesOne(s, due[0].id, t, env, due[i].id); }
        var rest := RetryAllMoves(s1, due[1..], env);
        Chain(s, ms, s1, rest, RetryAll(s, due, env));
        ms := ms + rest;
      }
    }
  }

  lemma RedispatchTouchesOne(s: State, id: int, t: Task, env: Env, other: int)
    requires WellFormed(s) && Waiting(s, id) && other in s.instances && other != id
    ensures var s' := Redispatch(s, id, t, env).0; other in s'.instances && s'.instances[other] == s.instances[other]
  {
    PickFacts(s, t);
  }

  lemma RetryScanMoves(s: State, env: Env) returns (ms: seq<Move>)
    requires Sound(s)
    ensures Quiet(ms) && Leads(s, ms, RetryScan(s, env))
  {
    var due, ids := DueInstances(s, env.now), DueRetries(s, env.now);
    assert forall i :: 0 <= i < |due| ==> due[i].id == ids[i];
    ms := RetryAllMoves(s, due, env);
  }

  /** Only trigger times change when downstream tasks are fired. */
  lemma {:induction false} FireMoves(s: State, ids: seq<int>, now: int) returns (ms: seq<Move>)
    requires TasksOk(s.tasks)
    ensures Quiet(ms) && Leads(s, ms, FireDownstream(s, ids, now))
    decreases |ids|
  {
    if ids == [] {
      ms := [];
    } else if ids[0] in s.tasks && s.tasks[ids[0]].enabled {
      var t := s.tasks[ids[0]];
      assert t.id == ids[0];
      var s1 := UpdateTask(s, t.(next := now));
      RetimeMove(s, t, now);
      ms := FireMoves(s1, ids[1..], now);
      Chain(s, [Retime(t.id, now)], s1, ms, FireDownstream(s, ids, now));
      ms := [Retime(t.id, now)] + ms;
    } else {
      ms := FireMoves(s, ids[1..], now);
    }
  }

  lemma {:induction false} FireCommutes(s: State, ids: seq<int>, now: int, ws: map<WorkerId, Worker>)
    ensures FireDownstream(s.(workers := ws), ids, now) == FireDownstream(s, ids, now).(workers := ws)
    ensures var s' := FireDownstream(s, ids, now);
            s'.workers == s.workers && s'.retryOf == s.retryOf && s'.instances == s.instances
    decreases |ids|
  {
    if ids != [] {
      if ids[0] in s.tasks && s.tasks[ids[0]].enabled {
        var s1 := UpdateTask(s, s.tasks[ids[0]].(next := now));
        assert UpdateTask(s.(workers := ws), s.tasks[ids[0]].(next := now)) == s1.(workers := ws);
        FireCommutes(s1, ids[1..], now, ws);
      } else {
        FireCommutes(s, ids[1..], now, ws);
      }
    }
  }

  /** The retry of an instance that has just failed or timed out. */
  lemma RetryIfNeededMoves(s: State, inst: Instance, r: Report, env: Env) returns (ms: seq<Move>)
    requires Sound(s) && inst.id in s.instances && inst.id !in s.retryOf.Values
    requires Continues(inst.(status := Pending), s.instances[inst.id]) && s.instances[inst.id].status == r.status
    ensures Quiet(ms) && Leads(s, ms, RetryIfNeeded(s, inst, r, env).0)
  {
    ms := [];
    if IsRetryable(r.status) && inst.task in s.tasks {
      var t := s.tasks[inst.task];
      assert t.id == inst.task;
      if !(inst.retryCount >= t.maxRetry || !RetriesError(t, r.errorCode) || WindowExceeded(inst, t.retryWindow, env.now)) {
        var delay := RetryDelay(t.retryPolicy, inst.retryCount + 1, t.retryInterval);
        if delay > 0 {
          var c := RetryInstance(s, inst, t, RetryWaiting, env.now + delay, env);
          One(s, Child(inst.id, c));
          ms := [Child(inst.id, c)];
        } else {
          ms := ImmediateRetryMoves(s, inst, t, env);
        }
      }
    }
  }

  ghost function ImmediateRetry(s: State, inst: Instance, t: Task, env: Env): State {
    var s1 := CreateRetry(s, inst.id, RetryInstance(s, inst, t, Pending, 0, env));
    var (s2, out) := Redispatch(s1, s.nextId, t, env);
    if out.NoWorker? then SetStatus(s2, s.nextId, RetryWaiting) else s2
  }

  datatype RetryKind = NoRetry | AtOnce | Later(due: int)

  /** The three ways the retry decision can go. */
  lemma RetryOutcome(s: State, inst: Instance, r: Report, env: Env) returns (kind: RetryKind)
    ensures kind.NoRetry? ==> RetryIfNeeded(s, inst, r, env).0 == s
    ensures !kind.NoRetry? ==> inst.task in s.tasks
    ensures kind.Later? ==>
              RetryIfNeeded(s, inst, r, env).0 ==
                CreateRetry(s, inst.id, RetryInstance(s, inst, s.tasks[inst.task], RetryWaiting, kind.due, env))
    ensures kind.AtOnce? ==> RetryIfNeeded(s, inst, r, env).0 == ImmediateRetry(s, inst, s.tasks[inst.task], env)
  {
    kind := NoRetry;
    if IsRetryable(r.status) && inst.task in s.tasks {
      var t := s.tasks[inst.task];
      if !(inst.retryCount >= t.maxRetry || !RetriesError(t, r.errorCode) || WindowExceeded(inst, t.retryWindow, env.now)) {
        var delay := RetryDelay(t.retryPolicy, inst.retryCount + 1, t.retryInterval);
        kind := if delay > 0 then Later(env.now + delay) else AtOnce;
      }
    }
  }

  lemma ImmediateRetryMoves(s: State, inst: Instance, t: Task, env: Env) returns (ms: seq<Move>)
    requires Sound(s) && Enabled(s, Child(inst.id, RetryInstance(s, inst, t, Pending, 0, env)))
    ensures Quiet(ms) && Leads(s, ms, ImmediateRetry(s, inst, t, env))
  {
    var id, c := s.nextId, RetryInstance(s, inst, t, Pending, 0, env);
    var s1 := CreateRetry(s, inst.id, c);
    One(s, Child(inst.id, c));
    MoveKeepsWellFormed(s, Child(inst.id, c));
    var rest := RedispatchMoves(s1, id, t, env);
    if Redispatch(s1, id, t, env).1.NoWorker? {
      One(s1, Park(id));
      rest := [Park(id)];
    }
    Chain(s, [Child(inst.id, c)], s1, rest, ImmediateRetry(s, inst, t, env));
    ms := [Child(inst.id, c)] + rest;
  }

  ghost predicate Effective(s: State, r: Report) {
    !r.schedule.NoId? && Resolve(s, r.schedule).Some? && !IsTerminal(Resolve(s, r.schedule).value.status)
  }

  ghost function SettleMove(s: State, r: Report): (m: Move)
    requires Effective(s, r)
    ensures Enabled(s, m)
  {
    Settle(s.bySchedule[r.schedule], r.status, r.errorCode, if r.status.Running? then None else r.worker)
  }

  ghost function Fired(s: State, task: int, st: Status, now: int): State {
    if st.Success? then FireDownstream(s, Downstream(s.deps, task), now) else s
  }

  /** Releasing the load before firing the downstream tasks makes no difference. */
  lemma ReportOrder(s: State, r: Report, env: Env)
    requires WellFormed(s) && Effective(s, r)
    ensures var inst, s1 := Resolve(s, r.schedule).value, Apply(s, SettleMove(s, r));
            && (r.status.Running? ==> ReportStatus(s, r, env) == (s1, true))
            && (!r.status.Running? ==>
                  ReportStatus(s, r, env) == RetryIfNeeded(Fired(s1, inst.task, r.status, env.now), inst, r, env))
  {
    var inst, s1 := Resolve(s, r.schedule).value, Apply(s, SettleMove(s, r));
    var base := SetResult(s, r.schedule, r.status, r.errorCode);
    assert r.status.Running? ==> s1 == base;
    if r.status.Success? {
      assert s1 == base.(workers := s1.workers);
      FireCommutes(base, Downstream(s.deps, inst.task), env.now, s1.workers);
    }
  }

  lemma FiredMoves(s: State, task: int, st: Status, now: int) returns (ms: seq<Move>)
    requires Sound(s)
    ensures Quiet(ms) && Leads(s, ms, Fired(s, task, st, now))
    ensures var s' := Fired(s, task, st, now); Sound(s') && s'.retryOf == s.retryOf && s'.instances == s.instances
  {
    ms := [];
    if st.Success? {
      ms := FireMoves(s, Downstream(s.deps, task), now);
      FireCommutes(s, Downstream(s.deps, task), now, s.workers);
    }
    PathKeeps(s, ms);
  }

  /** A report that is not ignored settles its instance and then only makes quiet moves. */
  lemma ReportMoves(s: State, r: Report, env: Env) returns (ms: seq<Move>)
    requires Sound(s)
    ensures Leads(s, ms, ReportStatus(s, r, env).0)
    ensures ms != [] ==> Effective(s, r) && ms[0] == SettleMove(s, r) && Quiet(ms[1..])
  {
    ms := [];
    if Effective(s, r) {
      var inst, m := Resolve(s, r.schedule).value, SettleMove(s, r);
      var s1 := Apply(s, m);
      ReportOrder(s, r, env);
      var rest := SettledMoves(s, r, env);
      One(s, m);
      Chain(s, [m], s1, rest, ReportStatus(s, r, env).0);
      ms := [m] + rest;
      assert ms[1..] == rest;
    }
  }

  lemma SettledMoves(s: State, r: Report, env: Env) returns (ms: seq<Move>)
    requires Sound(s) && Effective(s, r)
    ensures Quiet(ms) && Leads(Apply(s, SettleMove(s, r)), ms, ReportStatus(s, r, env).0)
  {
    var inst, m := Resolve(s, r.schedule).value, SettleMove(s, r);
    var s1 := Apply(s, m);
    ReportOrder(s, r, env);
    ms := [];
    if !r.status.Running? {
      NotRetriedYet(s, m.id);
      MoveKeepsWellFormed(s, m);
      MoveKeepsLinks(s, m);
      var s2 := Fired(s1, inst.task, r.status, env.now);
      ms := FiredMoves(s1, inst.task, r.status, env.now);
      var more := RetryIfNeededMoves(s2, inst, r, env);
      Chain(s1, ms, s2, more, RetryIfNeeded(s2, inst, r, env).0);
      ms := ms + more;
    }
  }

  lemma NotRetriedYet(s: State, id: int)
    requires RetryLinks(s) && Unfinished(s, id)
    ensures id !in s.retryOf.Values
  {
    forall i | i in s.retryOf ensures s.retryOf[i] != id { assert Link(s, i, s.retryOf[i]); }
  }

  lemma CancelMoves(s: State, sid: ScheduleId) returns (ms: seq<Move>)
    requires Sound(s)
    ensures Leads(s, ms, CancelInstance(s, sid).0)
    ensures ms == [] || (sid in s.bySchedule && ms == [Drop(s.bySchedule[sid])])
  {
    ms := [];
    if Resolve(s, sid).Some? && !IsTerminal(Resolve(s, sid).value.status) {
      ms := [Drop(s.bySchedule[sid])];
      One(s, ms[0]);
    }
  }
}
