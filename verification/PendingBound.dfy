/** Backpressure bounds the backlog: with a controller in front of the trigger
    scan the number of pending instances stays below redRatio * maxPending + 100. */
module PendingBound {
  import opened Common
  import opened Backpressure
  import opened RuntimeModel
  import opened Moves
  import opened Handlers
  import opened Runs

  ghost predicate IsPending(instances: map<int, Instance>, i: int) { i in instances && instances[i].status == Pending }

  ghost function PendingIn(instances: map<int, Instance>): set<int> {
    set i | i in instances && IsPending(instances, i)
  }

  ghost function Backlog(s: State): nat { |PendingIn(s.instances)| }

  lemma PendingUpdate(instances: map<int, Instance>, id: int, x: Instance)
    ensures PendingIn(instances[id := x]) ==
              (PendingIn(instances) - {id}) + (if IsPending(instances[id := x], id) then {id} else {})
  {}

  lemma BacklogUpdate(instances: map<int, Instance>, id: int, x: Instance)
    ensures |PendingIn(instances[id := x])| == |PendingIn(instances)|
              - (if IsPending(instances, id) then 1 else 0)
              + (if IsPending(instances[id := x], id) then 1 else 0)
  {
    PendingUpdate(instances, id, x);
    var before := PendingIn(instances);
    assert id in before <==> IsPending(instances, id);
    assert |before - {id}| == |before| - (if id in before then 1 else 0);
  }

  lemma RedispatchClears(s: State, id: int, t: Task, env: Env)
    requires WellFormed(s) && Waiting(s, id)
    ensures var (s', out) := Redispatch(s, id, t, env);
            if out.NoWorker? then s' == s
            else Backlog(s') == Backlog(s) - (if s.instances[id].status == Pending then 1 else 0)
  {
    if Pick(s, t).1.None? {
      PickFacts(s, t);
    } else {
      var m := RedispatchEffect(s, id, t, env);
      BacklogUpdate(s.instances, id, Apply(Rotated(s, t), m).instances[id]);
    }
  }

  lemma ShardBacklog(s: State, t: Task, shard: int, env: Env)
    requires Sound(s)
    ensures var (s', out) := TriggerShard(s, t, shard, env);
            Backlog(s') == Backlog(s) + (if out.NoWorker? then 1 else 0)
  {
    var root := RootInstance(s, t, shard, env);
    var s1 := Create(s, root);
    BacklogUpdate(s.instances, s.nextId, root.(id := s.nextId));
    CreateKeepsWellFormed(s, root);
    if Pick(s1, t).1.None? {
      PickFacts(s1, t);
    } else {
      var m := TriggerShardEffect(s, t, shard, env);
      BacklogUpdate(s1.instances, s.nextId, Apply(Rotated(s1, t), m).instances[s.nextId]);
    }
  }

  lemma ShardKeepsSound(s: State, t: Task, shard: int, env: Env)
    requires Sound(s) && UpstreamDone(s, t.id) && OneUpstream(s.deps, t.id)
    ensures var s1 := TriggerShard(s, t, shard, env).0; Sound(s1) && UpstreamDone(s1, t.id) && OneUpstream(s1.deps, t.id)
  {
    var ms := TriggerShardMoves(s, t, shard, env);
    PathKeeps(s, ms);
    UpstreamPersists(s, TriggerShard(s, t, shard, env).0, t.id);
  }

  lemma {:induction false} ShardsBacklog(s: State, t: Task, shard: nat, env: Env)
    requires Sound(s) && UpstreamDone(s, t.id) && OneUpstream(s.deps, t.id)
    ensures Backlog(TriggerShards(s, t, shard, env).0) <= Backlog(s) + 1
    decreases ShardCount(t) - shard
  {
    if shard < ShardCount(t) {
      var first := TriggerShard(s, t, shard, env);
      ShardBacklog(s, t, shard, env);
      ShardKeepsSound(s, t, shard, env);
      if !first.1.NoWorker? { ShardsBacklog(first.0, t, shard + 1, env); }
    }
  }

  /** Handling one task leaves at most one more instance pending, however many shards it has. */
  lemma TaskBacklog(s: State, t: Task, env: Env)
    requires Sound(s)
    ensures Backlog(HandleTask(s, t, env)) <= Backlog(s) + 1
  {
    if GateOpen(s, t.id) {
      GateIsSound(s, t.id);
      ShardsBacklog(s, t, 0, env);
    }
  }

  lemma {:induction false} TasksBacklog(s: State, tasks: seq<Task>, env: Env)
    requires Sound(s) && forall i :: 0 <= i < |tasks| ==> CopyOf(s, tasks[i])
    ensures Backlog(HandleTasks(s, tasks, env)) <= Backlog(s) + |tasks|
    decreases |tasks|
  {
    if tasks != [] {
      TaskBacklog(s, tasks[0], env);
      var ms := HandleTaskMoves(s, tasks[0], env);
      PathKeeps(s, ms);
      TasksBacklog(HandleTask(s, tasks[0], env), tasks[1..], env);
    }
  }

  lemma {:induction false} RetryBacklog(s: State, due: seq<Instance>, env: Env)
    requires Sound(s)
    requires forall i :: 0 <= i < |due| ==> Waiting(s, due[i].id)
    requires forall i, j :: 0 <= i < j < |due| ==> due[i].id != due[j].id
    ensures Backlog(RetryAll(s, due, env)) <= Backlog(s)
    decreases |due|
  {
    if due != [] {
      if due[0].task !in s.tasks {
        RetryBacklog(s, due[1..], env);
      } else {
        var t := s.tasks[due[0].task];
        var (s1, out) := Redispatch(s, due[0].id, t, env);
        RedispatchClears(s, due[0].id, t, env);
        if !out.NoWorker? {
          var ms := RedispatchMoves(s, due[0].id, t, env);
          PathKeeps(s, ms);
          forall i | 1 <= i < |due| ensures Waiting(s1, due[i].id) { RedispatchTouchesOne(s, due[0].id, t, env, due[i].id); }
          RetryBacklog(s1, due[1..], env);
        }
      }
    }
  }

  lemma RetryScanBacklog(s: State, env: Env)
    requires Sound(s)
    ensures Backlog(RetryScan(s, env)) <= Backlog(s)
  {
    var due, ids := DueInstances(s, env.now), DueRetries(s, env.now);
    assert forall i :: 0 <= i < |due| ==> due[i].id == ids[i];
    RetryBacklog(s, due, env);
  }

  lemma DelayedRetryBacklog(s: State, inst: Instance, t: Task, due: int, env: Env)
    requires WellFormed(s)
    ensures Backlog(CreateRetry(s, inst.id, RetryInstance(s, inst, t, RetryWaiting, due, env))) == Backlog(s)
  {
    BacklogUpdate(s.instances, s.nextId, RetryInstance(s, inst, t, RetryWaiting, due, env).(id := s.nextId));
  }

  lemma ImmediateRetryBacklog(s: State, inst: Instance, t: Task, env: Env)
    requires WellFormed(s)
    ensures Backlog(ImmediateRetry(s, inst, t, env)) == Backlog(s)
  {
    var c := RetryInstance(s, inst, t, Pending, 0, env);
    var s1 := CreateRetry(s, inst.id, c);
    BacklogUpdate(s.instances, s.nextId, c.(id := s.nextId));
    assert WellFormed(s1) by { CreateKeepsWellFormed(s, c); }
    RedispatchClears(s1, s.nextId, t, env);
    BacklogUpdate(s1.instances, s.nextId, s1.instances[s.nextId].(status := RetryWaiting));
  }

  lemma RetryIfNeededBacklog(s: State, inst: Instance, r: Report, env: Env)
    requires WellFormed(s)
    ensures Backlog(RetryIfNeeded(s, inst, r, env).0) == Backlog(s)
  {
    var outcome := RetryOutcome(s, inst, r, env);
    if outcome.Later? {
      DelayedRetryBacklog(s, inst, s.tasks[inst.task], outcome.due, env);
    } else if outcome.AtOnce? {
      ImmediateRetryBacklog(s, inst, s.tasks[inst.task], env);
    }
  }

  lemma ReportBacklog(s: State, r: Report, env: Env)
    requires Sound(s) && WorkerSends(r.status)
    ensures Backlog(ReportStatus(s, r, env).0) <= Backlog(s)
  {
    if Effective(s, r) {
      var inst, m := Resolve(s, r.schedule).value, SettleMove(s, r);
      var s1 := Apply(s, m);
      BacklogUpdate(s.instances, m.id, s1.instances[m.id]);
      ReportOrder(s, r, env);
      if !r.status.Running? {
        MoveKeepsWellFormed(s, m);
        MoveKeepsLinks(s, m);
        var fm := FiredMoves(s1, inst.task, r.status, env.now);
        RetryIfNeededBacklog(Fired(s1, inst.task, r.status, env.now), inst, r, env);
      }
    }
  }

  ghost predicate Throttled(e: Event, cfg: Config) {
    && (e.Trigger? ==> e.input.pressure == Some(cfg))
    && (e.Reported? ==> WorkerSends(e.report.status))
  }

  /** The pending count from which on a scan is refused. */
  ghost function RedCount(cfg: Config): real { Normalized(cfg).redRatio * Normalized(cfg).maxPending as real }

  ghost predicate BelowBound(s: State, cfg: Config) { Backlog(s) as real < RedCount(cfg) + SCAN_LIMIT as real }

  lemma AllowedBelowRed(s: State, cfg: Config)
    requires ScanAllowed(s, Some(cfg))
    ensures Backlog(s) as real < RedCount(cfg)
  {
    assert WithStatus(s, Pending) == PendingIn(s.instances);
    RedThreshold(Normalized(cfg), Backlog(s));
  }

  lemma ScanBacklog(s: State, input: ScanInput, env: Env)
    requires Sound(s) && DueListing(s, env.now, input.due)
    ensures Backlog(TriggerScan(s, input, env)) <= Backlog(s) + (if ScanAllowed(s, input.pressure) then SCAN_LIMIT else 0)
  {
    if ScanAllowed(s, input.pressure) {
      var ids := ScanIds(s, input, env.now);
      var tasks := Load(s.tasks, ids);
      forall i | 0 <= i < |tasks| ensures CopyOf(s, tasks[i]) { assert s.tasks[ids[i]].id == ids[i]; }
      TasksBacklog(s, tasks, env);
    }
  }

  lemma StepBelowBound(s: State, e: Event, cfg: Config)
    requires Sound(s) && Possible(s, e) && Throttled(e, cfg) && BelowBound(s, cfg)
    ensures BelowBound(Step(s, e), cfg)
  {
    match e
    case Trigger(input, env) => ScanBelowBound(s, input, env, cfg);
    case Retry(env) => RetryScanBacklog(s, env);
    case Reported(r, env) => ReportBacklog(s, r, env);
    case CancelRequest(sid) => CancelBacklog(s, sid);
  }

  lemma ScanBelowBound(s: State, input: ScanInput, env: Env, cfg: Config)
    requires Sound(s) && DueListing(s, env.now, input.due) && input.pressure == Some(cfg) && BelowBound(s, cfg)
    ensures BelowBound(TriggerScan(s, input, env), cfg)
  {
    ScanBacklog(s, input, env);
    if ScanAllowed(s, Some(cfg)) { AllowedBelowRed(s, cfg); }
  }

  lemma CancelBacklog(s: State, sid: ScheduleId)
    requires Sound(s)
    ensures Backlog(CancelInstance(s, sid).0) <= Backlog(s)
  {
    var ms := CancelMoves(s, sid);
    if ms != [] {
      assert ms[1..] == [];
      BacklogUpdate(s.instances, ms[0].id, Apply(s, ms[0]).instances[ms[0].id]);
    }
  }

  /** Over any run whose scans go through the controller the backlog stays below the bound. */
  lemma {:induction false} BacklogIsBounded(s: State, events: seq<Event>, cfg: Config)
    requires Sound(s) && IsRun(s, events) && BelowBound(s, cfg)
    requires forall i :: 0 <= i < |events| ==> Throttled(events[i], cfg)
    ensures BelowBound(Run(s, events), cfg)
    decreases |events|
  {
    if events != [] {
      StepBelowBound(s, events[0], cfg);
      StepKeeps(s, events[0]);
      BacklogIsBounded(Step(s, events[0]), events[1..], cfg);
    }
  }
}
