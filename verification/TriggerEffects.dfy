/** What handling a due task, and a whole trigger scan, creates: every shard once, until
    no worker is free, and the next trigger time of every handled task. */
module TriggerEffects {
  import opened Common
  import opened RuntimeModel
  import opened Moves
  import opened Handlers
  import opened Dispatching
  import Cron

  // ----------------------------------------------------------------- free capacity

  /** The free units of capacity that the selector admits. */
  ghost function Slots(workers: map<WorkerId, Worker>, labels: map<string, string>): set<(WorkerId, int)> {
    set w, j | w in workers && Fits(workers[w], labels) && workers[w].load <= j < workers[w].max :: (w, j)
  }

  lemma SlotsAre(workers: map<WorkerId, Worker>, labels: map<string, string>, w: WorkerId, j: int)
    ensures (w, j) in Slots(workers, labels) <==>
            w in workers && Fits(workers[w], labels) && workers[w].load <= j < workers[w].max
  {}

  lemma NoSlotIff(workers: map<WorkerId, Worker>, labels: map<string, string>)
    ensures Slots(workers, labels) == {} <==> NoRoom(workers, labels)
  {
    if Slots(workers, labels) != {} {
      var slot := Any(Slots(workers, labels));
      SlotsAre(workers, labels, slot.0, slot.1);
      assert Free(workers, labels, slot.0);
    }
    forall w | w in workers && Free(workers, labels, w) ensures Slots(workers, labels) != {} {
      SlotsAre(workers, labels, w, workers[w].load);
    }
  }

  lemma SlotTaken(workers: map<WorkerId, Worker>, labels: map<string, string>, w: WorkerId)
    requires Free(workers, labels, w)
    ensures |Slots(Taken(workers, w), labels)| == |Slots(workers, labels)| - 1
  {
    var before, after, slot := Slots(workers, labels), Slots(Taken(workers, w), labels), (w, workers[w].load);
    SlotsAre(workers, labels, w, workers[w].load);
    forall v, j ensures (v, j) in after <==> (v, j) in before - {slot} {
      SlotsAre(workers, labels, v, j);
      SlotsAre(Taken(workers, w), labels, v, j);
    }
    assert after == before - {slot};
  }

  /** How many of the n instances from `id` on the transport accepts. */
  ghost function Accepted(env: Env, id: int, n: nat): nat
    decreases n
  {
    if n == 0 then 0 else (if env.accepts(id) then 1 else 0) + Accepted(env, id + 1, n - 1)
  }

  // ------------------------------------------------------------------- one shard

  /** The instance of one shard, apart from what dispatching records. */
  ghost predicate IsShard(inst: Instance, id: int, t: Task, shard: int, env: Env) {
    && inst.id == id && inst.task == t.id && inst.schedule == TriggerId(t.id, env.stamp(id))
    && inst.shardNo == shard && inst.shardTotal == t.totalShards && inst.triggered == env.now
    && inst.retryCount == 0 && inst.nextRetry == 0
  }

  /** It went to a worker that fits, which accepted or refused it. */
  ghost predicate WasSent(inst: Instance, workers: map<WorkerId, Worker>, t: Task, env: Env) {
    && inst.worker.Some? && inst.worker.value in workers && Fits(workers[inst.worker.value], t.labels)
    && inst.dispatched == env.now
    && if env.accepts(inst.id) then inst.status == Dispatched && inst.errorCode == ""
       else inst.status == Failed && inst.errorCode == "dispatch_failed"
  }

  ghost predicate IsStranded(inst: Instance) {
    inst.worker.None? && inst.dispatched == 0 && inst.status == Pending && inst.errorCode == ""
  }

  ghost predicate ShardEffect(s: State, s': State, stranded: bool, t: Task, shard: int, env: Env) {
    var id := s.nextId;
    && id in s'.instances && IsShard(s'.instances[id], id, t, shard, env)
    && s' == s.(instances := s.instances[id := s'.instances[id]], nextId := id + 1,
                bySchedule := s.bySchedule[TriggerId(t.id, env.stamp(id)) := id],
                workers := s'.workers, rrCounter := s'.rrCounter)
    && (stranded <==> NoRoom(s.workers, t.labels))
    && (if stranded then IsStranded(s'.instances[id]) && s'.workers == s.workers
        else
          && WasSent(s'.instances[id], s.workers, t, env)
          && var w := s'.instances[id].worker.value;
             Free(s.workers, t.labels, w) && s'.workers == if env.accepts(id) then Taken(s.workers, w) else s.workers)
  }

  /** A created instance that is dispatched, and marked failed if it is refused. */
  ghost function Sending(s1: State, root: Instance, id: int, w: Worker, env: Env): State {
    var s3 := SetDispatch(s1, id, w.id, env.now);
    if env.accepts(id) then s3 else Release(SetResult(s3, root.schedule, Failed, "dispatch_failed"), w)
  }

  lemma SendingIs(s: State, s2: State, t: Task, shard: int, w: WorkerId, env: Env)
    requires WorkersOk(s.workers) && Free(s.workers, t.labels, w)
    requires s2 == Create(s, RootInstance(s, t, shard, env)).(workers := Taken(s.workers, w), rrCounter := s2.rrCounter)
    ensures ShardEffect(s, Sending(s2, RootInstance(s, t, shard, env), s.nextId, Taken(s.workers, w)[w], env), false, t, shard, env)
  {
    var id, root := s.nextId, RootInstance(s, t, shard, env);
    var sent := root.(id := id, worker := Some(w), status := Dispatched, dispatched := env.now);
    Twice(s.instances, id, root.(id := id), sent);
    Twice(s.instances, id, sent, sent.(status := Failed, errorCode := "dispatch_failed"));
    GivenBack(s.workers, w);
    assert SetDispatch(s2, id, w, env.now).instances == s.instances[id := sent];
  }

  lemma ShardIs(s: State, t: Task, shard: int, env: Env)
    requires WellFormed(s)
    ensures var (s', out) := TriggerShard(s, t, shard, env); ShardEffect(s, s', out.NoWorker?, t, shard, env)
  {
    var root := RootInstance(s, t, shard, env);
    var s1 := Create(s, root);
    PickedFits(s1, t);
    var (s2, picked) := Pick(s1, t);
    if picked.Some? {
      SendingIs(s, s2, t, shard, picked.value.id, env);
      assert TriggerShard(s, t, shard, env).0 == Sending(s2, root, s.nextId, picked.value, env);
    }
  }

  // ------------------------------------------------------------------- all shards

  ghost predicate Kept(s: State, s': State) {
    && s.nextId <= s'.nextId
    && (forall i :: i in s'.instances <==> i in s.instances || s.nextId <= i < s'.nextId)
    && (forall i :: i in s.instances ==> s'.instances[i] == s.instances[i])
    && s'.deps == s.deps && s'.retryOf == s.retryOf && s'.leaked == s.leaked
  }

  ghost function PlacedOn(instances: map<int, Instance>, lo: int, hi: int, w: WorkerId): set<int> {
    set i | i in instances && lo <= i < hi && instances[i].worker == Some(w) && instances[i].status == Dispatched
  }

  /** Every worker has exactly the new instances it accepted more in use. */
  ghost predicate Loaded(s: State, s': State) {
    && s'.workers.Keys == s.workers.Keys
    && forall w :: w in s.workers ==>
         s'.workers[w] == s.workers[w].(load := s.workers[w].load + |PlacedOn(s'.instances, s.nextId, s'.nextId, w)|)
  }

  /** The shards from `shard` on: the instances from lo to hi. All but the last went out,
      and the last is left over if `short`. */
  ghost predicate Shards(s': State, workers: map<WorkerId, Worker>, t: Task, shard: int, lo: int, hi: int, short: bool, env: Env) {
    && lo <= hi
    && (forall i :: lo <= i < hi ==> i in s'.instances && IsShard(s'.instances[i], i, t, shard + (i - lo), env))
    && (forall i :: lo <= i < (if short then hi - 1 else hi) ==> i in s'.instances && WasSent(s'.instances[i], workers, t, env))
    && (short ==> lo < hi && hi - 1 in s'.instances && IsStranded(s'.instances[hi - 1]))
  }

  ghost function ShardsOf(t: Task): nat { if t.totalShards > 1 then t.totalShards else 1 }

  lemma KeptStep(s: State, s1: State, s': State, stranded: bool, t: Task, shard: int, env: Env)
    requires WellFormed(s) && ShardEffect(s, s1, stranded, t, shard, env) && Kept(s1, s')
    ensures Kept(s, s')
  {}

  lemma ShardsStep(s: State, s1: State, s': State, t: Task, shard: int, short: bool, env: Env)
    requires ShardEffect(s, s1, false, t, shard, env) && Kept(s1, s')
    requires Shards(s', s1.workers, t, shard + 1, s1.nextId, s'.nextId, short, env)
    ensures Shards(s', s.workers, t, shard, s.nextId, s'.nextId, short, env)
  {}

  lemma PlacedStep(instances: map<int, Instance>, lo: int, hi: int, w: WorkerId)
    requires lo < hi && lo in instances
    ensures var here := instances[lo].worker == Some(w) && instances[lo].status == Dispatched;
            |PlacedOn(instances, lo, hi, w)| == |PlacedOn(instances, lo + 1, hi, w)| + (if here then 1 else 0)
  {
    var here := instances[lo].worker == Some(w) && instances[lo].status == Dispatched;
    assert PlacedOn(instances, lo, hi, w) == PlacedOn(instances, lo + 1, hi, w) + (if here then {lo} else {});
  }

  lemma LoadedStep(s: State, s1: State, s': State, stranded: bool, t: Task, shard: int, env: Env)
    requires ShardEffect(s, s1, stranded, t, shard, env) && Kept(s1, s') && Loaded(s1, s')
    ensures Loaded(s, s')
  {
    forall w | w in s.workers
      ensures s'.workers[w] == s.workers[w].(load := s.workers[w].load + |PlacedOn(s'.instances, s.nextId, s'.nextId, w)|)
    {
      PlacedStep(s'.instances, s.nextId, s'.nextId, w);
      assert s'.instances[s.nextId] == s1.instances[s.nextId];
    }
  }

  lemma NothingPlaced(s: State)
    ensures Loaded(s, s)
  {
    forall w ensures PlacedOn(s.instances, s.nextId, s.nextId, w) == {} {}
  }

  lemma ShardKeepsWellFormed(s: State, s1: State, stranded: bool, t: Task, shard: int, env: Env)
    requires WellFormed(s) && ShardEffect(s, s1, stranded, t, shard, env)
    ensures WellFormed(s1)
  {
    assert WorkersOk(s1.workers);
    assert InstancesOk(s1.instances, s1.nextId);
    assert IndexOk(s1.instances, s1.bySchedule);
  }

  /** `short`: some shard found no worker. Then the last instance is left over and no
      worker has room; otherwise every shard has gone out. */
  ghost predicate ShardsEffect(s: State, s': State, short: bool, t: Task, shard: nat, env: Env) {
    var n := ShardsOf(t);
    && Kept(s, s') && s'.tasks == s.tasks && Loaded(s, s')
    && Shards(s', s.workers, t, shard, s.nextId, s'.nextId, short, env)
    && (short ==> NoRoom(s'.workers, t.labels) && s'.nextId - s.nextId <= n - shard)
    && (!short && shard <= n ==> s'.nextId - s.nextId == n - shard)
    && ShortIff(s, t, shard, short, env)
  }

  /** The shards from `shard` on run short exactly if the ones before the last of them
      take all the free capacity. */
  ghost predicate ShortIff(s: State, t: Task, shard: nat, short: bool, env: Env) {
    shard < ShardsOf(t) ==>
      (short <==> |Slots(s.workers, t.labels)| <= Accepted(env, s.nextId, ShardsOf(t) - shard - 1))
  }

  lemma ShortStep(s: State, s1: State, short: bool, t: Task, shard: nat, env: Env)
    requires shard < ShardsOf(t) && ShardEffect(s, s1, false, t, shard, env)
    requires ShortIff(s1, t, shard + 1, short, env) && (shard + 1 == ShardsOf(t) ==> !short)
    ensures ShortIff(s, t, shard, short, env)
  {
    SlotsStep(s, s1, t, shard, env);
  }

  lemma ShardsShort(s: State, s1: State, t: Task, shard: nat, env: Env)
    requires WellFormed(s) && ShardEffect(s, s1, true, t, shard, env) && shard < ShardsOf(t)
    ensures ShardsEffect(s, s1, true, t, shard, env)
  {
    NoSlotIff(s.workers, t.labels);
    NothingPlaced(s1);
    LoadedStep(s, s1, s1, true, t, shard, env);
  }

  lemma SlotsStep(s: State, s1: State, t: Task, shard: int, env: Env)
    requires ShardEffect(s, s1, false, t, shard, env)
    ensures |Slots(s1.workers, t.labels)| == |Slots(s.workers, t.labels)| - (if env.accepts(s.nextId) then 1 else 0)
    ensures |Slots(s.workers, t.labels)| > 0
  {
    SlotTaken(s.workers, t.labels, s1.instances[s.nextId].worker.value);
  }

  lemma ShardsJoin(s: State, s1: State, s': State, short: bool, t: Task, shard: nat, env: Env)
    requires WellFormed(s) && shard < ShardsOf(t) && ShardEffect(s, s1, false, t, shard, env)
    requires ShardsEffect(s1, s', short, t, shard + 1, env)
    ensures ShardsEffect(s, s', short, t, shard, env)
  {
    assert Kept(s, s') by { KeptStep(s, s1, s', false, t, shard, env); }
    assert Shards(s', s.workers, t, shard, s.nextId, s'.nextId, short, env) by { ShardsStep(s, s1, s', t, shard, short, env); }
    assert Loaded(s, s') by { LoadedStep(s, s1, s', false, t, shard, env); }
    assert ShortIff(s, t, shard, short, env) by { ShortStep(s, s1, short, t, shard, env); }
  }

  lemma NoShards(s: State, t: Task, env: Env)
    ensures ShardsEffect(s, s, false, t, ShardsOf(t), env)
  {
    NothingPlaced(s);
  }

  lemma ShardsUnfold(s: State, t: Task, shard: nat, env: Env)
    requires shard < ShardCount(t)
    ensures var first := TriggerShard(s, t, shard, env);
            TriggerShards(s, t, shard, env) ==
              if first.1.NoWorker? then first else TriggerShards(first.0, t, shard + 1, env)
  {}

  /** The turn of one shard, and whether it ends the loop. */
  lemma TurnOf(s: State, t: Task, shard: nat, env: Env) returns (s1: State, stop: bool)
    requires WellFormed(s) && shard < ShardsOf(t)
    ensures ShardEffect(s, s1, stop, t, shard, env) && WellFormed(s1)
    ensures TriggerShards(s, t, shard, env) == if stop then (s1, NoWorker) else TriggerShards(s1, t, shard + 1, env)
  {
    var first := TriggerShard(s, t, shard, env);
    s1, stop := first.0, first.1.NoWorker?;
    ShardsUnfold(s, t, shard, env);
    ShardIs(s, t, shard, env);
    ShardKeepsWellFormed(s, s1, stop, t, shard, env);
  }

  lemma {:induction false} ShardsAre(s: State, t: Task, shard: nat, env: Env) returns (s': State, short: bool)
    requires WellFormed(s) && shard <= ShardsOf(t)
    ensures TriggerShards(s, t, shard, env) == (s', if short then NoWorker else Sent)
    ensures ShardsEffect(s, s', short, t, shard, env)
    decreases ShardsOf(t) - shard
  {
    if shard == ShardsOf(t) {
      s', short := s, false;
      NoShards(s, t, env);
    } else {
      var s1, stop := TurnOf(s, t, shard, env);
      if stop {
        s', short := s1, true;
        ShardsShort(s, s1, t, shard, env);
      } else {
        s', short := ShardsAre(s1, t, shard + 1, env);
        ShardsJoin(s, s1, s', short, t, shard, env);
      }
    }
  }

  // --------------------------------------------------------------------- one task

  const FIVE_SECONDS := 5_000_000_000
  const TEN_SECONDS := 10_000_000_000
  const YEAR := 31_536_000_000_000_000

  /** When the task is due next: soon if its gate is shut or its shards did not all find
      a worker, else in a year or at the next run of its expression, if there is one. */
  ghost function DueNext(t: Task, open: bool, short: bool, now: int): Option<int> {
    if !open then Some(now + FIVE_SECONDS)
    else if short then Some(now + TEN_SECONDS)
    else if t.cronExpr == "" then Some(now + YEAR)
    else Cron.NextRun(now, t.cronExpr)
  }

  /** What handling a due task does. Behind an open gate the shards 0, 1, ... get one new
      instance each, all of them exactly if the free capacity the task may use exceeds
      what its shards but the last one take; behind a shut gate there is none. */
  ghost predicate TaskEffect(s: State, s': State, t: Task, env: Env) {
    var n, open := ShardsOf(t), GateOpen(s, t.id);
    var short := open && |Slots(s.workers, t.labels)| <= Accepted(env, s.nextId, n - 1);
    var due := DueNext(t, open, short, env.now);
    && Kept(s, s') && Loaded(s, s')
    && s'.tasks == (if due.Some? then s.tasks[t.id := t.(next := due.value)] else s.tasks)
    && Shards(s', s.workers, t, 0, s.nextId, s'.nextId, short, env)
    && (!open ==> s'.nextId == s.nextId)
    && (open && !short ==> s'.nextId - s.nextId == n)
    && (short ==> s'.nextId - s.nextId <= n && NoRoom(s'.workers, t.labels))
  }

  lemma OpenTask(s: State, s1: State, short: bool, t: Task, tasks': map<int, Task>, env: Env)
    requires GateOpen(s, t.id) && ShardsEffect(s, s1, short, t, 0, env)
    requires var due := DueNext(t, true, short, env.now);
             tasks' == if due.Some? then s.tasks[t.id := t.(next := due.value)] else s.tasks
    ensures TaskEffect(s, s1.(tasks := tasks'), t, env)
  {
    var s' := s1.(tasks := tasks');
    assert Shards(s1, s.workers, t, 0, s.nextId, s1.nextId, short, env);
    assert Shards(s', s.workers, t, 0, s.nextId, s'.nextId, short, env);
  }

  lemma ShutTask(s: State, s': State, t: Task, env: Env)
    requires !GateOpen(s, t.id) && s' == s.(tasks := s.tasks[t.id := t.(next := env.now + FIVE_SECONDS)])
    ensures TaskEffect(s, s', t, env)
  {
    NothingPlaced(s);
  }

  lemma HandledOpen(s: State, t: Task, env: Env)
    requires GateOpen(s, t.id) && t.id in TriggerShards(s, t, 0, env).0.tasks
    ensures var (s1, out) := TriggerShards(s, t, 0, env);
            var due := DueNext(t, true, out.NoWorker?, env.now);
            HandleTask(s, t, env) == s1.(tasks := if due.Some? then s1.tasks[t.id := t.(next := due.value)] else s1.tasks)
  {}

  lemma TaskIs(s: State, t: Task, env: Env)
    requires WellFormed(s) && CopyOf(s, t)
    ensures TaskEffect(s, HandleTask(s, t, env), t, env)
  {
    if GateOpen(s, t.id) {
      var s1, short := ShardsAre(s, t, 0, env);
      HandledOpen(s, t, env);
      OpenTask(s, s1, short, t, HandleTask(s, t, env).tasks, env);
    } else {
      ShutTask(s, HandleTask(s, t, env), t, env);
    }
  }
}
