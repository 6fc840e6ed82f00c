/** The whole effect of a trigger scan: which instances it leaves behind, in which order,
    which loads and which trigger times. */
module ScanEffects {
  import opened Common
  import opened RuntimeModel
  import opened Moves
  import opened Handlers
  import opened Dispatching
  import opened TriggerEffects

  /** The last instance from lo to hi has been left over for want of a worker. */
  ghost predicate LeftOver(s: State, lo: int, hi: int) {
    lo < hi && hi - 1 in s.instances && s.instances[hi - 1].status == Pending
  }

  /** The instances from lo to hi are those of one handled task: none behind a shut gate;
      else one for each shard, up to the first for which no worker had room. */
  ghost predicate Piece(s': State, workers: map<WorkerId, Worker>, t: Task, lo: int, hi: int, open: bool, env: Env) {
    var short := LeftOver(s', lo, hi);
    && Shards(s', workers, t, 0, lo, hi, short, env)
    && (!open ==> hi == lo)
    && (open && !short ==> hi - lo == ShardsOf(t))
    && (short ==> hi - lo <= ShardsOf(t) && NoRoom(s'.workers, t.labels))
  }

  ghost predicate IsLast(tasks: seq<Task>, k: int)
    requires 0 <= k < |tasks|
  {
    forall j :: k < j < |tasks| ==> tasks[j].id != tasks[k].id
  }

  ghost predicate IsFirst(tasks: seq<Task>, k: int)
    requires 0 <= k < |tasks|
  {
    forall j :: 0 <= j < k ==> tasks[j].id != tasks[k].id
  }

  ghost predicate Handles(tasks: seq<Task>, id: int) { exists k :: 0 <= k < |tasks| && tasks[k].id == id }

  /** The trigger time of the task at place k. */
  ghost predicate TimeSet(s: State, s': State, tasks: seq<Task>, k: int, lo: int, hi: int, env: Env)
    requires 0 <= k < |tasks|
  {
    var t := tasks[k];
    var due := DueNext(t, GateOpen(s, t.id), LeftOver(s', lo, hi), env.now);
    && t.id in s'.tasks && t.id in s.tasks
    && (IsLast(tasks, k) && due.Some? ==> s'.tasks[t.id] == t.(next := due.value))
    && (IsLast(tasks, k) && IsFirst(tasks, k) && due.None? ==> s'.tasks[t.id] == s.tasks[t.id])
  }

  ghost predicate Bounds(s: State, s': State, tasks: seq<Task>, bounds: seq<int>) {
    |bounds| == |tasks| + 1 && bounds[0] == s.nextId && bounds[|tasks|] == s'.nextId
  }

  /** Handling `tasks` in turn: the new instances of task k are those from bounds[k] to
      bounds[k + 1]; nothing else is created, and only the handled tasks are retimed. */
  ghost predicate ScanEffect(s: State, s': State, tasks: seq<Task>, bounds: seq<int>, env: Env) {
    && Bounds(s, s', tasks, bounds) && Kept(s, s') && Loaded(s, s')
    && (forall k :: 0 <= k < |tasks| ==>
          Piece(s', s.workers, tasks[k], bounds[k], bounds[k + 1], GateOpen(s, tasks[k].id), env))
    && s'.tasks.Keys == s.tasks.Keys
    && (forall k :: 0 <= k < |tasks| ==> TimeSet(s, s', tasks, k, bounds[k], bounds[k + 1], env))
    && (forall d :: d in s.tasks && !Handles(tasks, d) ==> s'.tasks[d] == s.tasks[d])
  }

  // ----------------------------------------------------------------- one after another

  lemma KeptTwice(s: State, s1: State, s': State)
    requires Kept(s, s1) && Kept(s1, s')
    ensures Kept(s, s')
  {}

  lemma PlacedSplit(instances: map<int, Instance>, lo: int, mid: int, hi: int, w: WorkerId)
    requires lo <= mid <= hi
    ensures |PlacedOn(instances, lo, hi, w)| == |PlacedOn(instances, lo, mid, w)| + |PlacedOn(instances, mid, hi, w)|
  {
    var a, b := PlacedOn(instances, lo, mid, w), PlacedOn(instances, mid, hi, w);
    assert PlacedOn(instances, lo, hi, w) == a + b && a !! b;
  }

  lemma PlacedStays(s: State, s': State, lo: int, w: WorkerId)
    requires Kept(s, s') && InstancesOk(s.instances, s.nextId)
    ensures PlacedOn(s'.instances, lo, s.nextId, w) == PlacedOn(s.instances, lo, s.nextId, w)
  {}

  lemma LoadedTwice(s: State, s1: State, s': State)
    requires Kept(s, s1) && Kept(s1, s') && Loaded(s, s1) && Loaded(s1, s') && InstancesOk(s1.instances, s1.nextId)
    ensures Loaded(s, s')
  {
    forall w | w in s.workers
      ensures s'.workers[w] == s.workers[w].(load := s.workers[w].load + |PlacedOn(s'.instances, s.nextId, s'.nextId, w)|)
    {
      PlacedSplit(s'.instances, s.nextId, s1.nextId, s'.nextId, w);
      PlacedStays(s1, s', s.nextId, w);
    }
  }

  lemma NoRoomStays(s: State, s': State, labels: map<string, string>)
    requires Loaded(s, s') && NoRoom(s.workers, labels)
    ensures NoRoom(s'.workers, labels)
  {
    forall w | w in s'.workers ensures !Free(s'.workers, labels, w) { assert !Free(s.workers, labels, w); }
  }

  /** Nothing succeeds during a scan, so no gate opens or shuts. */
  lemma GateStays(s: State, s': State, task: int)
    requires Kept(s, s') && forall i :: s.nextId <= i < s'.nextId ==> i in s'.instances && !s'.instances[i].status.Success?
    ensures GateOpen(s', task) <==> GateOpen(s, task)
  {
    assert WithStatus(s', Success) == WithStatus(s, Success);
  }

  lemma NoneSucceeds(s': State, workers: map<WorkerId, Worker>, t: Task, lo: int, hi: int, short: bool, env: Env)
    requires Shards(s', workers, t, 0, lo, hi, short, env)
    ensures forall i :: lo <= i < hi ==> i in s'.instances && !s'.instances[i].status.Success?
    ensures short <==> LeftOver(s', lo, hi)
  {
    forall i | lo <= i < hi ensures i in s'.instances && !s'.instances[i].status.Success? {
      assert i < hi - 1 || !short ==> WasSent(s'.instances[i], workers, t, env);
    }
  }

  /** What a handled task left behind is still there at the end. */
  lemma ShardsStay(s1: State, s': State, workers: map<WorkerId, Worker>, t: Task, lo: int, hi: int, short: bool, env: Env)
    requires Kept(s1, s') && Shards(s1, workers, t, 0, lo, hi, short, env)
    ensures Shards(s', workers, t, 0, lo, hi, short, env)
  {
    forall i | lo <= i < hi ensures i in s'.instances && s'.instances[i] == s1.instances[i] { assert i in s1.instances; }
  }

  lemma FirstPiece(s: State, s1: State, s': State, t: Task, env: Env)
    requires TaskEffect(s, s1, t, env) && Kept(s1, s') && Loaded(s1, s')
    ensures Piece(s', s.workers, t, s.nextId, s1.nextId, GateOpen(s, t.id), env)
    ensures var short := GateOpen(s, t.id) && |Slots(s.workers, t.labels)| <= Accepted(env, s.nextId, ShardsOf(t) - 1);
            LeftOver(s', s.nextId, s1.nextId) <==> short
  {
    var short := GateOpen(s, t.id) && |Slots(s.workers, t.labels)| <= Accepted(env, s.nextId, ShardsOf(t) - 1);
    ShardsStay(s1, s', s.workers, t, s.nextId, s1.nextId, short, env);
    NoneSucceeds(s', s.workers, t, s.nextId, s1.nextId, short, env);
    if short { NoRoomStays(s1, s', t.labels); }
  }

  /** Only the loads of the workers differ, so the same ones fit. */
  lemma SameFits(s: State, s1: State, s': State, t: Task, lo: int, hi: int, open: bool, env: Env)
    requires Loaded(s, s1) && Piece(s', s1.workers, t, lo, hi, open, env)
    ensures Piece(s', s.workers, t, lo, hi, open, env)
  {
    var short := LeftOver(s', lo, hi);
    forall i | lo <= i < (if short then hi - 1 else hi)
      ensures i in s'.instances && WasSent(s'.instances[i], s.workers, t, env)
    {
      assert WasSent(s'.instances[i], s1.workers, t, env);
      var w := s'.instances[i].worker.value;
      FitsAtAnyLoad(s.workers[w], s1.workers[w].load, t.labels);
    }
  }

  lemma FirstTime(s: State, s1: State, s': State, tasks: seq<Task>, env: Env)
    requires tasks != [] && TaskEffect(s, s1, tasks[0], env) && Kept(s1, s') && Loaded(s1, s')
    requires tasks[0].id in s.tasks && s'.tasks.Keys == s1.tasks.Keys
    requires forall d :: d in s1.tasks && !Handles(tasks[1..], d) ==> s'.tasks[d] == s1.tasks[d]
    ensures TimeSet(s, s', tasks, 0, s.nextId, s1.nextId, env)
  {
    var t := tasks[0];
    FirstPiece(s, s1, s', t, env);
    if IsLast(tasks, 0) {
      assert !Handles(tasks[1..], t.id) by {
        forall k | 0 <= k < |tasks[1..]| ensures tasks[1..][k].id != t.id { assert tasks[1..][k] == tasks[k + 1]; }
      }
    }
  }

  lemma LaterTime(s: State, s1: State, s': State, tasks: seq<Task>, k: nat, lo: int, hi: int, env: Env)
    requires k + 1 < |tasks| && TaskEffect(s, s1, tasks[0], env) && tasks[0].id in s.tasks
    requires TimeSet(s1, s', tasks[1..], k, lo, hi, env)
    requires GateOpen(s1, tasks[k + 1].id) == GateOpen(s, tasks[k + 1].id)
    ensures TimeSet(s, s', tasks, k + 1, lo, hi, env)
  {
    var rest := tasks[1..];
    assert rest[k] == tasks[k + 1];
    if IsLast(tasks, k + 1) {
      forall j | k < j < |rest| ensures rest[j].id != rest[k].id { assert rest[j] == tasks[j + 1]; }
      assert IsLast(rest, k);
    }
    if IsFirst(tasks, k + 1) {
      assert tasks[0].id != tasks[k + 1].id;
      forall j | 0 <= j < k ensures rest[j].id != rest[k].id { assert rest[j] == tasks[j + 1]; }
      assert IsFirst(rest, k);
    }
  }

  lemma OthersKept(s: State, s1: State, s': State, tasks: seq<Task>, env: Env, d: int)
    requires tasks != [] && TaskEffect(s, s1, tasks[0], env) && d in s.tasks && !Handles(tasks, d)
    requires d in s1.tasks && d in s'.tasks && (!Handles(tasks[1..], d) ==> s'.tasks[d] == s1.tasks[d])
    ensures s'.tasks[d] == s.tasks[d]
  {
    assert tasks[0].id != d;
    forall k | 0 <= k < |tasks[1..]| ensures tasks[1..][k].id != d { assert tasks[1..][k] == tasks[k + 1]; }
  }

  lemma ScanStep(s: State, s1: State, s': State, tasks: seq<Task>, later: seq<int>, env: Env)
    requires tasks != [] && TaskEffect(s, s1, tasks[0], env) && tasks[0].id in s.tasks
    requires InstancesOk(s1.instances, s1.nextId) && ScanEffect(s1, s', tasks[1..], later, env)
    ensures ScanEffect(s, s', tasks, [s.nextId] + later, env)
  {
    var bounds, rest := [s.nextId] + later, tasks[1..];
    KeptTwice(s, s1, s');
    LoadedTwice(s, s1, s');
    FirstPiece(s, s1, s', tasks[0], env);
    FirstTime(s, s1, s', tasks, env);
    forall k | 0 <= k < |tasks|
      ensures Piece(s', s.workers, tasks[k], bounds[k], bounds[k + 1], GateOpen(s, tasks[k].id), env)
      ensures TimeSet(s, s', tasks, k, bounds[k], bounds[k + 1], env)
    {
      if k > 0 { LaterPiece(s, s1, s', tasks, later, k - 1, env); }
    }
    forall d | d in s.tasks && !Handles(tasks, d) ensures s'.tasks[d] == s.tasks[d] { OthersKept(s, s1, s', tasks, env, d); }
  }

  lemma LaterPiece(s: State, s1: State, s': State, tasks: seq<Task>, later: seq<int>, k: nat, env: Env)
    requires k + 1 < |tasks| && TaskEffect(s, s1, tasks[0], env) && tasks[0].id in s.tasks
    requires |later| == |tasks|
    requires Piece(s', s1.workers, tasks[1..][k], later[k], later[k + 1], GateOpen(s1, tasks[1..][k].id), env)
    requires TimeSet(s1, s', tasks[1..], k, later[k], later[k + 1], env)
    ensures Piece(s', s.workers, tasks[k + 1], later[k], later[k + 1], GateOpen(s, tasks[k + 1].id), env)
    ensures TimeSet(s, s', tasks, k + 1, later[k], later[k + 1], env)
  {
    var t, lo, hi := tasks[k + 1], later[k], later[k + 1];
    assert tasks[1..][k] == t;
    GateThrough(s, s1, tasks[0], t.id, env);
    SameFits(s, s1, s', t, lo, hi, GateOpen(s, t.id), env);
    LaterTime(s, s1, s', tasks, k, lo, hi, env);
  }

  lemma GateThrough(s: State, s1: State, t: Task, id: int, env: Env)
    requires TaskEffect(s, s1, t, env)
    ensures GateOpen(s1, id) == GateOpen(s, id) && Loaded(s, s1)
  {
    var short := GateOpen(s, t.id) && |Slots(s.workers, t.labels)| <= Accepted(env, s.nextId, ShardsOf(t) - 1);
    NoneSucceeds(s1, s.workers, t, s.nextId, s1.nextId, short, env);
    GateStays(s, s1, id);
  }

  lemma NothingHandled(s: State, env: Env)
    ensures ScanEffect(s, s, [], [s.nextId], env)
  {
    NothingPlaced(s);
  }

  lemma {:induction false} TasksAre(s: State, tasks: seq<Task>, env: Env) returns (s': State, bounds: seq<int>)
    requires Sound(s) && forall i :: 0 <= i < |tasks| ==> CopyOf(s, tasks[i])
    ensures s' == HandleTasks(s, tasks, env) && ScanEffect(s, s', tasks, bounds, env)
    decreases |tasks|
  {
    if tasks == [] {
      s', bounds := s, [s.nextId];
      NothingHandled(s, env);
    } else {
      var s1 := HandleTask(s, tasks[0], env);
      TaskIs(s, tasks[0], env);
      var ms := HandleTaskMoves(s, tasks[0], env);
      PathKeeps(s, ms);
      var end, later := TasksAre(s1, tasks[1..], env);
      ScanStep(s, s1, end, tasks, later, env);
      s', bounds := end, [s.nextId] + later;
    }
  }

  /** A refused scan does nothing; an allowed one handles the tasks it lists, each read at
      its start. */
  ghost predicate Scanned(s: State, s': State, input: ScanInput, env: Env)
    requires DueListing(s, env.now, input.due)
  {
    if !ScanAllowed(s, input.pressure) then s' == s
    else exists bounds :: ScanEffect(s, s', Load(s.tasks, ScanIds(s, input, env.now)), bounds, env)
  }

  lemma ScanHolds(s: State, s': State, input: ScanInput, env: Env)
    requires Sound(s) && DueListing(s, env.now, input.due) && s' == TriggerScan(s, input, env)
    ensures Scanned(s, s', input, env)
  {
    ScanIs(s, input, env);
  }

  lemma ScanIs(s: State, input: ScanInput, env: Env)
    requires Sound(s) && DueListing(s, env.now, input.due)
    ensures Scanned(s, TriggerScan(s, input, env), input, env)
  {
    if ScanAllowed(s, input.pressure) {
      var ids := ScanIds(s, input, env.now);
      var tasks := Load(s.tasks, ids);
      forall i | 0 <= i < |tasks| ensures CopyOf(s, tasks[i]) { assert s.tasks[ids[i]].id == ids[i]; }
      var s', bounds := TasksAre(s, tasks, env);
    }
  }
}
