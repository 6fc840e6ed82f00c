/** The scheduler's shared state and, as functions on it, the handlers that
    change it: the trigger scan (internal/scheduler/trigger/loop.go), the retry
    scan (internal/scheduler/retry/loop.go), worker routing
    (internal/scheduler/route/router.go) and the runtime service
    (internal/api/service/task_runtime_service.go), over the in-memory
    repositories (internal/repo/teststore).

    Instants are nanoseconds since the zero time, so 0 is "unset". One handler
    call is one atomic step. The clock and the dispatch transport are inputs. */
module RuntimeModel {
  import opened Common
  import opened Backpressure
  import Cron
  import CronParser
  import CronSchedule
  import Text

  type WorkerId = int

  const SECOND := 1_000_000_000
  const SCAN_LIMIT := 100

  datatype Status =
    | Pending | Dispatched | Running | Success | Failed | Timeout | Cancelled | RetryWaiting
    | Other(text: string)

  predicate IsTerminal(st: Status) { st.Success? || st.Failed? || st.Timeout? || st.Cancelled? }

  predicate IsRetryable(st: Status) { st.Failed? || st.Timeout? }

  predicate InFlight(st: Status) { st.Dispatched? || st.Running? }

  /** The statuses a worker puts in a report. */
  predicate WorkerSends(st: Status) { st.Running? || st.Success? || st.Failed? || st.Timeout? }

  /** task-<task>-<nanos>, task-<task>-retry-<count>-<nanos>, or anything else. */
  datatype ScheduleId =
    | NoId
    | TriggerId(task: int, nanos: int)
    | RetryId(task: int, count: int, nanos: int)
    | Foreign(text: string)

  datatype RetryPolicy = ExponentialBackoff | FixedInterval | ErrorCode | OtherPolicy(text: string)

  datatype Strategy = RoundRobin | LeastLoadedFirst

  datatype Task = Task(
    id: int, enabled: bool, cronExpr: string, maxRetry: int, retryPolicy: RetryPolicy,
    retryOnErrors: string, retryInterval: int, retryWindow: int,
    strategy: Strategy, labels: map<string, string>, next: int, totalShards: int)

  datatype Instance = Instance(
    id: int, task: int, schedule: ScheduleId, shardNo: int, shardTotal: int,
    triggered: int, dispatched: int, worker: Option<WorkerId>, status: Status,
    retryCount: nat, errorCode: string, nextRetry: int)

  datatype Worker = Worker(id: WorkerId, online: bool, labels: map<string, string>, max: int, load: int)

  /** The repositories, the router's counter and two history variables:
      retryOf maps a retry to the instance it retries, and leaked holds the
      instances that were cancelled while they occupied a worker. */
  datatype State = State(
    tasks: map<int, Task>, deps: seq<(int, int)>,
    instances: map<int, Instance>, bySchedule: map<ScheduleId, int>, nextId: int,
    workers: map<WorkerId, Worker>, rrCounter: nat,
    retryOf: map<int, int>, leaked: set<int>)

  /** What a handler reads from outside: the current instant, the clock reading
      that goes into the schedule ID of each new instance, and whether the
      transport accepts the dispatch of each instance. */
  datatype Env = Env(now: int, stamp: int -> int, accepts: int -> bool)

  datatype Report = Report(schedule: ScheduleId, worker: Option<WorkerId>, status: Status, errorCode: string)

  // ---------------------------------------------------------------- repositories

  function Create(s: State, inst: Instance): State {
    s.(instances := s.instances[s.nextId := inst.(id := s.nextId)],
       bySchedule := s.bySchedule[inst.schedule := s.nextId],
       nextId := s.nextId + 1)
  }

  function Resolve(s: State, sid: ScheduleId): Option<Instance> {
    if sid in s.bySchedule && s.bySchedule[sid] in s.instances
    then Some(s.instances[s.bySchedule[sid]]) else None
  }

  function SetStatus(s: State, id: int, st: Status): State {
    if id in s.instances then s.(instances := s.instances[id := s.instances[id].(status := st)]) else s
  }

  function SetDispatch(s: State, id: int, w: WorkerId, now: int): State {
    if id in s.instances
    then s.(instances := s.instances[id := s.instances[id].(worker := Some(w), status := Dispatched, dispatched := now)])
    else s
  }

  function SetResult(s: State, sid: ScheduleId, st: Status, code: string): State {
    if Resolve(s, sid).Some?
    then
      var inst := Resolve(s, sid).value;
      s.(instances := s.instances[s.bySchedule[sid] := inst.(status := st, errorCode := code)])
    else s
  }

  function Upsert(s: State, w: Worker): State { s.(workers := s.workers[w.id := w]) }

  function UpdateTask(s: State, t: Task): State {
    if t.id in s.tasks then s.(tasks := s.tasks[t.id := t]) else s
  }

  function Upstream(deps: seq<(int, int)>, task: int): seq<int> {
    if deps == [] then []
    else if deps[0].0 == task then [deps[0].1] + Upstream(deps[1..], task)
    else Upstream(deps[1..], task)
  }

  function Downstream(deps: seq<(int, int)>, task: int): seq<int> {
    if deps == [] then []
    else if deps[0].1 == task then [deps[0].0] + Downstream(deps[1..], task)
    else Downstream(deps[1..], task)
  }

  function WithStatus(s: State, st: Status): set<int> {
    set i | i in s.instances && s.instances[i].status == st
  }

  /** Instance IDs grow with creation time, so the lowest ID is the oldest. */
  function OldestSuccess(s: State): Option<int> {
    var ids := WithStatus(s, Success);
    if ids == {} then None else Some(Least(ids))
  }

  function DueRetries(s: State, cutoff: int): (r: seq<int>)
    ensures forall i :: 0 <= i < |r| ==> r[i] in s.instances && s.instances[r[i]].status == RetryWaiting
    ensures forall i, j :: 0 <= i < j < |r| ==> r[i] < r[j]
  {
    var all := Ascending(set i | i in s.instances && s.instances[i].status == RetryWaiting
                                 && (s.instances[i].nextRetry == 0 || s.instances[i].nextRetry <= cutoff));
    assert forall i :: 0 <= i < |all| ==> all[i] in all;
    Take(all, SCAN_LIMIT)
  }

  predicate IsDue(t: Task, now: int) { t.enabled && t.next != 0 && t.next <= now }

  /** ids is a possible answer of ListDueTasks(100): the due tasks by increasing
      trigger time, cut after the first hundred. Ties come in any order. */
  predicate DueListing(s: State, now: int, ids: seq<int>) {
    && |ids| <= SCAN_LIMIT
    && (forall i :: 0 <= i < |ids| ==> ids[i] in s.tasks && IsDue(s.tasks[ids[i]], now))
    && (forall i, j :: 0 <= i < j < |ids| ==> ids[i] != ids[j] && s.tasks[ids[i]].next <= s.tasks[ids[j]].next)
    && (forall t :: t in s.tasks && IsDue(s.tasks[t], now) && t !in ids ==>
          |ids| == SCAN_LIMIT && forall i :: 0 <= i < |ids| ==> s.tasks[ids[i]].next <= s.tasks[t].next)
  }

  // --------------------------------------------------------------------- routing

  predicate HasCapacity(w: Worker) { w.online && w.load < w.max }

  predicate MatchLabels(have: map<string, string>, selector: map<string, string>) {
    forall k :: k in selector ==> k in have && have[k] == selector[k]
  }

  /** The online workers with spare capacity that carry all the task's labels. */
  function Candidates(workers: map<WorkerId, Worker>, selector: map<string, string>): set<WorkerId> {
    set w | w in workers && HasCapacity(workers[w]) && MatchLabels(workers[w].labels, selector)
  }

  /** The workers among ids whose load no other of them undercuts. */
  function LeastLoaded(workers: map<WorkerId, Worker>, ids: set<WorkerId>): (r: set<WorkerId>)
    requires ids <= workers.Keys
    ensures r <= ids && (ids != {} ==> r != {})
  {
    var r := set w | w in ids && forall v :: v in ids ==> workers[w].load <= workers[v].load;
    assert ids != {} ==> r != {} by {
      if ids != {} {
        LeastLoadExists(workers, ids);
        var w :| w in ids && forall v :: v in ids ==> workers[w].load <= workers[v].load;
        assert w in r;
      }
    }
    r
  }

  lemma {:induction false} LeastLoadExists(workers: map<WorkerId, Worker>, ids: set<WorkerId>)
    requires ids <= workers.Keys && ids != {}
    ensures exists w :: w in ids && forall v :: v in ids ==> workers[w].load <= workers[v].load
  {
    var e := Any(ids);
    var rest := ids - {e};
    if rest == {} {
      assert ids == {e};
    } else {
      LeastLoadExists(workers, rest);
      var m :| m in rest && forall v :: v in rest ==> workers[m].load <= workers[v].load;
      var n := if workers[e].load < workers[m].load then e else m;
      assert forall v :: v in ids ==> v == e || v in rest;
      assert n in ids && forall v :: v in ids ==> workers[n].load <= workers[v].load;
    }
  }

  /** The ID whose turn it is when the counter stands at c. */
  function InTurn(ids: set<WorkerId>, c: nat): (w: WorkerId)
    requires ids != {}
    ensures w in ids
  {
    var list := Ascending(ids);
    assert |list| > 0 by { assert Any(ids) in list; }
    var w := list[c % |list|];
    assert w in list;
    w
  }

  /** Round robin walks the candidates in ID order; otherwise the candidate with
      the least load is taken, the lowest ID among equals. */
  function Choice(s: State, t: Task): (w: WorkerId)
    requires Candidates(s.workers, t.labels) != {}
    ensures w in Candidates(s.workers, t.labels)
  {
    var ids := Candidates(s.workers, t.labels);
    if t.strategy.RoundRobin? then InTurn(ids, s.rrCounter) else Least(LeastLoaded(s.workers, ids))
  }

  /** Router.Pick: chooses an eligible worker and reserves one unit of its capacity. */
  function Pick(s: State, t: Task): (State, Option<Worker>) {
    if Candidates(s.workers, t.labels) == {} then (s, None)
    else
      var chosen := Choice(s, t);
      var s1 := if t.strategy.RoundRobin? then s.(rrCounter := s.rrCounter + 1) else s;
      var w := s.workers[chosen].(load := s.workers[chosen].load + 1);
      (Upsert(s1, w), Some(w))
  }

  /** Router.Release: writes back the given copy with one unit less. */
  function Release(s: State, w: Worker): State {
    Upsert(s, w.(load := if w.load > 0 then w.load - 1 else w.load))
  }

  // ---------------------------------------------------------------- trigger scan

  datatype Outcome = NoWorker | Refused | Sent

  /** The dependency gate: it compares every upstream task with the task of the
      single oldest successful instance. */
  predicate GateOpen(s: State, task: int) {
    var ups := Upstream(s.deps, task);
    ups == [] || (OldestSuccess(s).Some? && forall d :: d in ups ==> s.instances[OldestSuccess(s).value].task == d)
  }

  function ShardCount(t: Task): nat { if t.totalShards <= 0 then 1 else t.totalShards }

  function RootInstance(s: State, t: Task, shard: int, env: Env): Instance {
    Instance(0, t.id, TriggerId(t.id, env.stamp(s.nextId)), shard, t.totalShards,
             env.now, 0, None, Pending, 0, "", 0)
  }

  /** One turn of the shard loop. */
  function TriggerShard(s: State, t: Task, shard: int, env: Env): (State, Outcome) {
    var id := s.nextId;
    var root := RootInstance(s, t, shard, env);
    var s1 := Create(s, root);
    var (s2, picked) := Pick(s1, t);
    if picked.None? then (s2, NoWorker)
    else
      var s3 := SetDispatch(s2, id, picked.value.id, env.now);
      if env.accepts(id) then (s3, Sent)
      else (Release(SetResult(s3, root.schedule, Failed, "dispatch_failed"), picked.value), Refused)
  }

  /** The shard loop from the given shard on; it stops at the first shard for
      which no worker is available. */
  function TriggerShards(s: State, t: Task, shard: nat, env: Env): (State, Outcome)
    decreases ShardCount(t) - shard
  {
    if shard >= ShardCount(t) then (s, Sent)
    else
      var (s1, out) := TriggerShard(s, t, shard, env);
      if out.NoWorker? then (s1, NoWorker) else TriggerShards(s1, t, shard + 1, env)
  }

  function NextTrigger(t: Task, now: int): Option<int> {
    if t.cronExpr == "" then Some(now + 365 * 24 * 3600 * SECOND) else Cron.NextRun(now, t.cronExpr)
  }

  /** A handled task is not due again at once: its next trigger lies after now and,
      for a cron task, is the first run its schedule admits. */
  lemma NextTriggerIsFirst(t: Task, now: int, s: CronSchedule.Schedule)
    requires NextTrigger(t, now).Some? && (t.cronExpr != "" ==> CronParser.ScheduleOf(t.cronExpr) == Some(s))
    ensures NextTrigger(t, now).value > now
    ensures t.cronExpr != "" ==> Cron.IsFirstRun(NextTrigger(t, now), s, now)
  {
    if t.cronExpr != "" { Cron.NextRunIsFirst(now, t.cronExpr, s); }
  }

  function HandleTask(s: State, t: Task, env: Env): State {
    if !GateOpen(s, t.id) then UpdateTask(s, t.(next := env.now + 5 * SECOND))
    else
      var (s1, out) := TriggerShards(s, t, 0, env);
      if out.NoWorker? then UpdateTask(s1, t.(next := env.now + 10 * SECOND))
      else match NextTrigger(t, env.now)
        case Some(next) => UpdateTask(s1, t.(next := next))
        case None => s1
  }

  function HandleTasks(s: State, tasks: seq<Task>, env: Env): State
    decreases |tasks|
  {
    if tasks == [] then s else HandleTasks(HandleTask(s, tasks[0], env), tasks[1..], env)
  }

  /** What a scan finds outside the repositories: the backpressure thresholds (if
      any), the task IDs the cache reports as due (none when it is off), the answer
      of ListDueTasks and how many tasks are handled before a worker-load report
      turns the controller red. */
  datatype ScanInput = ScanInput(pressure: Option<Config>, cached: seq<int>, due: seq<int>, cut: nat)

  function Load(tasks: map<int, Task>, ids: seq<int>): (r: seq<Task>)
    requires forall i :: 0 <= i < |ids| ==> ids[i] in tasks
    ensures |r| == |ids| && forall i :: 0 <= i < |ids| ==> r[i] == tasks[ids[i]]
  {
    seq(|ids|, i requires 0 <= i < |ids| => tasks[ids[i]])
  }

  function CachedDue(s: State, ids: seq<int>, now: int): (r: seq<int>)
    ensures forall i :: 0 <= i < |r| ==> r[i] in s.tasks
  {
    if ids == [] then []
    else
      var rest := CachedDue(s, ids[1..], now);
      if ids[0] in s.tasks && s.tasks[ids[0]].enabled && s.tasks[ids[0]].next <= now then [ids[0]] + rest else rest
  }

  /** The tasks a scan handles, read once at its start. */
  function ScanIds(s: State, input: ScanInput, now: int): (r: seq<int>)
    requires DueListing(s, now, input.due)
    ensures |r| <= SCAN_LIMIT && forall i :: 0 <= i < |r| ==> r[i] in s.tasks
  {
    var cached := Take(CachedDue(s, input.cached, now), SCAN_LIMIT);
    var all := if cached != [] then cached else input.due;
    if input.pressure.Some? then Take(all, input.cut) else all
  }

  predicate ScanAllowed(s: State, pressure: Option<Config>) {
    pressure.None? || PendingPressure(Normalized(pressure.value), |WithStatus(s, Pending)|) != Red
  }

  function TriggerScan(s: State, input: ScanInput, env: Env): State
    requires DueListing(s, env.now, input.due)
  {
    if !ScanAllowed(s, input.pressure) then s
    else
      HandleTasks(s, Load(s.tasks, ScanIds(s, input, env.now)), env)
  }

  // ------------------------------------------------------------------ retry scan

  /** Routing and dispatching an existing retry instance. A refused dispatch puts
      it back to waiting and gives the capacity back. */
  function Redispatch(s: State, id: int, t: Task, env: Env): (State, Outcome) {
    var (s1, picked) := Pick(s, t);
    if picked.None? then (s1, NoWorker)
    else
      var s2 := SetDispatch(s1, id, picked.value.id, env.now);
      if env.accepts(id) then (s2, Sent)
      else (Release(SetStatus(s2, id, RetryWaiting), picked.value), Refused)
  }

  /** The scan works on copies read at its start and ends at the first instance
      for which no worker is available. */
  function RetryAll(s: State, due: seq<Instance>, env: Env): State
    decreases |due|
  {
    if due == [] then s
    else if due[0].task !in s.tasks then RetryAll(s, due[1..], env)
    else
      var (s1, out) := Redispatch(s, due[0].id, s.tasks[due[0].task], env);
      if out.NoWorker? then s1 else RetryAll(s1, due[1..], env)
  }

  function CopyInstances(instances: map<int, Instance>, ids: seq<int>): (r: seq<Instance>)
    requires forall i :: 0 <= i < |ids| ==> ids[i] in instances
    ensures |r| == |ids| && forall i :: 0 <= i < |r| ==> r[i] == instances[ids[i]]
  {
    seq(|ids|, i requires 0 <= i < |ids| => instances[ids[i]])
  }

  function DueInstances(s: State, now: int): (r: seq<Instance>)
    ensures |r| == |DueRetries(s, now)|
    ensures forall i :: 0 <= i < |r| ==> DueRetries(s, now)[i] in s.instances && r[i] == s.instances[DueRetries(s, now)[i]]
  {
    CopyInstances(s.instances, DueRetries(s, now))
  }

  function RetryScan(s: State, env: Env): State { RetryAll(s, DueInstances(s, env.now), env) }

  // -------------------------------------------------------------- runtime service

  /** retryDelay in nanoseconds, with the source's 64-bit shift and product. */
  function RetryDelay(policy: RetryPolicy, retryCount: nat, interval: int): int {
    match policy
    case ExponentialBackoff =>
      var d := Wrap64(Wrap64(Pow2(retryCount)) * SECOND);
      if d > 600 * SECOND then 600 * SECOND else d
    case FixedInterval => if interval > 0 then Wrap64(interval * SECOND) else 0
    case _ => 0
  }

  predicate IsCode(text: string, code: string) { Text.TrimSpace(text) == code }

  predicate ListsError(codes: seq<string>, code: string) {
    exists i :: 0 <= i < |codes| && IsCode(codes[i], code)
  }

  predicate RetriesError(t: Task, code: string) {
    t.retryPolicy != ErrorCode || t.retryOnErrors == "" || ListsError(Text.Split(t.retryOnErrors, ','), code)
  }

  predicate WindowExceeded(inst: Instance, window: int, now: int) {
    window > 0 && now - inst.triggered > Wrap64(window * SECOND)
  }

  function RetryInstance(s: State, inst: Instance, t: Task, st: Status, due: int, env: Env): Instance {
    Instance(0, t.id, RetryId(t.id, inst.retryCount + 1, env.stamp(s.nextId)), inst.shardNo, inst.shardTotal,
             env.now, 0, None, st, inst.retryCount + 1, "", due)
  }

  /** Create, with the history variable that links the retry to its predecessor. */
  function CreateRetry(s: State, parent: int, inst: Instance): State {
    Create(s, inst).(retryOf := s.retryOf[s.nextId := parent])
  }

  /** The second component is false when the handler returns an error. */
  function RetryIfNeeded(s: State, inst: Instance, r: Report, env: Env): (State, bool) {
    if !IsRetryable(r.status) then (s, true)
    else if inst.task !in s.tasks then (s, false)
    else
      var t := s.tasks[inst.task];
      if inst.retryCount >= t.maxRetry || !RetriesError(t, r.errorCode) || WindowExceeded(inst, t.retryWindow, env.now)
      then (s, true)
      else
        var delay := RetryDelay(t.retryPolicy, inst.retryCount + 1, t.retryInterval);
        if delay > 0 then (CreateRetry(s, inst.id, RetryInstance(s, inst, t, RetryWaiting, env.now + delay, env)), true)
        else
          var id := s.nextId;
          var s1 := CreateRetry(s, inst.id, RetryInstance(s, inst, t, Pending, 0, env));
          var (s2, out) := Redispatch(s1, id, t, env);
          if out.NoWorker? then (SetStatus(s2, id, RetryWaiting), true) else (s2, true)
  }

  /** fireDownstream: every enabled task that depends on the finished one is due now. */
  function FireDownstream(s: State, ids: seq<int>, now: int): State
    decreases |ids|
  {
    if ids == [] then s
    else if ids[0] in s.tasks && s.tasks[ids[0]].enabled
    then FireDownstream(UpdateTask(s, s.tasks[ids[0]].(next := now)), ids[1..], now)
    else FireDownstream(s, ids[1..], now)
  }

  function ReleaseReported(s: State, w: Option<WorkerId>): State {
    if w.None? || w.value !in s.workers then s else Release(s, s.workers[w.value])
  }

  /** ReportStatus; the second component is false when the handler returns an error. */
  function ReportStatus(s: State, r: Report, env: Env): (State, bool) {
    if r.schedule.NoId? || Resolve(s, r.schedule).None? then (s, false)
    else
      var inst := Resolve(s, r.schedule).value;
      if IsTerminal(inst.status) then (s, true)
      else
        var s1 := SetResult(s, r.schedule, r.status, r.errorCode);
        if r.status.Running? then (s1, true)
        else
          var s2 := if r.status.Success? then FireDownstream(s1, Downstream(s1.deps, inst.task), env.now) else s1;
          RetryIfNeeded(ReleaseReported(s2, r.worker), inst, r, env)
  }

  /** CancelInstance; load is not given back, which the leaked history records. */
  function CancelInstance(s: State, sid: ScheduleId): (State, bool) {
    if Resolve(s, sid).None? then (s, false)
    else
      var inst := Resolve(s, sid).value;
      if IsTerminal(inst.status) then (s, false)
      else
        var s1 := SetResult(s, sid, Cancelled, "cancelled");
        (if InFlight(inst.status) then s1.(leaked := s1.leaked + {s.bySchedule[sid]}) else s1, true)
  }

  // ------------------------------------------------------------------------ runs

  datatype Event =
    | Trigger(input: ScanInput, env: Env)
    | Retry(env: Env)
    | Reported(report: Report, env: Env)
    | CancelRequest(schedule: ScheduleId)

  ghost predicate Possible(s: State, e: Event) {
    e.Trigger? ==> DueListing(s, e.env.now, e.input.due)
  }

  ghost function Step(s: State, e: Event): State
    requires Possible(s, e)
  {
    match e
    case Trigger(input, env) => TriggerScan(s, input, env)
    case Retry(env) => RetryScan(s, env)
    case Reported(r, env) => ReportStatus(s, r, env).0
    case CancelRequest(sid) => CancelInstance(s, sid).0
  }

  /** A run: every event is possible in the state it finds. */
  ghost predicate IsRun(s: State, events: seq<Event>)
    decreases |events|
  {
    events == [] || (Possible(s, events[0]) && IsRun(Step(s, events[0]), events[1..]))
  }

  ghost function Run(s: State, events: seq<Event>): State
    requires IsRun(s, events)
    decreases |events|
  {
    if events == [] then s else Run(Step(s, events[0]), events[1..])
  }
}
