/** Runs of the scheduler: what holds after any sequence of events. */
module Runs {
  import opened Common
  import opened RuntimeModel
  import opened Moves
  import opened Handlers

  lemma EventMoves(s: State, e: Event) returns (ms: seq<Move>)
    requires Sound(s) && Possible(s, e)
    ensures Leads(s, ms, Step(s, e))
    ensures e.Trigger? || e.Retry? ==> Quiet(ms)
    ensures e.Reported? && ms != [] ==> Effective(s, e.report) && ms[0] == SettleMove(s, e.report) && Quiet(ms[1..])
    ensures e.CancelRequest? && ms != [] ==> e.schedule in s.bySchedule && ms == [Drop(s.bySchedule[e.schedule])]
  {
    match e
    case Trigger(input, env) => ms := TriggerScanMoves(s, input, env);
    case Retry(env) => ms := RetryScanMoves(s, env);
    case Reported(r, env) => ms := ReportMoves(s, r, env);
    case CancelRequest(sid) => ms := CancelMoves(s, sid);
  }

  lemma StepKeeps(s: State, e: Event)
    requires Sound(s) && Possible(s, e)
    ensures Sound(Step(s, e)) && Evolves(s, Step(s, e))
  {
    var ms := EventMoves(s, e);
    PathKeeps(s, ms);
  }

  /** Every run keeps the retry links and the indexes sound, and never changes an
      instance that has reached a terminal status. */
  lemma {:induction false} RunKeeps(s: State, events: seq<Event>)
    requires Sound(s) && IsRun(s, events)
    ensures Sound(Run(s, events)) && Evolves(s, Run(s, events))
    decreases |events|
  {
    if events != [] {
      StepKeeps(s, events[0]);
      RunKeeps(Step(s, events[0]), events[1..]);
      EvolvesTransitive(s, Step(s, events[0]), Run(s, events));
    }
  }

  lemma {:induction false} RunAppend(s: State, events: seq<Event>, e: Event)
    requires IsRun(s, events) && Possible(Run(s, events), e)
    ensures IsRun(s, events + [e]) && Run(s, events + [e]) == Step(Run(s, events), e)
    decreases |events|
  {
    if events == [] {
      assert events + [e] == [e] && [e][1..] == [];
    } else {
      assert (events + [e])[1..] == events[1..] + [e];
      RunAppend(Step(s, events[0]), events[1..], e);
    }
  }

  /** A scheduler that has created no instance and assigned no load. */
  ghost predicate Fresh(s: State) {
    && s.instances == map[] && s.bySchedule == map[] && s.retryOf == map[] && s.leaked == {}
    && TasksOk(s.tasks)
    && forall w :: w in s.workers ==> s.workers[w].id == w && s.workers[w].load == 0
  }

  lemma FreshIsSound(s: State)
    requires Fresh(s)
    ensures Sound(s)
  {}

  // ------------------------------------------------------------------ schedule IDs

  ghost predicate Indexed(s: State) { forall i :: i in s.instances ==> s.instances[i].schedule in s.bySchedule }

  /** The clock has given no two instances the same schedule ID. */
  ghost predicate DistinctIds(s: State) {
    forall i, j :: i in s.instances && j in s.instances && s.instances[i].schedule == s.instances[j].schedule ==> i == j
  }

  /** Every schedule ID leads to its one instance. */
  ghost predicate Traceable(s: State) { Sound(s) && Indexed(s) && DistinctIds(s) }

  ghost predicate Settled(s: State, sid: ScheduleId) {
    Resolve(s, sid).Some? && IsTerminal(Resolve(s, sid).value.status)
  }

  lemma MoveKeepsIndexed(s: State, m: Move)
    requires WellFormed(s) && Enabled(s, m) && Indexed(s)
    ensures Indexed(Apply(s, m))
  {}

  lemma {:induction false} PathKeepsIndexed(s: State, ms: seq<Move>)
    requires Sound(s) && Path(s, ms) && Indexed(s)
    ensures Indexed(ApplyAll(s, ms))
    decreases |ms|
  {
    if ms != [] {
      MoveKeepsWellFormed(s, ms[0]);
      MoveKeepsLinks(s, ms[0]);
      MoveKeepsIndexed(s, ms[0]);
      PathKeepsIndexed(Apply(s, ms[0]), ms[1..]);
    }
  }

  lemma StepKeepsIndexed(s: State, e: Event)
    requires Sound(s) && Possible(s, e) && Indexed(s)
    ensures Indexed(Step(s, e))
  {
    var ms := EventMoves(s, e);
    PathKeepsIndexed(s, ms);
  }

  lemma IndexIsStable(s: State, s': State, sid: ScheduleId)
    requires Traceable(s) && Traceable(s') && Evolves(s, s') && sid in s.bySchedule
    ensures sid in s'.bySchedule && s'.bySchedule[sid] == s.bySchedule[sid]
  {
    var i := s.bySchedule[sid];
    assert s'.instances[i].schedule == sid;
    assert s'.instances[s'.bySchedule[sid]].schedule == sid;
  }

  lemma SettledStays(s: State, s': State, sid: ScheduleId)
    requires Traceable(s) && Traceable(s') && Evolves(s, s') && Settled(s, sid)
    ensures Settled(s', sid)
  {
    IndexIsStable(s, s', sid);
  }

  /** IDs that are distinct at the end were distinct all along. */
  lemma DistinctBefore(s: State, s': State)
    requires Evolves(s, s') && DistinctIds(s')
    ensures DistinctIds(s)
  {}

  // ----------------------------------------------------------------- retry chains

  /** c lists a root instance and its successive retries. */
  ghost predicate IsChain(s: State, c: seq<int>) {
    && c != [] && c[0] in s.instances && c[0] !in s.retryOf
    && forall k :: 0 < k < |c| ==> c[k] in s.retryOf && s.retryOf[c[k]] == c[k - 1]
  }

  ghost function MaxAttempts(s: State, task: int): int {
    1 + if task in s.tasks && s.tasks[task].maxRetry > 0 then s.tasks[task].maxRetry else 0
  }

  lemma {:induction false} ChainMember(s: State, c: seq<int>, k: nat)
    requires RetryLinks(s) && IsChain(s, c) && k < |c|
    ensures c[k] in s.instances && s.instances[c[k]].retryCount == k
    ensures s.instances[c[k]].task == s.instances[c[0]].task
    ensures k > 0 ==> Link(s, c[k], c[k - 1])
  {
    if k > 0 {
      ChainMember(s, c, k - 1);
      assert Link(s, c[k], s.retryOf[c[k]]);
    }
  }

  /** Attempts count 0, 1, 2, ..., belong to one task, number at most MaxRetry + 1,
      and all but the last have failed or timed out. */
  ghost predicate ProperChain(s: State, c: seq<int>) {
    && c != [] && c[0] in s.instances
    && (forall k :: 0 <= k < |c| ==>
          c[k] in s.instances && s.instances[c[k]].retryCount == k && s.instances[c[k]].task == s.instances[c[0]].task)
    && |c| <= MaxAttempts(s, s.instances[c[0]].task)
    && (forall k :: 0 <= k < |c| - 1 ==> IsRetryable(s.instances[c[k]].status))
  }

  lemma ChainShape(s: State, c: seq<int>)
    requires RetryLinks(s) && IsChain(s, c)
    ensures ProperChain(s, c)
  {
    forall k | 0 <= k < |c|
      ensures c[k] in s.instances && s.instances[c[k]].retryCount == k && s.instances[c[k]].task == s.instances[c[0]].task
      ensures k < |c| - 1 ==> IsRetryable(s.instances[c[k]].status)
    {
      ChainMember(s, c, k);
      if k < |c| - 1 { ChainMember(s, c, k + 1); }
    }
    ChainMember(s, c, |c| - 1);
  }

  /** In every reachable state every retry chain is proper, and so at most its last
      member is still unfinished. */
  lemma RetryChain(s: State, events: seq<Event>, c: seq<int>)
    requires Sound(s) && IsRun(s, events) && IsChain(Run(s, events), c)
    ensures var s' := Run(s, events);
            ProperChain(s', c) && forall k :: 0 <= k < |c| - 1 ==> !Unfinished(s', c[k])
  {
    RunKeeps(s, events);
    ChainShape(Run(s, events), c);
  }

  /** Two chains through the same instance agree up to it, so every instance has
      one history and belongs to one chain. */
  lemma {:induction false} ChainsDoNotBranch(s: State, c: seq<int>, d: seq<int>)
    requires RetryLinks(s) && IsChain(s, c) && IsChain(s, d)
    requires c[|c| - 1] == d[|d| - 1] || c[0] == d[0]
    ensures c <= d || d <= c
    decreases |c| + |d|
  {
    if c[0] == d[0] {
      ForwardUnique(s, c, d, if |c| <= |d| then |c| else |d|);
    } else if |c| > 1 && |d| > 1 {
      ChainsDoNotBranch(s, c[..|c| - 1], d[..|d| - 1]);
    }
  }

  lemma {:induction false} ForwardUnique(s: State, c: seq<int>, d: seq<int>, n: nat)
    requires RetryLinks(s) && IsChain(s, c) && IsChain(s, d) && c[0] == d[0] && 0 < n <= |c| && n <= |d|
    ensures c[..n] == d[..n]
  {
    if n > 1 {
      ForwardUnique(s, c, d, n - 1);
      assert c[..n - 1][n - 2] == c[n - 2] && d[..n - 1][n - 2] == d[n - 2];
      var x, y := c[n - 1], d[n - 1];
      assert x in s.retryOf && y in s.retryOf && s.retryOf[x] == s.retryOf[y];
      assert c[..n] == c[..n - 1] + [c[n - 1]] && d[..n] == d[..n - 1] + [d[n - 1]];
    } else {
      assert c[..1] == [c[0]] && d[..1] == [d[0]];
    }
  }
}
