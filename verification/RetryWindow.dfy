/** The retry window. A task's window is documented as the span of all its retries; the
    code (internal/api/service/task_runtime_service.go) measures each failed attempt
    against the window on its own. */
module RetryWindow {
  import opened Common
  import opened RuntimeModel
  import opened Moves
  import opened Runs

  ghost function CreatedAt(s: State, i: int): int
    requires i in s.instances
  {
    s.instances[i].triggered
  }

  /** The window of a task's retries as a duration, if it has one. */
  function Window(t: Task): int { Wrap64(t.retryWindow * SECOND) }

  ghost predicate Windowed(s: State, c: seq<int>, t: Task) {
    c != [] && c[0] in s.instances && s.instances[c[0]].task in s.tasks && s.tasks[s.instances[c[0]].task] == t
    && t.retryWindow > 0
  }

  /** A retry is created within the window of the attempt it follows. */
  lemma NextAttempt(s: State, c: seq<int>, k: nat, t: Task)
    requires RetryLinks(s) && IsChain(s, c) && Windowed(s, c, t) && k + 1 < |c|
    ensures c[k] in s.instances && c[k + 1] in s.instances && CreatedAt(s, c[k + 1]) - CreatedAt(s, c[k]) <= Window(t)
  {
    ChainMember(s, c, k);
    ChainMember(s, c, k + 1);
  }

  /** So the k-th retry comes at most k windows after the first attempt. */
  lemma {:induction false} AttemptTimes(s: State, c: seq<int>, k: nat, t: Task)
    requires RetryLinks(s) && IsChain(s, c) && Windowed(s, c, t) && k < |c|
    ensures c[k] in s.instances && CreatedAt(s, c[k]) - CreatedAt(s, c[0]) <= k * Window(t)
  {
    if k > 0 {
      AttemptTimes(s, c, k - 1, t);
      NextAttempt(s, c, k - 1, t);
      assert k * Window(t) == (k - 1) * Window(t) + Window(t);
    }
  }

  /** On every run the attempts of a chain span at most MaxRetry windows. */
  lemma ChainSpan(s: State, events: seq<Event>, c: seq<int>, k: nat, t: Task)
    requires Sound(s) && IsRun(s, events)
    requires var s' := Run(s, events); IsChain(s', c) && Windowed(s', c, t) && k < |c|
    ensures var s' := Run(s, events);
            && c[k] in s'.instances && (k > 0 ==> k <= t.maxRetry)
            && CreatedAt(s', c[k]) - CreatedAt(s', c[0]) <= k * Window(t)
  {
    RunKeeps(s, events);
    RetryChain(s, events, c);
    AttemptTimes(Run(s, events), c, k, t);
  }

  /** The documented meaning: with these settings no run creates an attempt later than one
      window after the first. */
  ghost predicate WindowIsTotal(maxRetry: int, window: int) {
    forall s, events, c, k: nat, t ::
      Fresh(s) && IsRun(s, events) && IsChain(Run(s, events), c) && Windowed(Run(s, events), c, t) && k < |c|
      && t.maxRetry == maxRetry && t.retryWindow == window && c[k] in Run(s, events).instances ==>
        CreatedAt(Run(s, events), c[k]) - CreatedAt(Run(s, events), c[0]) <= window * SECOND
  }

  /** It holds if there is at most one retry. */
  lemma OneRetryIsWithin(maxRetry: int, window: int)
    requires maxRetry <= 1 && 0 < window && window * SECOND <= MAX_INT64
    ensures WindowIsTotal(maxRetry, window)
  {
    forall s, events, c, k: nat, t |
      Fresh(s) && IsRun(s, events) && IsChain(Run(s, events), c) && Windowed(Run(s, events), c, t) && k < |c|
      && t.maxRetry == maxRetry && t.retryWindow == window && c[k] in Run(s, events).instances
      ensures CreatedAt(Run(s, events), c[k]) - CreatedAt(Run(s, events), c[0]) <= window * SECOND
    {
      FreshIsSound(s);
      assert Window(t) == window * SECOND;
      ChainSpan(s, events, c, k, t);
      assert k <= 1;
    }
  }
}
