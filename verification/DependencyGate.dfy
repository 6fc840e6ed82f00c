/** The trigger loop's dependency gate: what it guarantees on every run, and
    exactly how far it falls short of "all upstream tasks have succeeded". */
module DependencyGate {
  import opened Common
  import opened RuntimeModel
  import opened Moves
  import opened Handlers
  import opened Runs

  /** Every instance the trigger loop created has its upstream tasks done. */
  ghost predicate Gated(s: State) {
    forall i :: i in s.instances && i !in s.retryOf ==> UpstreamDone(s, s.instances[i].task)
  }

  lemma MoveKeepsGated(s: State, m: Move)
    requires Sound(s) && Gated(s) && Enabled(s, m)
    ensures Gated(Apply(s, m))
  {
    var s' := Apply(s, m);
    MoveEvolves(s, m);
    forall i | i in s'.instances && i !in s'.retryOf ensures UpstreamDone(s', s'.instances[i].task) {
      if i in s.instances {
        UpstreamPersists(s, s', s.instances[i].task);
      } else {
        UpstreamPersists(s, s', m.inst.task);
      }
    }
  }

  lemma {:induction false} PathKeepsGated(s: State, ms: seq<Move>)
    requires Sound(s) && Gated(s) && Path(s, ms)
    ensures Gated(ApplyAll(s, ms))
    decreases |ms|
  {
    if ms != [] {
      MoveKeepsGated(s, ms[0]);
      MoveKeepsWellFormed(s, ms[0]);
      MoveKeepsLinks(s, ms[0]);
      PathKeepsGated(Apply(s, ms[0]), ms[1..]);
    }
  }

  /** In every reachable state each triggered instance of a task with upstream
      dependencies has, for every one of them, a successful instance. */
  lemma {:induction false} RunKeepsGated(s: State, events: seq<Event>)
    requires Sound(s) && Gated(s) && IsRun(s, events)
    ensures Gated(Run(s, events))
    decreases |events|
  {
    if events != [] {
      var ms := EventMoves(s, events[0]);
      PathKeepsGated(s, ms);
      StepKeeps(s, events[0]);
      RunKeepsGated(Step(s, events[0]), events[1..]);
    }
  }

  /** Success, once recorded, is there in every later state. */
  lemma SuccessIsForever(s: State, events: seq<Event>, i: int)
    requires Sound(s) && IsRun(s, events) && i in s.instances && s.instances[i].status == Success
    ensures i in Run(s, events).instances && Run(s, events).instances[i] == s.instances[i]
  {
    RunKeeps(s, events);
  }

  /** A scan adds no success, so what it needs was there when it started. */
  lemma QuietAddsNoSuccess(s: State, m: Move, task: int)
    requires WellFormed(s) && Enabled(s, m) && !m.Settle? && !m.Drop? && UpstreamDone(Apply(s, m), task)
    ensures UpstreamDone(s, task)
  {
    var s' := Apply(s, m);
    forall d | d in Upstream(s.deps, task) ensures HasSuccess(s, d) {
      assert HasSuccess(s', d);
      var j :| j in s'.instances && s'.instances[j].task == d && s'.instances[j].status == Success;
      assert j in s.instances && s.instances[j].task == d && s.instances[j].status == Success;
    }
  }

  lemma {:induction false} QuietBirths(s: State, ms: seq<Move>, i: int)
    requires Sound(s) && Path(s, ms) && Quiet(ms)
    requires i in ApplyAll(s, ms).instances && i !in s.instances && i !in ApplyAll(s, ms).retryOf
    ensures UpstreamDone(s, ApplyAll(s, ms).instances[i].task)
    decreases |ms|
  {
    var m := ms[0];
    var s1 := Apply(s, m);
    MoveKeepsWellFormed(s, m);
    MoveKeepsLinks(s, m);
    PathKeeps(s1, ms[1..]);
    if i in s1.instances {
      RetryLinksGrow(s1, ms[1..], i);
    } else {
      QuietBirths(s1, ms[1..], i);
      QuietAddsNoSuccess(s, m, ApplyAll(s, ms).instances[i].task);
    }
  }

  lemma {:induction false} RetryLinksGrow(s: State, ms: seq<Move>, i: int)
    requires Sound(s) && Path(s, ms) && i in s.instances
    ensures i in s.retryOf <==> i in ApplyAll(s, ms).retryOf
    decreases |ms|
  {
    if ms != [] {
      MoveKeepsWellFormed(s, ms[0]);
      MoveKeepsLinks(s, ms[0]);
      MoveEvolves(s, ms[0]);
      RetryLinksGrow(Apply(s, ms[0]), ms[1..], i);
    }
  }

  /** An instance a scan creates was created with every upstream task done. */
  lemma TriggeredWhenDone(s: State, input: ScanInput, env: Env, i: int)
    requires Sound(s) && DueListing(s, env.now, input.due)
    requires var s' := TriggerScan(s, input, env); i in s'.instances && i !in s.instances && i !in s'.retryOf
    ensures UpstreamDone(s, TriggerScan(s, input, env).instances[i].task)
  {
    var ms := TriggerScanMoves(s, input, env);
    QuietBirths(s, ms, i);
  }

  // ------------------------------------------------------------- incompleteness

  /** Some success is older than every success of the given task. */
  ghost predicate Overshadowed(s: State, task: int) {
    exists j :: j in s.instances && s.instances[j].status == Success && s.instances[j].task != task
      && forall k :: k in s.instances && s.instances[k].status == Success && s.instances[k].task == task ==> j < k
  }

  /** When all upstream tasks are done, the gate opens exactly if they are one and
      the same task and no other task's success is older than all of its own. */
  lemma GateOpensIff(s: State, task: int)
    requires UpstreamDone(s, task) && Upstream(s.deps, task) != []
    ensures var ups := Upstream(s.deps, task);
            GateOpen(s, task) <==> (forall d :: d in ups ==> d == ups[0]) && !Overshadowed(s, ups[0])
  {
    var ups := Upstream(s.deps, task);
    assert ups[0] in ups && HasSuccess(s, ups[0]);
    var k :| k in s.instances && s.instances[k].task == ups[0] && s.instances[k].status == Success;
    assert k in WithStatus(s, Success);
    var j := OldestSuccess(s).value;
    assert j in WithStatus(s, Success);
    if s.instances[j].task == ups[0] {
      assert forall i :: i in s.instances && s.instances[i].status == Success ==> i in WithStatus(s, Success);
      assert !Overshadowed(s, ups[0]);
    } else {
      assert forall i :: i in s.instances && s.instances[i].status == Success ==> i in WithStatus(s, Success);
      assert Overshadowed(s, ups[0]);
    }
  }

  ghost predicate NoInstanceOf(s: State, task: int) {
    forall i :: i in s.instances ==> s.instances[i].task != task
  }

  lemma MoveStaysShut(s: State, m: Move, task: int)
    requires Enabled(s, m) && !OneUpstream(s.deps, task) && NoInstanceOf(s, task)
    ensures NoInstanceOf(Apply(s, m), task) && Apply(s, m).deps == s.deps
  {
    match m
    case Child(parent, inst) => assert s.instances[parent].task != task;
    case Root(inst) => assert inst.task != task;
    case _ =>
  }

  lemma {:induction false} ShutPath(s: State, ms: seq<Move>, task: int)
    requires Sound(s) && Path(s, ms) && !OneUpstream(s.deps, task) && NoInstanceOf(s, task)
    ensures NoInstanceOf(ApplyAll(s, ms), task)
    decreases |ms|
  {
    if ms != [] {
      MoveKeepsWellFormed(s, ms[0]);
      MoveKeepsLinks(s, ms[0]);
      MoveStaysShut(s, ms[0], task);
      ShutPath(Apply(s, ms[0]), ms[1..], task);
    }
  }

  /** On no run does the loop ever trigger a task that depends on two different
      tasks, whatever has succeeded. */
  lemma {:induction false} MixedNeverTriggers(s: State, events: seq<Event>, task: int)
    requires Sound(s) && IsRun(s, events) && !OneUpstream(s.deps, task) && NoInstanceOf(s, task)
    ensures NoInstanceOf(Run(s, events), task)
    decreases |events|
  {
    if events != [] {
      var ms := EventMoves(s, events[0]);
      ShutPath(s, ms, task);
      StepKeeps(s, events[0]);
      MixedNeverTriggers(Step(s, events[0]), events[1..], task);
    }
  }
}
