/** The whole effect of a retry scan: which of the due instances are dispatched. */
module RetryEffects {
  import opened Common
  import opened RuntimeModel
  import opened Moves
  import opened Handlers
  import opened Dispatching

  /** A due instance after its turn: left alone if its task is gone; else sent to a free
      worker that fits, which accepted it or let it go back to waiting. */
  ghost predicate HadTurn(s: State, inst: Instance, inst': Instance, env: Env) {
    if inst.task !in s.tasks then inst' == inst
    else
      && inst'.worker.Some? && inst'.worker.value in s.workers
      && Fits(s.workers[inst'.worker.value], s.tasks[inst.task].labels)
      && inst' == inst.(worker := inst'.worker, dispatched := env.now,
                        status := if env.accepts(inst.id) then Dispatched else RetryWaiting)
  }

  ghost function SentTo(instances: map<int, Instance>, due: seq<int>, c: nat, w: WorkerId): set<int>
    requires c <= |due|
  {
    set i | i in instances && i in due[..c] && instances[i].worker == Some(w) && instances[i].status == Dispatched
  }

  /** The loads after the first c due instances have had their turn. */
  ghost predicate Carried(s: State, s': State, due: seq<int>, c: nat)
    requires c <= |due|
  {
    && s'.workers.Keys == s.workers.Keys
    && forall w :: w in s.workers ==>
         s'.workers[w] == s.workers[w].(load := s.workers[w].load + |SentTo(s'.instances, due, c, w)|)
  }

  /** The first c due instances have had their turn and nothing else has changed; if c is
      not all of them, the next one has a task, and no worker has room for it. */
  ghost predicate RetryEffect(s: State, s': State, due: seq<int>, c: nat, env: Env) {
    && c <= |due|
    && s' == s.(instances := s'.instances, workers := s'.workers, rrCounter := s'.rrCounter)
    && s'.instances.Keys == s.instances.Keys
    && (forall k :: 0 <= k < c ==> due[k] in s.instances && HadTurn(s, s.instances[due[k]], s'.instances[due[k]], env))
    && (forall i :: i in s.instances && i !in due[..c] ==> s'.instances[i] == s.instances[i])
    && Carried(s, s', due, c)
    && (c < |due| ==>
          && due[c] in s.instances && s.instances[due[c]].task in s.tasks
          && NoRoom(s'.workers, s.tasks[s.instances[due[c]].task].labels))
  }

  // ---------------------------------------------------------------------- one by one

  ghost predicate Distinct(due: seq<int>) { forall j, k :: 0 <= j < k < |due| ==> due[j] != due[k] }

  /** What the turn of the first due instance does to the state. */
  ghost predicate FirstTurn(s: State, s1: State, id: int, env: Env) {
    && id in s.instances && s.instances[id].id == id
    && if s.instances[id].task !in s.tasks then s1 == s
       else Dispatches(s, s1, id, s.tasks[s.instances[id].task].labels, env.now, env.accepts(id),
                       s.instances[id].(status := RetryWaiting))
  }

  lemma TurnIs(s: State, s1: State, id: int, env: Env)
    requires FirstTurn(s, s1, id, env)
    ensures id in s1.instances && HadTurn(s, s.instances[id], s1.instances[id], env)
    ensures s1.instances.Keys == s.instances.Keys && s1.workers.Keys == s.workers.Keys
    ensures s1 == s.(instances := s1.instances, workers := s1.workers, rrCounter := s1.rrCounter)
    ensures forall i :: i in s.instances && i != id ==> s1.instances[i] == s.instances[i]
    ensures forall w :: w in s.workers ==> s1.workers[w] == s.workers[w].(load := s1.workers[w].load)
  {}

  lemma TurnElsewhere(s: State, s1: State, id: int, inst: Instance, inst': Instance, env: Env)
    requires FirstTurn(s, s1, id, env) && HadTurn(s1, inst, inst', env)
    ensures HadTurn(s, inst, inst', env)
  {
    TurnIs(s, s1, id, env);
    if inst.task in s.tasks {
      var w := inst'.worker.value;
      FitsAtAnyLoad(s.workers[w], s1.workers[w].load, s.tasks[inst.task].labels);
    }
  }

  lemma Prefix(due: seq<int>, c: nat, i: int)
    requires c < |due|
    ensures i in due[..c + 1] <==> i == due[0] || i in due[1..][..c]
  {
    assert due[..c + 1] == [due[0]] + due[1..][..c];
  }

  lemma SentStep(instances: map<int, Instance>, due: seq<int>, c: nat, w: WorkerId)
    requires c < |due| && due[0] in instances && due[0] !in due[1..][..c]
    ensures var here := instances[due[0]].worker == Some(w) && instances[due[0]].status == Dispatched;
            |SentTo(instances, due, c + 1, w)| == |SentTo(instances, due[1..], c, w)| + (if here then 1 else 0)
  {
    var here := instances[due[0]].worker == Some(w) && instances[due[0]].status == Dispatched;
    var all, rest := SentTo(instances, due, c + 1, w), SentTo(instances, due[1..], c, w);
    forall i ensures i in all <==> i in rest + (if here then {due[0]} else {}) { Prefix(due, c, i); }
    assert all == rest + (if here then {due[0]} else {});
  }

  lemma TurnCarries(s: State, s1: State, s': State, due: seq<int>, c: nat, env: Env)
    requires c < |due| && due[0] !in due[1..][..c] && FirstTurn(s, s1, due[0], env) && Carried(s1, s', due[1..], c)
    requires due[0] in s'.instances && due[0] in s1.instances && s'.instances[due[0]] == s1.instances[due[0]]
    requires s.instances[due[0]].status == RetryWaiting
    ensures Carried(s, s', due, c + 1)
  {
    TurnIs(s, s1, due[0], env);
    forall w | w in s.workers
      ensures s'.workers[w] == s.workers[w].(load := s.workers[w].load + |SentTo(s'.instances, due, c + 1, w)|)
    {
      SentStep(s'.instances, due, c, w);
    }
  }

  lemma RetryStep(s: State, s1: State, s': State, due: seq<int>, c: nat, env: Env)
    requires due != [] && Distinct(due) && FirstTurn(s, s1, due[0], env) && s.instances[due[0]].status == RetryWaiting
    requires RetryEffect(s1, s', due[1..], c, env)
    ensures RetryEffect(s, s', due, c + 1, env)
  {
    var rest := due[1..];
    TurnIs(s, s1, due[0], env);
    assert forall k :: 0 <= k < |rest| ==> rest[k] == due[k + 1];
    assert due[0] !in rest[..c];
    assert s'.instances[due[0]] == s1.instances[due[0]];
    forall k | 0 <= k < c + 1 ensures due[k] in s.instances && HadTurn(s, s.instances[due[k]], s'.instances[due[k]], env) {
      if k > 0 {
        assert rest[k - 1] == due[k];
        TurnElsewhere(s, s1, due[0], s1.instances[due[k]], s'.instances[due[k]], env);
      }
    }
    forall i | i in s.instances && i !in due[..c + 1] ensures s'.instances[i] == s.instances[i] { Prefix(due, c, i); }
    TurnCarries(s, s1, s', due, c, env);
  }

  lemma NobodyHasTurn(s: State, due: seq<int>, env: Env)
    requires due != [] ==>
               && due[0] in s.instances && s.instances[due[0]].task in s.tasks
               && NoRoom(s.workers, s.tasks[s.instances[due[0]].task].labels)
    ensures RetryEffect(s, s, due, 0, env)
  {
    forall w ensures SentTo(s.instances, due, 0, w) == {} {}
  }

  /** The copies the scan works on are still what the state holds. */
  ghost predicate Current(s: State, copies: seq<Instance>, due: seq<int>) {
    && |copies| == |due| && Distinct(due)
    && forall k :: 0 <= k < |due| ==>
         due[k] in s.instances && copies[k] == s.instances[due[k]] && copies[k].status == RetryWaiting
  }

  lemma StillCurrent(s: State, s1: State, copies: seq<Instance>, due: seq<int>, env: Env)
    requires Current(s, copies, due) && due != [] && FirstTurn(s, s1, due[0], env)
    ensures Current(s1, copies[1..], due[1..])
  {
    TurnIs(s, s1, due[0], env);
  }

  lemma TakesTurn(s: State, id: int, t: Task, env: Env)
    requires WellFormed(s) && Waiting(s, id) && s.instances[id].task in s.tasks && t == s.tasks[s.instances[id].task]
    ensures var (s1, out) := Redispatch(s, id, t, env);
            && (out.NoWorker? ==> NoRoom(s.workers, t.labels) && s1 == s)
            && (!out.NoWorker? ==> FirstTurn(s, s1, id, env) && WellFormed(s1))
  {
    RedispatchIs(s, id, t, env);
    RedispatchKeeps(s, id, t, env);
  }

  lemma {:induction false} RetriesAre(s: State, copies: seq<Instance>, due: seq<int>, env: Env) returns (s': State, c: nat)
    requires WellFormed(s) && Current(s, copies, due)
    ensures s' == RetryAll(s, copies, env) && RetryEffect(s, s', due, c, env)
    decreases |due|
  {
    if due == [] {
      s', c := s, 0;
      NobodyHasTurn(s, due, env);
    } else {
      var s1, stop := TurnOf(s, copies, due[0], env);
      if stop {
        s', c := s, 0;
        NobodyHasTurn(s, due, env);
      } else {
        StillCurrent(s, s1, copies, due, env);
        var n: nat;
        s', n := RetriesAre(s1, copies[1..], due[1..], env);
        RetryStep(s, s1, s', due, n, env);
        c := n + 1;
      }
    }
  }

  /** The scan's turn for one copy, and whether it ends the scan. */
  lemma TurnOf(s: State, copies: seq<Instance>, id: int, env: Env) returns (s1: State, stop: bool)
    requires WellFormed(s) && copies != [] && id in s.instances && copies[0] == s.instances[id] && copies[0].status == RetryWaiting
    ensures RetryAll(s, copies, env) == if stop then s else RetryAll(s1, copies[1..], env)
    ensures if stop then s.instances[id].task in s.tasks && NoRoom(s.workers, s.tasks[s.instances[id].task].labels)
            else FirstTurn(s, s1, id, env) && WellFormed(s1)
  {
    if copies[0].task !in s.tasks {
      s1, stop := s, false;
    } else {
      var t := s.tasks[copies[0].task];
      TakesTurn(s, id, t, env);
      s1, stop := Redispatch(s, id, t, env).0, Redispatch(s, id, t, env).1.NoWorker?;
    }
  }

  lemma RedispatchKeeps(s: State, id: int, t: Task, env: Env)
    requires WellFormed(s) && Waiting(s, id)
    ensures WellFormed(Redispatch(s, id, t, env).0)
  {
    if Pick(s, t).1.Some? {
      var m := RedispatchEffect(s, id, t, env);
      MoveKeepsWellFormed(Rotated(s, t), m);
    } else {
      PickFacts(s, t);
    }
  }

  /** A retry scan gives the due instances their turn in order of age, passing over those
      whose task is gone, until no worker has room for the next. */
  ghost predicate Rescanned(s: State, s': State, env: Env) {
    exists c: nat :: RetryEffect(s, s', DueRetries(s, env.now), c, env)
  }

  lemma RetryScanIs(s: State, env: Env)
    requires WellFormed(s)
    ensures Rescanned(s, RetryScan(s, env), env)
  {
    var due := DueRetries(s, env.now);
    var s', c := RetriesAre(s, DueInstances(s, env.now), due, env);
  }
}
