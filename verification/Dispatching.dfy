/** What routing and dispatching one instance does, in terms of the workers' own
    fields: who may be chosen, when nobody can be, and what is recorded. */
module Dispatching {
  import opened Common
  import opened RuntimeModel
  import opened Moves
  import opened Handlers

  /** An online worker that carries every label of the selector with its value. */
  ghost predicate Fits(w: Worker, labels: map<string, string>) {
    w.online && forall k :: k in labels ==> k in w.labels && w.labels[k] == labels[k]
  }

  lemma FitsAtAnyLoad(w: Worker, load: int, labels: map<string, string>)
    ensures Fits(w.(load := load), labels) <==> Fits(w, labels)
  {}

  ghost predicate Free(workers: map<WorkerId, Worker>, labels: map<string, string>, w: WorkerId) {
    w in workers && Fits(workers[w], labels) && workers[w].load < workers[w].max
  }

  ghost predicate NoRoom(workers: map<WorkerId, Worker>, labels: map<string, string>) {
    forall w :: w in workers ==> !Free(workers, labels, w)
  }

  /** One unit of a worker's capacity more in use. */
  ghost function Taken(workers: map<WorkerId, Worker>, w: WorkerId): map<WorkerId, Worker>
    requires w in workers
  {
    workers[w := workers[w].(load := workers[w].load + 1)]
  }

  lemma FreeIsCandidate(workers: map<WorkerId, Worker>, labels: map<string, string>, w: WorkerId)
    ensures w in Candidates(workers, labels) <==> Free(workers, labels, w)
  {}

  lemma NoRoomIff(workers: map<WorkerId, Worker>, labels: map<string, string>)
    ensures Candidates(workers, labels) == {} <==> NoRoom(workers, labels)
  {
    forall w ensures w in Candidates(workers, labels) <==> Free(workers, labels, w) {
      FreeIsCandidate(workers, labels, w);
    }
    if Candidates(workers, labels) != {} {
      var w := Any(Candidates(workers, labels));
      assert w in workers && Free(workers, labels, w);
    }
  }

  /** A worker is found exactly if one is online with room and all the task's labels; the
      one found is such a worker, and it alone gets one more unit of load. */
  lemma PickedFits(s: State, t: Task)
    requires WorkersOk(s.workers)
    ensures var (s', picked) := Pick(s, t);
            && (picked.None? <==> NoRoom(s.workers, t.labels))
            && (picked.None? ==> s' == s)
            && (picked.Some? ==>
                  && Free(s.workers, t.labels, picked.value.id)
                  && s' == s.(workers := Taken(s.workers, picked.value.id), rrCounter := s'.rrCounter))
  {
    NoRoomIff(s.workers, t.labels);
    if Candidates(s.workers, t.labels) != {} { FreeIsCandidate(s.workers, t.labels, Choice(s, t)); }
  }

  /** Dispatching an instance: it records a free worker and the time, and the worker
      keeps the unit of load exactly if it accepts. */
  ghost predicate Dispatches(s: State, s': State, id: int, labels: map<string, string>, now: int, accepted: bool,
                             refused: Instance) {
    && id in s.instances && id in s'.instances && s'.instances[id].worker.Some?
    && var w := s'.instances[id].worker.value;
       && Free(s.workers, labels, w)
       && s'.instances[id] ==
            (if accepted then s.instances[id].(status := Dispatched) else refused).(worker := Some(w), dispatched := now)
       && s' == s.(instances := s.instances[id := s'.instances[id]],
                   workers := if accepted then Taken(s.workers, w) else s.workers, rrCounter := s'.rrCounter)
  }

  lemma GivenBack(workers: map<WorkerId, Worker>, w: WorkerId)
    requires WorkersOk(workers) && w in workers
    ensures var taken := Taken(workers, w)[w]; Taken(workers, w)[w := taken.(load := taken.load - 1)] == workers
  {}

  /** A retry that is refused goes back to waiting. */
  lemma RedispatchIs(s: State, id: int, t: Task, env: Env)
    requires WorkersOk(s.workers) && id in s.instances
    ensures var (s', out) := Redispatch(s, id, t, env);
            && (out.NoWorker? <==> NoRoom(s.workers, t.labels))
            && (out.NoWorker? ==> s' == s)
            && (!out.NoWorker? ==>
                  Dispatches(s, s', id, t.labels, env.now, env.accepts(id), s.instances[id].(status := RetryWaiting)))
  {
    PickedFits(s, t);
    var (s1, picked) := Pick(s, t);
    if picked.Some? {
      GivenBack(s.workers, picked.value.id);
      Twice(s.instances, id, s.instances[id].(worker := Some(picked.value.id), status := Dispatched, dispatched := env.now),
            s.instances[id].(worker := Some(picked.value.id), status := RetryWaiting, dispatched := env.now));
    }
  }

  lemma Twice<K, V>(m: map<K, V>, k: K, a: V, b: V)
    ensures m[k := a][k := b] == m[k := b]
  {}
}
