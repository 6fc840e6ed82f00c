/** internal/worker/handler.go: the worker's duplicate check with its periodic
    eviction. Instants and durations are nanoseconds. */
module WorkerSide {

  type Seen = map<string, int>

  /** A request to execute, or an eviction pass. */
  datatype Event = Request(id: string, now: int) | Evict(now: int)

  const DEFAULT_TTL := 300_000_000_000

  function Ttl(configured: int): int { if configured <= 0 then DEFAULT_TTL else configured }

  /** Entries first seen before the cutoff are dropped. */
  function Kept(m: Seen, cutoff: int): Seen { map id | id in m && m[id] >= cutoff :: m[id] }

  function Step(m: Seen, e: Event, ttl: int): Seen {
    match e
    case Request(id, now) => if id in m then m else m[id := now]
    case Evict(now) => Kept(m, now - ttl)
  }

  function Run(m: Seen, es: seq<Event>, ttl: int): Seen
    decreases |es|
  {
    if es == [] then m else Run(Step(m, es[0], ttl), es[1..], ttl)
  }

  /** The k-th event starts an execution. */
  predicate Executes(m: Seen, es: seq<Event>, ttl: int, k: nat)
    requires k < |es|
  {
    es[k].Request? && es[k].id !in Run(m, es[..k], ttl)
  }

  ghost predicate Monotone(es: seq<Event>) { forall i, j :: 0 <= i < j < |es| ==> es[i].now <= es[j].now }

  lemma {:induction false} RunSplit(m: Seen, a: seq<Event>, b: seq<Event>, ttl: int)
    ensures Run(m, a + b, ttl) == Run(Run(m, a, ttl), b, ttl)
    decreases |a|
  {
    if a == [] {
      assert a + b == b;
    } else {
      assert (a + b)[1..] == a[1..] + b;
      RunSplit(Step(m, a[0], ttl), a[1..], b, ttl);
    }
  }

  /** An entry survives every eviction up to its time to live. */
  lemma {:induction false} Remembered(m: Seen, es: seq<Event>, ttl: int, id: string)
    requires id in m && forall i :: 0 <= i < |es| ==> es[i].now - ttl <= m[id]
    ensures id in Run(m, es, ttl) && Run(m, es, ttl)[id] == m[id]
    decreases |es|
  {
    if es != [] { Remembered(Step(m, es[0], ttl), es[1..], ttl, id); }
  }

  /** Two executions of one schedule ID on a worker are more than the time to live
      apart, whatever requests and eviction passes happen in between. */
  lemma ExecutionsAreApart(m: Seen, es: seq<Event>, ttl: int, i: nat, j: nat)
    requires i < j < |es| && Monotone(es)
    requires Executes(m, es, ttl, i) && Executes(m, es, ttl, j) && es[i].id == es[j].id
    ensures es[j].now - es[i].now > ttl
  {
    var before, between := es[..i], es[i + 1..j];
    var after := Step(Run(m, before, ttl), es[i], ttl);
    assert es[..j] == before + ([es[i]] + between);
    RunSplit(m, before, [es[i]] + between, ttl);
    assert ([es[i]] + between)[1..] == between;
    assert Run(m, es[..j], ttl) == Run(after, between, ttl);
    if es[j].now - es[i].now <= ttl {
      forall k | 0 <= k < |between| ensures between[k].now - ttl <= after[es[i].id] {
        assert between[k] == es[i + 1 + k];
      }
      Remembered(after, between, ttl, es[i].id);
    }
  }

  /** With no eviction pass in between a repeated request never executes again,
      however late it comes. */
  lemma {:induction false} NoEvictionNoRepeat(m: Seen, es: seq<Event>, ttl: int, id: string)
    requires id in m && forall i :: 0 <= i < |es| ==> es[i].Request?
    ensures id in Run(m, es, ttl)
    decreases |es|
  {
    if es != [] { NoEvictionNoRepeat(Step(m, es[0], ttl), es[1..], ttl, id); }
  }

  class Handler {
    var seen: Seen

    constructor ()
      ensures seen == map[]
    {
      seen := map[];
    }

    method IsDuplicate(id: string, now: int) returns (dup: bool)
      modifies this
      ensures dup == (id in old(seen)) && seen == Step(old(seen), Request(id, now), 0)
    {
      if id in seen { return true; }
      seen := seen[id := now];
      return false;
    }

    /** One eviction pass ranges over the entries and deletes the expired ones. */
    method EvictExpired(now: int, configured: int)
      modifies this
      ensures seen == Step(old(seen), Evict(now), Ttl(configured))
    {
      var cutoff, todo := now - Ttl(configured), seen.Keys;
      while todo != {}
        invariant todo <= old(seen).Keys
        invariant forall id :: id in seen <==> id in old(seen) && (id in todo || old(seen)[id] >= cutoff)
        invariant forall id :: id in seen ==> seen[id] == old(seen)[id]
        decreases |todo|
      {
        var id :| id in todo;
        if seen[id] < cutoff { seen := seen - {id}; }
        todo := todo - {id};
      }
    }
  }
}
