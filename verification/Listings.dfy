/** What the repositories list and the router chooses: the due retries, the tasks a
    scan handles, and the worker each routing policy names. */
module Listings {
  import opened Common
  import opened RuntimeModel

  predicate RetryDue(inst: Instance, cutoff: int) {
    inst.status == RetryWaiting && (inst.nextRetry == 0 || inst.nextRetry <= cutoff)
  }

  /** Waiting instances whose time has come, oldest first, at most a hundred; one that
      is left out is younger than all hundred listed. */
  lemma DueRetriesAre(s: State, cutoff: int)
    ensures var r := DueRetries(s, cutoff);
            && |r| <= SCAN_LIMIT
            && (forall k :: 0 <= k < |r| ==> r[k] in s.instances && RetryDue(s.instances[r[k]], cutoff))
            && (forall j, k :: 0 <= j < k < |r| ==> r[j] < r[k])
            && (forall i :: i in s.instances && RetryDue(s.instances[i], cutoff) && i !in r ==>
                  |r| == SCAN_LIMIT && forall k :: 0 <= k < |r| ==> r[k] < i)
  {
    var due := set i | i in s.instances && s.instances[i].status == RetryWaiting
                       && (s.instances[i].nextRetry == 0 || s.instances[i].nextRetry <= cutoff);
    var all, r := Ascending(due), DueRetries(s, cutoff);
    assert forall k :: 0 <= k < |all| ==> all[k] in all;
    forall i | i in s.instances && RetryDue(s.instances[i], cutoff) && i !in r
      ensures |r| == SCAN_LIMIT && forall k :: 0 <= k < |r| ==> r[k] < i
    {
      assert i in due && i in all;
      var j :| 0 <= j < |all| && all[j] == i;
      assert j >= |r|;
    }
  }

  // ----------------------------------------------------------------- trigger scan

  predicate CacheHit(s: State, id: int, now: int) { id in s.tasks && s.tasks[id].enabled && s.tasks[id].next <= now }

  lemma {:induction false} CachedDueAre(s: State, ids: seq<int>, now: int, id: int)
    ensures id in CachedDue(s, ids, now) <==> id in ids && CacheHit(s, id, now)
  {
    if ids != [] { CachedDueAre(s, ids[1..], now, id); }
  }

  /** The cached IDs keep their order. */
  lemma {:induction false} CachedDueKeepsOrder(s: State, a: seq<int>, b: seq<int>, now: int)
    ensures CachedDue(s, a + b, now) == CachedDue(s, a, now) + CachedDue(s, b, now)
    decreases |a|
  {
    if a == [] {
      assert a + b == b;
    } else {
      assert (a + b)[1..] == a[1..] + b;
      CachedDueKeepsOrder(s, a[1..], b, now);
    }
  }

  /** A scan handles enabled tasks whose time has come: a prefix of the cached ones if
      there are any, and of the listed ones otherwise. */
  lemma ScanIdsAre(s: State, input: ScanInput, now: int)
    requires DueListing(s, now, input.due)
    ensures var r, cached := ScanIds(s, input, now), CachedDue(s, input.cached, now);
            && |r| <= SCAN_LIMIT && (if cached != [] then r <= cached else r <= input.due)
            && (input.pressure.None? && cached == [] ==> r == input.due)
            && forall k :: 0 <= k < |r| ==> CacheHit(s, r[k], now)
  {
    var r, cached := ScanIds(s, input, now), CachedDue(s, input.cached, now);
    forall k | 0 <= k < |r| ensures CacheHit(s, r[k], now) {
      if cached != [] {
        assert r[k] == cached[k] && cached[k] in cached;
        CachedDueAre(s, input.cached, now, cached[k]);
      } else {
        assert r[k] == input.due[k];
      }
    }
  }

  // --------------------------------------------------------------------- routing

  /** Unless told to go round, the router takes a candidate no other undercuts, and
      the lowest ID among those. */
  lemma LeastLoadedIsChosen(s: State, t: Task, v: WorkerId)
    requires !t.strategy.RoundRobin? && v in Candidates(s.workers, t.labels)
    ensures var w := Choice(s, t);
            && w in Candidates(s.workers, t.labels) && s.workers[w].load <= s.workers[v].load
            && (s.workers[w].load == s.workers[v].load ==> w <= v)
  {
    var ids := Candidates(s.workers, t.labels);
    var least := LeastLoaded(s.workers, ids);
    var w := Choice(s, t);
    assert w in least;
    if s.workers[w].load == s.workers[v].load {
      forall u | u in ids ensures s.workers[v].load <= s.workers[u].load {}
      assert v in least;
    }
  }

  lemma {:induction false} AscendingLength(ids: set<int>)
    ensures |Ascending(ids)| == |ids|
  {
    if ids != {} { AscendingLength(ids - {Least(ids)}); }
  }

  lemma ModIs(x: int, n: int, q: int, r: int)
    requires n > 0 && x == n * q + r && 0 <= r < n
    ensures x % n == r
  {
    var d := x / n - q;
    assert n * d == r - x % n;
    assert d >= 1 ==> n * (d - 1) >= 0;
    assert d <= -1 ==> n * (d + 1) <= 0;
  }

  /** The turn, within one round, at which position p comes up. */
  lemma TurnOf(c: nat, n: nat, p: nat) returns (k: nat)
    requires p < n
    ensures k < n && (c + k) % n == p
  {
    var r := c % n;
    if p >= r {
      k := p - r;
      ModIs(c + k, n, c / n, p);
    } else {
      k := p + n - r;
      ModIs(c + k, n, c / n + 1, p);
    }
  }

  lemma TurnsDiffer(c: nat, n: nat, j: nat, k: nat)
    requires j < k < n
    ensures (c + j) % n != (c + k) % n
  {
    var r := c % n;
    if r + j < n { ModIs(c + j, n, c / n, r + j); } else { ModIs(c + j, n, c / n + 1, r + j - n); }
    if r + k < n { ModIs(c + k, n, c / n, r + k); } else { ModIs(c + k, n, c / n + 1, r + k - n); }
  }

  lemma InTurnIs(ids: set<WorkerId>, c: nat, p: nat)
    requires p < |Ascending(ids)| && c % |Ascending(ids)| == p
    ensures ids != {} && InTurn(ids, c) == Ascending(ids)[p]
  {
    assert Ascending(ids)[p] in Ascending(ids);
  }

  lemma IndexOf(list: seq<int>, x: int) returns (p: nat)
    requires x in list
    ensures p < |list| && list[p] == x
  {
    p :| p < |list| && list[p] == x;
  }

  lemma DistinctElements(list: seq<int>, a: nat, b: nat)
    requires a < |list| && b < |list| && a != b && forall i, j :: 0 <= i < j < |list| ==> list[i] < list[j]
    ensures list[a] != list[b]
  {}

  lemma SomeTurn(ids: set<WorkerId>, c: nat, w: WorkerId) returns (k: nat)
    requires w in ids
    ensures k < |ids| && InTurn(ids, c + k) == w
  {
    AscendingLength(ids);
    var p := IndexOf(Ascending(ids), w);
    k := TurnOf(c, |ids|, p);
    InTurnIs(ids, c + k, p);
  }

  lemma OneTurn(ids: set<WorkerId>, c: nat, j: nat, k: nat)
    requires j < k < |ids|
    ensures ids != {} && InTurn(ids, c + j) != InTurn(ids, c + k)
  {
    AscendingLength(ids);
    var a, b := (c + j) % |ids|, (c + k) % |ids|;
    TurnsDiffer(c, |ids|, j, k);
    InTurnIs(ids, c + j, a);
    InTurnIs(ids, c + k, b);
    DistinctElements(Ascending(ids), a, b);
  }

  function Turn(s: State, k: nat): State { s.(rrCounter := s.rrCounter + k) }

  /** Going round, every candidate gets a turn among as many as there are candidates. */
  lemma EveryoneGetsATurn(s: State, t: Task, w: WorkerId) returns (k: nat)
    requires t.strategy.RoundRobin? && w in Candidates(s.workers, t.labels)
    ensures k < |Candidates(s.workers, t.labels)| && Choice(Turn(s, k), t) == w
  {
    k := SomeTurn(Candidates(s.workers, t.labels), s.rrCounter, w);
  }

  /** And no candidate gets two of them. */
  lemma NobodyGetsTwoTurns(s: State, t: Task, j: nat, k: nat)
    requires t.strategy.RoundRobin? && j < k < |Candidates(s.workers, t.labels)|
    ensures Candidates(s.workers, t.labels) != {} && Choice(Turn(s, j), t) != Choice(Turn(s, k), t)
  {
    OneTurn(Candidates(s.workers, t.labels), s.rrCounter, j, k);
  }

  /** In ID order, beginning with the lowest. */
  lemma TurnsRise(ids: set<WorkerId>, c: nat)
    requires ids != {}
    ensures c % |Ascending(ids)| == 0 ==> InTurn(ids, c) == Least(ids)
    ensures (c + 1) % |Ascending(ids)| != 0 ==> InTurn(ids, c) < InTurn(ids, c + 1)
  {
    var list := Ascending(ids);
    assert Any(ids) in list;
    assert list[0] in list && Least(ids) in list;
    var i :| 0 <= i < |list| && list[i] == Least(ids);
    assert list[0] == Least(ids);
    NextTurn(c, |list|);
  }

  lemma NextTurn(c: nat, n: nat)
    requires n > 0
    ensures (c + 1) % n == if c % n == n - 1 then 0 else c % n + 1
  {
    var q, r := c / n, c % n;
    assert c == q * n + r;
    if r == n - 1 { RemainderIs(c + 1, n, q + 1, 0); } else { RemainderIs(c + 1, n, q, r + 1); }
  }

  lemma RemainderIs(x: nat, n: nat, q: nat, r: nat)
    requires n > 0 && x == q * n + r && r < n
    ensures x % n == r
  {
    var q1, r1 := x / n, x % n;
    assert x == q1 * n + r1;
    assert (q1 - q) * n == r - r1;
    SmallMultiple(q1 - q, n);
  }

  // ---------------------------------------------------------------------- edges

  /** The edges are listed in order, one by one. */
  lemma {:induction false} EdgesAdd(a: seq<(int, int)>, b: seq<(int, int)>, task: int)
    ensures Upstream(a + b, task) == Upstream(a, task) + Upstream(b, task)
    ensures Downstream(a + b, task) == Downstream(a, task) + Downstream(b, task)
    decreases |a|
  {
    if a == [] {
      assert a + b == b;
    } else {
      assert (a + b)[1..] == a[1..] + b;
      EdgesAdd(a[1..], b, task);
    }
  }

  lemma OneEdge(from: int, to: int, task: int)
    ensures Upstream([(from, to)], task) == if from == task then [to] else []
    ensures Downstream([(from, to)], task) == if to == task then [from] else []
  {
    assert [(from, to)][1..] == [];
  }
}
