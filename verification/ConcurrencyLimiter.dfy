/** internal/scheduler/ratelimit/limiter.go: the condition-variable limiter as
    interleaved critical sections. A caller evaluates the loop guard of Acquire
    when it arrives and again whenever a signal has woken it. */
module ConcurrencyLimiter {
  import opened Common

  /** `sleeping` callers wait on the condition, `signalled` ones have been woken but
      do not hold the lock yet, `holding` ones own a slot. `served` is a history
      variable: who ever got a slot. A number stands for one call of Acquire. */
  datatype State = State(limit: int, current: int, sleeping: set<int>, signalled: set<int>, holding: set<int>,
                         served: set<int>)

  function Start(limit: int): (s: State)
    ensures Inv(s)
  {
    State(if limit <= 0 then 100 else limit, 0, {}, {}, {}, {})
  }

  /** Arriving, resuming after a signal, and releasing while `woken` is the sleeper
      the signal picks. A stray release comes from a caller without a slot. */
  datatype Event = Enter(who: int) | Resume(who: int) | Release(who: int, woken: int) | Stray(woken: int)

  ghost predicate Possible(s: State, e: Event) {
    match e
    case Enter(t) => t !in s.sleeping + s.signalled + s.served
    case Resume(t) => t in s.signalled
    case Release(t, w) => t in s.holding && (s.sleeping != {} ==> w in s.sleeping)
    case Stray(w) => s.sleeping != {} ==> w in s.sleeping
  }

  /** One turn of the loop in Acquire by a caller that is not asleep. */
  function Attempt(s: State, t: int): State {
    if s.current >= s.limit then s.(sleeping := s.sleeping + {t}, signalled := s.signalled - {t})
    else s.(current := s.current + 1, signalled := s.signalled - {t}, holding := s.holding + {t}, served := s.served + {t})
  }

  function Signal(s: State, w: int): State {
    if s.sleeping == {} then s else s.(sleeping := s.sleeping - {w}, signalled := s.signalled + {w})
  }

  function Free(s: State): State { s.(current := if s.current > 0 then s.current - 1 else s.current) }

  function Step(s: State, e: Event): State {
    match e
    case Enter(t) => Attempt(s, t)
    case Resume(t) => Attempt(s, t)
    case Release(t, w) => Signal(Free(s).(holding := s.holding - {t}), w)
    case Stray(w) => Signal(Free(s), w)
  }

  ghost predicate IsRun(s: State, es: seq<Event>)
    decreases |es|
  {
    es == [] || (Possible(s, es[0]) && IsRun(Step(s, es[0]), es[1..]))
  }

  function Run(s: State, es: seq<Event>): State
    decreases |es|
  {
    if es == [] then s else Run(Step(s, es[0]), es[1..])
  }

  // ---------------------------------------------------------------------- safety

  /** The counter stays in range and no wake-up is lost: while anybody sleeps, the
      slots in use and the callers already woken make up the limit. */
  ghost predicate Inv(s: State) {
    && s.limit > 0 && 0 <= s.current <= s.limit
    && (s.sleeping != {} ==> s.current + |s.signalled| >= s.limit)
    && s.sleeping !! s.signalled
  }

  lemma Added(x: int, s: set<int>)
    ensures x !in s ==> |s + {x}| == |s| + 1
    ensures x in s ==> |s - {x}| == |s| - 1
  {
    if x in s { assert s == (s - {x}) + {x}; }
  }

  lemma StepKeeps(s: State, e: Event)
    requires Inv(s) && Possible(s, e)
    ensures Inv(Step(s, e)) && Step(s, e).limit == s.limit
  {}

  /** Whatever the interleaving, and even if callers release slots they do not own. */
  lemma {:induction false} RunKeeps(s: State, es: seq<Event>)
    requires Inv(s) && IsRun(s, es)
    ensures Inv(Run(s, es)) && Run(s, es).limit == s.limit
    decreases |es|
  {
    if es != [] {
      StepKeeps(s, es[0]);
      RunKeeps(Step(s, es[0]), es[1..]);
    }
  }

  ghost predicate Disciplined(es: seq<Event>) { forall i :: 0 <= i < |es| ==> !es[i].Stray? }

  /** A call that has got a slot is not waiting any more. */
  ghost predicate Distinct(s: State) {
    s.holding <= s.served && s.served !! s.sleeping && s.served !! s.signalled
  }

  /** The counter counts the holders, who are not waiting. */
  ghost predicate Exact(s: State) { s.current == |s.holding| && Distinct(s) }

  lemma StepKeepsExact(s: State, e: Event)
    requires Inv(s) && Exact(s) && Possible(s, e) && !e.Stray?
    ensures Exact(Step(s, e))
  {}

  /** If callers release only what they hold, at most `limit` of them hold a slot at
      any time and the counter is their number. */
  lemma {:induction false} RunKeepsExact(s: State, es: seq<Event>)
    requires Inv(s) && Exact(s) && IsRun(s, es) && Disciplined(es)
    ensures var s' := Run(s, es); Inv(s') && Exact(s') && |s'.holding| <= s.limit
    decreases |es|
  {
    if es != [] {
      assert !es[0].Stray?;
      StepKeeps(s, es[0]);
      StepKeepsExact(s, es[0]);
      RunKeepsExact(Step(s, es[0]), es[1..]);
    }
  }

  /** The counter is the number of holders now and after every event. */
  ghost predicate AlwaysExact(s: State, es: seq<Event>)
    decreases |es|
  {
    s.current == |s.holding| && (es == [] || AlwaysExact(Step(s, es[0]), es[1..]))
  }

  /** Callers without a slot release only while no slot is in use. */
  ghost predicate StraysIdle(s: State, es: seq<Event>)
    decreases |es|
  {
    es == [] || ((es[0].Stray? ==> s.current == 0) && StraysIdle(Step(s, es[0]), es[1..]))
  }

  lemma IdleStrayKeepsExact(s: State, w: int)
    requires Inv(s) && Exact(s) && Possible(s, Stray(w)) && s.current == 0
    ensures Exact(Step(s, Stray(w)))
  {}

  /** The counter is right in every state of a run exactly if no caller without a slot
      releases while some slot is in use. */
  lemma {:induction false} ExactIff(s: State, es: seq<Event>)
    requires Inv(s) && Exact(s) && IsRun(s, es)
    ensures AlwaysExact(s, es) <==> StraysIdle(s, es)
    decreases |es|
  {
    if es != [] {
      var e, s1 := es[0], Step(s, es[0]);
      StepKeeps(s, e);
      if !e.Stray? {
        StepKeepsExact(s, e);
        ExactIff(s1, es[1..]);
      } else if s.current == 0 {
        IdleStrayKeepsExact(s, e.woken);
        ExactIff(s1, es[1..]);
      } else {
        assert s1.current == s.current - 1 && s1.holding == s.holding;
      }
    }
  }

  /** By how much the counter falls behind the holders: one for each stray release of
      a slot in use, less one for each holder whose release found the counter at 0. */
  ghost function Drift(s: State, es: seq<Event>): int
    decreases |es|
  {
    if es == [] then 0
    else
      (if es[0].Stray? && s.current > 0 then 1 else if es[0].Release? && s.current == 0 then -1 else 0)
      + Drift(Step(s, es[0]), es[1..])
  }

  lemma DriftStep(s: State, e: Event)
    requires Inv(s) && Distinct(s) && Possible(s, e)
    ensures var s' := Step(s, e);
            && Distinct(s')
            && |s'.holding| - s'.current == |s.holding| - s.current
                 + (if e.Stray? && s.current > 0 then 1 else if e.Release? && s.current == 0 then -1 else 0)
  {
    if !e.Stray? { Added(e.who, s.holding); }
  }

  /** So on every run the holders number `current` plus the drift: they exceed the limit
      exactly when the drift exceeds the slots the counter still shows as free. */
  lemma HoldersAre(s: State, es: seq<Event>)
    requires Inv(s) && Exact(s) && IsRun(s, es)
    ensures var s' := Run(s, es);
            && |s'.holding| == s'.current + Drift(s, es)
            && (|s'.holding| > s'.limit <==> Drift(s, es) > s'.limit - s'.current)
  {
    DriftRun(s, es);
  }

  lemma {:induction false} DriftRun(s: State, es: seq<Event>)
    requires Inv(s) && Distinct(s) && IsRun(s, es)
    ensures |Run(s, es).holding| - Run(s, es).current == |s.holding| - s.current + Drift(s, es)
    decreases |es|
  {
    if es != [] {
      StepKeeps(s, es[0]);
      DriftStep(s, es[0]);
      DriftRun(Step(s, es[0]), es[1..]);
    }
  }

  lemma RunHead(s: State, e: Event, es: seq<Event>)
    ensures Run(s, [e] + es) == Run(Step(s, e), es)
    ensures IsRun(s, [e] + es) <==> Possible(s, e) && IsRun(Step(s, e), es)
  {}

  /** One stray release is enough to let two callers share a limit of one. */
  lemma StrayOverbooks()
    ensures var es := [Enter(1)] + ([Stray(0)] + ([Enter(2)] + []));
            IsRun(Start(1), es) && Run(Start(1), es).holding == {1, 2}
  {
    var s := Start(1);
    RunHead(s, Enter(1), [Stray(0)] + ([Enter(2)] + []));
    RunHead(Step(s, Enter(1)), Stray(0), [Enter(2)] + []);
    RunHead(Step(Step(s, Enter(1)), Stray(0)), Enter(2), []);
  }

  // -------------------------------------------------------------------- progress

  /** Steps that need no new caller: resuming and releasing. */
  ghost predicate Draining(es: seq<Event>) { forall i :: 0 <= i < |es| ==> es[i].Resume? || es[i].Release? }

  ghost predicate Stuck(s: State) { forall e: Event :: e.Resume? || e.Release? ==> !Possible(s, e) }

  /** Every remaining step uses up some of it. */
  ghost function Work(s: State): nat { 4 * |s.sleeping| + 5 * |s.signalled| + 3 * |s.holding| }

  lemma StepShrinks(s: State, e: Event)
    requires Inv(s) && Exact(s) && Possible(s, e) && (e.Resume? || e.Release?)
    ensures Work(Step(s, e)) < Work(s)
    ensures s.sleeping + s.signalled + s.served <= Step(s, e).sleeping + Step(s, e).signalled + Step(s, e).served
  {
    Added(e.who, s.sleeping);
    Added(e.who, s.signalled);
    Added(e.who, s.holding);
    if e.Release? {
      Added(e.woken, s.sleeping);
      Added(e.woken, s.signalled);
    }
  }

  /** Once arrivals stop, every run is finite, and one that cannot be continued has
      served everybody: nobody is left asleep. */
  lemma {:induction false} EveryoneIsServed(s: State, es: seq<Event>)
    requires Inv(s) && Exact(s) && IsRun(s, es) && Draining(es)
    ensures |es| <= Work(s)
    ensures var s' := Run(s, es);
            Stuck(s') ==> s'.sleeping == {} && s'.signalled == {} && s'.holding == {} && s.sleeping + s.signalled <= s'.served
    decreases |es|
  {
    if es == [] {
      if Stuck(s) { Quiescent(s); }
    } else {
      var e, s1 := es[0], Step(s, es[0]);
      assert e.Resume? || e.Release?;
      StepShrinks(s, e);
      StepKeeps(s, e);
      StepKeepsExact(s, e);
      assert Draining(es[1..]);
      EveryoneIsServed(s1, es[1..]);
      ServedStay(s1, es[1..]);
    }
  }

  lemma {:induction false} ServedStay(s: State, es: seq<Event>)
    ensures s.served <= Run(s, es).served
    decreases |es|
  {
    if es != [] { ServedStay(Step(s, es[0]), es[1..]); }
  }

  lemma Quiescent(s: State)
    requires Inv(s) && Exact(s) && Stuck(s)
    ensures s.sleeping == {} && s.signalled == {} && s.holding == {}
  {
    assert s.signalled != {} ==> Possible(s, Resume(Any(s.signalled)));
    var w := if s.sleeping == {} then 0 else Any(s.sleeping);
    assert s.holding != {} ==> Possible(s, Release(Any(s.holding), w));
  }

  // ----------------------------------------------------------------- the object

  class Limiter {
    var limit: int
    var current: int
    var sleeping: set<int>
    var signalled: set<int>
    ghost var holding: set<int>
    ghost var served: set<int>

    ghost function View(): State
      reads this
    {
      State(limit, current, sleeping, signalled, holding, served)
    }

    constructor (n: int)
      ensures View() == Start(n)
    {
      limit := n;
      if n <= 0 { limit := 100; }
      current, sleeping, signalled, holding, served := 0, {}, {}, {}, {};
    }

    /** The critical section of Acquire up to the next wait or the return. */
    method Acquire(t: int) returns (acquired: bool)
      requires t !in sleeping
      modifies this
      ensures View() == Attempt(old(View()), t) && acquired == (old(current) < old(limit))
    {
      signalled := signalled - {t};
      if current >= limit {
        sleeping := sleeping + {t};
        return false;
      }
      current := current + 1;
      holding, served := holding + {t}, served + {t};
      return true;
    }

    /** Release by `t`, if it holds a slot; the signal picks `w` among the sleepers. */
    method Release(t: int, w: int)
      requires sleeping != {} ==> w in sleeping
      modifies this
      ensures View() == Step(old(View()), if t in old(holding) then Event.Release(t, w) else Stray(w))
    {
      if current > 0 { current := current - 1; }
      if sleeping != {} { sleeping, signalled := sleeping - {w}, signalled + {w}; }
      holding := holding - {t};
    }
  }
}
