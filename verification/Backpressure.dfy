/** internal/scheduler/ratelimit/backpressure.go: the load controller that
    decides whether a trigger scan may start. Ratios are exact reals. */
module Backpressure {
  import opened Common

  datatype Pressure = Green | Yellow | Red

  datatype Config = Config(maxPending: int, yellowRatio: real, redRatio: real, maxWorkerLoad: real)

  /** The thresholds after NewBackpressureController has replaced the non-positive ones. */
  function Normalized(cfg: Config): (c: Config)
    ensures Usable(c)
    ensures Usable(cfg) ==> c == cfg
  {
    Config(
      if cfg.maxPending <= 0 then 1000 else cfg.maxPending,
      if cfg.yellowRatio <= 0.0 then 0.7 else cfg.yellowRatio,
      if cfg.redRatio <= 0.0 then 0.9 else cfg.redRatio,
      if cfg.maxWorkerLoad <= 0.0 then 0.85 else cfg.maxWorkerLoad)
  }

  predicate Usable(c: Config) {
    c.maxPending > 0 && c.yellowRatio > 0.0 && c.redRatio > 0.0 && c.maxWorkerLoad > 0.0
  }

  function PendingPressure(c: Config, count: int): Pressure
    requires c.maxPending > 0
  {
    var ratio := count as real / c.maxPending as real;
    if ratio >= c.redRatio then Red
    else if ratio >= c.yellowRatio then Yellow
    else Green
  }

  /** A scan is refused exactly when the pending count has reached its red threshold. */
  lemma RedThreshold(c: Config, count: int)
    requires c.maxPending > 0
    ensures PendingPressure(c, count) == Red <==> count as real >= c.redRatio * c.maxPending as real
  {}

  /** Yellow covers what lies below the red threshold and at or above the yellow one. */
  lemma YellowThreshold(c: Config, count: int)
    requires c.maxPending > 0
    ensures PendingPressure(c, count) == Yellow <==>
            c.yellowRatio * c.maxPending as real <= count as real < c.redRatio * c.maxPending as real
  {
    RedThreshold(c, count);
    RedThreshold(c.(redRatio := c.yellowRatio), count);
  }

  function Total(loads: map<int, int>): int {
    if loads == map[] then 0
    else
      var k := Least(loads.Keys);
      loads[k] + Total(loads - {k})
  }

  /** Every load is added once, in whatever order they are taken. */
  lemma {:induction false} TotalOf(loads: map<int, int>, k: int)
    requires k in loads
    ensures Total(loads) == loads[k] + Total(loads - {k})
    decreases |loads|
  {
    var m := Least(loads.Keys);
    if m != k {
      var rest, others := loads - {m}, loads - {k};
      TotalOf(rest, k);
      assert m in others.Keys && Least(others.Keys) == m;
      assert rest - {k} == others - {m};
    }
  }

  function LoadPressure(c: Config, state: Pressure, loads: map<int, int>, maxConcurrency: int): Pressure {
    if maxConcurrency <= 0 || |loads| == 0 then state
    else
      var ratio := (Total(loads) as real / |loads| as real) / maxConcurrency as real;
      if ratio >= c.maxWorkerLoad then Red
      else if ratio >= c.maxWorkerLoad * 0.8 && state == Green then Yellow
      else state
  }

  /** A load report never lowers the pressure. */
  lemma LoadNeverRelaxes(c: Config, state: Pressure, loads: map<int, int>, maxConcurrency: int)
    ensures var after := LoadPressure(c, state, loads, maxConcurrency);
            && (state == Red ==> after == Red)
            && (state == Yellow ==> after != Green)
  {}

  /** What the controller is told: a pending count, or the loads of the workers. */
  datatype Signal = Counted(count: int) | Loaded(loads: map<int, int>, maxConcurrency: int)

  function After(c: Config, state: Pressure, sig: Signal): Pressure
    requires c.maxPending > 0
  {
    match sig
    case Counted(count) => PendingPressure(c, count)
    case Loaded(loads, max) => LoadPressure(c, state, loads, max)
  }

  /** The state after all signals, the last one last. */
  function StateAfter(c: Config, sigs: seq<Signal>): Pressure
    requires c.maxPending > 0
  {
    if sigs == [] then Green else After(c, StateAfter(c, sigs[..|sigs| - 1]), sigs[|sigs| - 1])
  }

  /** The signal alone is reason enough to refuse. */
  ghost predicate Overloaded(c: Config, sig: Signal)
    requires c.maxPending > 0
  {
    match sig
    case Counted(count) => count as real >= c.redRatio * c.maxPending as real
    case Loaded(loads, max) =>
      max > 0 && |loads| > 0 && Total(loads) as real >= c.maxWorkerLoad * (|loads| as real * max as real)
  }

  /** Some signal was reason to refuse, and no pending count has come in since. */
  ghost predicate Refusing(c: Config, sigs: seq<Signal>)
    requires c.maxPending > 0
  {
    exists j :: 0 <= j < |sigs| && Overloaded(c, sigs[j]) && forall i :: j < i < |sigs| ==> sigs[i].Loaded?
  }

  lemma AverageIs(total: int, n: int, max: int, bound: real)
    requires n > 0 && max > 0
    ensures (total as real / n as real) / max as real >= bound <==> total as real >= bound * (n as real * max as real)
  {
    var x, k, m := total as real, n as real, max as real;
    assert k * m > 0.0;
    assert (x / k) / m * (k * m) == x;
    var r := (x / k) / m;
    assert r >= bound <==> (r - bound) * (k * m) >= 0.0;
    assert (r - bound) * (k * m) == r * (k * m) - bound * (k * m);
  }

  lemma RedAfter(c: Config, state: Pressure, sig: Signal)
    requires c.maxPending > 0
    ensures After(c, state, sig) == Red <==> Overloaded(c, sig) || (sig.Loaded? && state == Red)
  {
    match sig
    case Counted(count) => RedThreshold(c, count);
    case Loaded(loads, max) =>
      if max > 0 && |loads| > 0 { AverageIs(Total(loads), |loads|, max, c.maxWorkerLoad); }
  }

  lemma RefusingStep(c: Config, sigs: seq<Signal>)
    requires c.maxPending > 0 && sigs != []
    ensures var front, last := sigs[..|sigs| - 1], sigs[|sigs| - 1];
            Refusing(c, sigs) <==> Overloaded(c, last) || (last.Loaded? && Refusing(c, front))
  {
    var front, last := sigs[..|sigs| - 1], sigs[|sigs| - 1];
    if Overloaded(c, last) {
      assert Overloaded(c, sigs[|sigs| - 1]);
    } else if Refusing(c, sigs) {
      var j :| 0 <= j < |sigs| && Overloaded(c, sigs[j]) && forall i :: j < i < |sigs| ==> sigs[i].Loaded?;
      assert front[j] == sigs[j];
      assert sigs[|sigs| - 1].Loaded?;
    } else if last.Loaded? && Refusing(c, front) {
      var j :| 0 <= j < |front| && Overloaded(c, front[j]) && forall i :: j < i < |front| ==> front[i].Loaded?;
      assert sigs[j] == front[j];
      assert forall i :: j < i < |sigs| ==> sigs[i] == if i < |front| then front[i] else last;
    }
  }

  /** Over any sequence of signals the controller is red exactly if some overload has
      not been followed by a pending count. */
  lemma {:induction false} RedIff(c: Config, sigs: seq<Signal>)
    requires c.maxPending > 0
    ensures StateAfter(c, sigs) == Red <==> Refusing(c, sigs)
  {
    if sigs != [] {
      var front := sigs[..|sigs| - 1];
      RedIff(c, front);
      RedAfter(c, StateAfter(c, front), sigs[|sigs| - 1]);
      RefusingStep(c, sigs);
    }
  }

  class Controller {
    const config: Config
    var state: Pressure
    var pendingCount: int
    var workerLoads: map<int, int>
    ghost var signals: seq<Signal>

    /** The state is what the signals so far have made of it. */
    ghost predicate Valid()
      reads this
    {
      Usable(config) && state == StateAfter(config, signals)
    }

    constructor (cfg: Config)
      ensures Valid() && config == Normalized(cfg) && signals == []
    {
      config := Normalized(cfg);
      state := Green;
      pendingCount := 0;
      workerLoads := map[];
      signals := [];
    }

    method UpdatePending(count: int)
      requires Valid()
      modifies this
      ensures Valid() && signals == old(signals) + [Counted(count)] && state == PendingPressure(config, count)
      ensures pendingCount == count && workerLoads == old(workerLoads)
    {
      pendingCount := count;
      var ratio := count as real / config.maxPending as real;
      if ratio >= config.redRatio {
        state := Red;
      } else if ratio >= config.yellowRatio {
        state := Yellow;
      } else {
        state := Green;
      }
      signals := signals + [Counted(count)];
    }

    method UpdateWorkerLoad(loads: map<int, int>, maxConcurrency: int)
      requires Valid()
      modifies this
      ensures Valid() && signals == old(signals) + [Loaded(loads, maxConcurrency)]
      ensures workerLoads == loads && pendingCount == old(pendingCount)
    {
      ghost var before := signals;
      workerLoads := loads;
      signals := signals + [Loaded(loads, maxConcurrency)];
      assert signals[..|signals| - 1] == before;
      if maxConcurrency <= 0 { return; }
      var total, rest := 0, loads;
      while rest != map[]
        invariant total + Total(rest) == Total(loads)
        decreases |rest|
      {
        var k := Least(rest.Keys);
        total, rest := total + rest[k], rest - {k};
      }
      if |loads| == 0 { return; }
      var avgLoad := total as real / |loads| as real;
      var avgRatio := avgLoad / maxConcurrency as real;
      if avgRatio >= config.maxWorkerLoad {
        state := Red;
      } else if avgRatio >= config.maxWorkerLoad * 0.8 {
        if state == Green { state := Yellow; }
      }
    }

    /** Dispatch is refused exactly if an overload has not been followed by a pending
        count: once red, only a pending count below the threshold opens the gate again. */
    method AllowDispatch() returns (allowed: bool)
      requires Valid()
      ensures allowed <==> !Refusing(config, signals)
      ensures allowed <==> state != Red
    {
      RedIff(config, signals);
      allowed := state != Red;
    }
  }
}
