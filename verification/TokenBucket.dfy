/** internal/scheduler/ratelimit/limiter.go: the token bucket, over real numbers
    and nanosecond instants. */
module TokenBucket {

  datatype Bucket = Bucket(rate: real, capacity: real, tokens: real, last: int)

  const SECOND := 1_000_000_000.0

  /** Tokens that accrue in a number of nanoseconds. */
  function Earned(rate: real, ns: int): real { ns as real / SECOND * rate }

  function Min(a: real, b: real): real { if a <= b then a else b }

  function Refill(b: Bucket, now: int): Bucket {
    b.(tokens := Min(b.tokens + Earned(b.rate, now - b.last), b.capacity), last := now)
  }

  function AllowN(b: Bucket, n: int, now: int): (Bucket, bool) {
    var r := Refill(b, now);
    if r.tokens >= n as real then (r.(tokens := r.tokens - n as real), true) else (r, false)
  }

  /** Go's conversion of the positive quotient to a duration drops the fraction. */
  function Wait(b: Bucket, n: int, now: int): (Bucket, int)
    requires b.rate != 0.0
  {
    var r := Refill(b, now);
    if r.tokens >= n as real then (r, 0) else (r, ((n as real - r.tokens) / r.rate * SECOND).Floor)
  }

  /** Zero or negative arguments select 1000 per second and twice the rate. */
  function Create(ratePerSec: int, capacity: int, now: int): (b: Bucket)
    ensures Valid(b) && b.tokens == b.capacity && b.last == now
    ensures ratePerSec > 0 ==> b.rate == ratePerSec as real
    ensures capacity > 0 ==> b.capacity == capacity as real
  {
    var rate := if ratePerSec <= 0 then 1000 else ratePerSec;
    var cap := if capacity <= 0 then rate * 2 else capacity;
    Bucket(rate as real, cap as real, cap as real, now)
  }

  predicate Valid(b: Bucket) { b.rate > 0.0 && 0.0 <= b.tokens <= b.capacity }

  /** The limiter object; the clock reading is passed in. */
  class Limiter {
    var rate: real
    var capacity: real
    var tokens: real
    var lastRefill: int

    function View(): Bucket
      reads this
    {
      Bucket(rate, capacity, tokens, lastRefill)
    }

    constructor (ratePerSec: int, cap: int, now: int)
      ensures View() == Create(ratePerSec, cap, now)
    {
      var r, c := ratePerSec, cap;
      if r <= 0 { r := 1000; }
      if c <= 0 { c := r * 2; }
      rate, capacity, tokens, lastRefill := r as real, c as real, c as real, now;
    }

    method DoRefill(now: int)
      modifies this
      ensures View() == Refill(old(View()), now)
    {
      var elapsed := (now - lastRefill) as real / SECOND;
      tokens := tokens + elapsed * rate;
      if tokens > capacity { tokens := capacity; }
      lastRefill := now;
    }

    method TryTake(n: int, now: int) returns (ok: bool)
      modifies this
      ensures (View(), ok) == AllowN(old(View()), n, now)
    {
      DoRefill(now);
      if tokens >= n as real {
        tokens := tokens - n as real;
        return true;
      }
      return false;
    }

    method WaitTime(n: int, now: int) returns (ns: int)
      requires rate != 0.0
      modifies this
      ensures (View(), ns) == Wait(old(View()), n, now)
    {
      DoRefill(now);
      if tokens >= n as real { return 0; }
      var needed := n as real - tokens;
      return (needed / rate * SECOND).Floor;
    }
  }

  // ------------------------------------------------------------------ arithmetic

  lemma EarnedAdds(rate: real, a: int, b: int)
    ensures Earned(rate, a) + Earned(rate, b) == Earned(rate, a + b)
  {}

  lemma EarnedGrows(rate: real, a: int, b: int)
    requires rate > 0.0 && a <= b
    ensures Earned(rate, a) <= Earned(rate, b)
  {}

  // ------------------------------------------------------------------------ runs

  /** A caller asks for tokens or for the waiting time. */
  datatype Event = Ask(n: nat, now: int) | Query(n: nat, now: int)

  function Step(b: Bucket, e: Event): Bucket
    requires b.rate > 0.0
  {
    match e
    case Ask(n, now) => AllowN(b, n, now).0
    case Query(n, now) => Wait(b, n, now).0
  }

  /** The tokens an event hands out. */
  function Grant(b: Bucket, e: Event): nat {
    if e.Ask? && AllowN(b, e.n, e.now).1 then e.n else 0
  }

  function Run(b: Bucket, es: seq<Event>): Bucket
    requires b.rate > 0.0
    decreases |es|
  {
    if es == [] then b else Run(Step(b, es[0]), es[1..])
  }

  function Grants(b: Bucket, es: seq<Event>): (gs: seq<nat>)
    requires b.rate > 0.0
    ensures |gs| == |es|
    decreases |es|
  {
    if es == [] then [] else [Grant(b, es[0])] + Grants(Step(b, es[0]), es[1..])
  }

  function Sum(gs: seq<nat>): nat { if gs == [] then 0 else gs[0] + Sum(gs[1..]) }

  /** The clock never runs backwards. */
  ghost predicate Monotone(t: int, es: seq<Event>)
    decreases |es|
  {
    es == [] || (t <= es[0].now && Monotone(es[0].now, es[1..]))
  }

  lemma StepKeeps(b: Bucket, e: Event)
    requires Valid(b) && b.last <= e.now
    ensures var b' := Step(b, e); Valid(b') && b'.last == e.now && b'.rate == b.rate && b'.capacity == b.capacity
    ensures Step(b, e).tokens == Refill(b, e.now).tokens - Grant(b, e) as real
  {}

  /** The bucket is never overdrawn and never above its capacity. */
  lemma {:induction false} RunKeeps(b: Bucket, es: seq<Event>)
    requires Valid(b) && Monotone(b.last, es)
    ensures var b' := Run(b, es); Valid(b') && b'.rate == b.rate && b'.capacity == b.capacity && b.last <= b'.last
    ensures es != [] ==> Run(b, es).last == es[|es| - 1].now
    decreases |es|
  {
    if es != [] {
      StepKeeps(b, es[0]);
      RunKeeps(Step(b, es[0]), es[1..]);
    }
  }

  /** What can still be granted at `now` in the window that opens at instant `t`
      and has seen the grants `gs`. */
  function Room(b: Bucket, t: int, gs: seq<nat>, now: int): real {
    b.capacity + Earned(b.rate, now - t) - Sum(gs) as real
  }

  /** What is left of the tokens the bucket started with. */
  function Rest(b: Bucket, gs: seq<nat>, now: int): real {
    b.tokens + Earned(b.rate, now - b.last) - Sum(gs) as real
  }

  lemma SumSplit(g: nat, gs: seq<nat>)
    ensures Sum([g] + gs) == g + Sum(gs)
  {}

  /** The room left at `now` by the window that opens with event j. */
  function Window(b: Bucket, es: seq<Event>, j: nat, now: int): real
    requires b.rate > 0.0 && j < |es|
  {
    Room(b, es[j].now, Grants(b, es)[j..], now)
  }

  ghost predicate FitsAll(b: Bucket, es: seq<Event>, now: int, n: real)
    requires b.rate > 0.0
  {
    forall j :: 0 <= j < |es| ==> n <= Window(b, es, j, now)
  }

  ghost predicate MeetsOne(b: Bucket, es: seq<Event>, now: int, n: real)
    requires b.rate > 0.0
  {
    exists j :: 0 <= j < |es| && n == Window(b, es, j, now)
  }

  /** After a run the tokens at `now` never exceed what any window since the start
      leaves room for, and one of these bounds is met exactly. */
  ghost predicate TokensAre(b: Bucket, es: seq<Event>, now: int, tokens: real)
    requires b.rate > 0.0
  {
    var rest := Rest(b, Grants(b, es), now);
    && tokens <= b.capacity && tokens <= rest && FitsAll(b, es, now, tokens)
    && (tokens == b.capacity || tokens == rest || MeetsOne(b, es, now, tokens))
  }

  lemma RestAfter(b: Bucket, e: Event, gs: seq<nat>, now: int)
    requires Valid(b) && b.last <= e.now
    ensures Rest(Step(b, e), gs, now) == Min(Rest(b, [Grant(b, e)] + gs, now), Room(b, e.now, [Grant(b, e)] + gs, now))
  {
    StepKeeps(b, e);
    SumSplit(Grant(b, e), gs);
    EarnedAdds(b.rate, e.now - b.last, now - e.now);
  }

  lemma RoomKept(b: Bucket, e: Event, t: int, gs: seq<nat>, now: int)
    requires Valid(b) && b.last <= e.now
    ensures Room(Step(b, e), t, gs, now) == Room(b, t, gs, now)
  {}

  lemma {:induction false} TokensAreLeastRoom(b: Bucket, es: seq<Event>, now: int)
    requires Valid(b) && Monotone(b.last, es) && Run(b, es).last <= now
    ensures TokensAre(b, es, now, Refill(Run(b, es), now).tokens)
    decreases |es|
  {
    if es != [] {
      var b1, rest := Step(b, es[0]), es[1..];
      var tokens := Refill(Run(b, es), now).tokens;
      StepKeeps(b, es[0]);
      TokensAreLeastRoom(b1, rest, now);
      TokensStep(b, es, now, tokens);
    }
  }

  /** Windows that open after the first event do not depend on it. */
  lemma WindowTail(b: Bucket, es: seq<Event>, j: nat, now: int)
    requires Valid(b) && j + 1 < |es| && b.last <= es[0].now && Step(b, es[0]).rate > 0.0
    ensures Window(b, es, j + 1, now) == Window(Step(b, es[0]), es[1..], j, now)
  {
    var b1 := Step(b, es[0]);
    RoomKept(b, es[0], es[j + 1].now, Grants(b1, es[1..])[j..], now);
    assert Grants(b, es)[j + 1..] == Grants(b1, es[1..])[j..];
  }

  lemma FirstWindow(b: Bucket, es: seq<Event>, now: int)
    requires b.rate > 0.0 && es != []
    ensures Window(b, es, 0, now) == Room(b, es[0].now, Grants(b, es), now)
  {
    assert Grants(b, es)[0..] == Grants(b, es);
  }

  lemma FitsStep(b: Bucket, es: seq<Event>, now: int, n: real)
    requires Valid(b) && es != [] && b.last <= es[0].now && Step(b, es[0]).rate > 0.0
    requires FitsAll(Step(b, es[0]), es[1..], now, n) && n <= Window(b, es, 0, now)
    ensures FitsAll(b, es, now, n)
  {
    forall j | 0 <= j < |es| ensures n <= Window(b, es, j, now) {
      if j > 0 { WindowTail(b, es, j - 1, now); }
    }
  }

  lemma MeetsStep(b: Bucket, es: seq<Event>, now: int, n: real)
    requires Valid(b) && es != [] && b.last <= es[0].now && Step(b, es[0]).rate > 0.0
    requires MeetsOne(Step(b, es[0]), es[1..], now, n)
    ensures MeetsOne(b, es, now, n)
  {
    var j :| 0 <= j < |es[1..]| && n == Window(Step(b, es[0]), es[1..], j, now);
    WindowTail(b, es, j, now);
  }

  lemma TokensStep(b: Bucket, es: seq<Event>, now: int, tokens: real)
    requires Valid(b) && es != [] && b.last <= es[0].now && Step(b, es[0]).rate > 0.0
    requires TokensAre(Step(b, es[0]), es[1..], now, tokens)
    ensures TokensAre(b, es, now, tokens)
  {
    var b1, rest := Step(b, es[0]), es[1..];
    StepKeeps(b, es[0]);
    RestAfter(b, es[0], Grants(b1, rest), now);
    FirstWindow(b, es, now);
    FitsStep(b, es, now, tokens);
    if MeetsOne(b1, rest, now, tokens) { MeetsStep(b, es, now, tokens); }
  }

  // ---------------------------------------------------------------- main results

  /** Over any stretch of any run, no more is granted than the capacity plus the
      rate times the length of the stretch. */
  lemma GrantedAtMost(b: Bucket, es: seq<Event>)
    requires Valid(b) && Monotone(b.last, es) && es != []
    ensures Sum(Grants(b, es)) as real <= b.capacity + Earned(b.rate, es[|es| - 1].now - es[0].now)
  {
    var b', now := Run(b, es), es[|es| - 1].now;
    RunKeeps(b, es);
    TokensAreLeastRoom(b, es, now);
    RefillNow(b');
    RoomOfFirst(b, es, now, b'.tokens);
  }

  lemma RoomOfFirst(b: Bucket, es: seq<Event>, now: int, tokens: real)
    requires b.rate > 0.0 && es != [] && tokens >= 0.0 && TokensAre(b, es, now, tokens)
    ensures Sum(Grants(b, es)) as real <= b.capacity + Earned(b.rate, now - es[0].now)
  {
    FirstWindow(b, es, now);
    assert tokens <= Window(b, es, 0, now);
  }

  lemma RefillNow(b: Bucket)
    requires Valid(b)
    ensures Refill(b, b.last) == b
  {}

  /** A fresh bucket grants a request exactly if every window, from its creation or
      any earlier call up to now, stays within capacity plus rate times length. */
  lemma GrantedIff(b: Bucket, es: seq<Event>, n: nat, now: int)
    requires Valid(b) && b.tokens == b.capacity && Monotone(b.last, es) && Run(b, es).last <= now
    ensures AllowN(Run(b, es), n, now).1
            <==> && n as real <= b.capacity
                 && n as real <= Room(b, b.last, Grants(b, es), now)
                 && FitsAll(b, es, now, n as real)
  {
    TokensAreLeastRoom(b, es, now);
    FitsIff(b, es, n as real, now, Refill(Run(b, es), now).tokens);
  }

  lemma FitsIff(b: Bucket, es: seq<Event>, n: real, now: int, tokens: real)
    requires b.rate > 0.0 && b.tokens == b.capacity && TokensAre(b, es, now, tokens)
    ensures n <= tokens
            <==> n <= b.capacity && n <= Room(b, b.last, Grants(b, es), now) && FitsAll(b, es, now, n)
  {
    if n <= tokens {
      forall j | 0 <= j < |es| ensures n <= Window(b, es, j, now) { assert tokens <= Window(b, es, j, now); }
    }
  }

  /** A request above the capacity is never granted. */
  lemma TooMuchIsNeverGranted(b: Bucket, es: seq<Event>, n: nat, now: int)
    requires Valid(b) && Monotone(b.last, es) && n as real > b.capacity
    ensures !AllowN(Run(b, es), n, now).1
  {
    RunKeeps(b, es);
  }

  /** Tokens of an untouched bucket a while after a refill. */
  lemma RefillLater(b: Bucket, now: int, later: int)
    requires Valid(b) && b.last <= now <= later
    ensures Refill(Refill(b, now), later) == Refill(b, later)
  {}

  lemma EarnedReaches(rate: real, needed: real, ns: int)
    requires rate > 0.0
    ensures Earned(rate, ns) >= needed <==> ns as real >= needed / rate * SECOND
  {}

  /** With no grants in between, a request within the capacity fails strictly before
      the announced wait is over, succeeds from one nanosecond after it on, and at
      the announced instant succeeds exactly if no fraction was dropped. */
  lemma WaitIsExact(b: Bucket, n: nat, now: int, later: int)
    requires Valid(b) && b.last <= now <= later && n as real <= b.capacity
    ensures var (b1, w) := Wait(b, n, now);
            var exact := (n as real - b1.tokens) / b.rate * SECOND;
            && (later < now + w ==> !AllowN(b1, n, later).1)
            && (later > now + w ==> AllowN(b1, n, later).1)
            && (later == now + w ==> (AllowN(b1, n, later).1 <==> b1.tokens >= n as real || exact == w as real))
  {
    var (b1, w) := Wait(b, n, now);
    EarnedReaches(b1.rate, n as real - b1.tokens, later - now);
    EarnedGrows(b1.rate, 0, later - now);
  }

  /** At three tokens a second the announced wait for one token falls short. */
  lemma WaitCanFallShort()
    ensures var b := Bucket(3.0, 6.0, 0.0, 0);
            var (b1, w) := Wait(b, 1, 0);
            w == 333_333_333 && !AllowN(b1, 1, w).1 && AllowN(b1, 1, w + 1).1
  {
    var b := Bucket(3.0, 6.0, 0.0, 0);
    assert Refill(b, 0) == b;
    assert 1.0 / 3.0 * SECOND == 1_000_000_000.0 / 3.0;
    assert Earned(3.0, 333_333_333) < 1.0 <= Earned(3.0, 333_333_334);
  }

  // -------------------------------------------------------- the LLM endpoint limit

  /** The bucket guarding the LLM endpoints for a limit of `rpm` requests a minute. */
  function ForRpm(rpm: int, now: int): Bucket
    requires rpm > 0
  {
    Create(rpm / 60, rpm, now)
  }

  /** The refill rate alone: it stays within the limit exactly from 60 requests a
      minute on, and below that it is 60000 a minute. */
  lemma SustainedRate(rpm: int, now: int)
    requires rpm > 0
    ensures var perMinute := ForRpm(rpm, now).rate * 60.0;
            && (perMinute <= rpm as real <==> rpm >= 60)
            && (perMinute == rpm as real <==> rpm % 60 == 0)
            && (rpm < 60 ==> perMinute == 60_000.0)
  {}

  /** The endpoints ask for one token for each request, and for nothing else. */
  ghost predicate Requests(es: seq<Event>) { forall i :: 0 <= i < |es| ==> es[i] == Ask(1, es[i].now) }

  /** Some run of requests from the bucket's creation has g of them granted within
      `length` nanoseconds. */
  ghost predicate CanGrant(rpm: int, start: int, length: nat, g: nat)
    requires rpm > 0
  {
    var b := ForRpm(rpm, start);
    exists before, es ::
      Requests(before) && Requests(es) && IsStretch(b, before, es, length) && Sum(Grants(Run(b, before), es)) == g
  }

  /** `es` follows `before` on a run and lasts at most `length` nanoseconds. */
  ghost predicate IsStretch(b: Bucket, before: seq<Event>, es: seq<Event>, length: nat)
    requires b.rate > 0.0
  {
    && Monotone(b.last, before) && Run(b, before).rate > 0.0 && Monotone(Run(b, before).last, es)
    && es != [] && es[|es| - 1].now - es[0].now <= length
  }

  /** n requests at one instant, and then `rest`. */
  function Burst(n: nat, now: int, rest: seq<Event>): (es: seq<Event>)
    ensures |es| == n + |rest|
  {
    if n == 0 then rest else [Ask(1, now)] + Burst(n - 1, now, rest)
  }

  /** Taking m tokens every period, and what the last, shorter one has earned. */
  function Drip(rate: real, start: int, period: int, m: nat, length: nat): seq<Event>
    requires period > 0 && rate > 0.0
    decreases length
  {
    if length < period then Burst(Whole(Earned(rate, length)), start + length, [])
    else Burst(m, start + period, Drip(rate, start + period, period, m, length - period))
  }

  /** All requests of es lie between the two instants, in order. */
  ghost predicate Within(es: seq<Event>, t: int, end: int) {
    Monotone(t, es) && Requests(es) && forall i :: 0 <= i < |es| ==> es[i].now <= end
  }

  lemma {:induction false} BurstWithin(n: nat, now: int, rest: seq<Event>, t: int, end: int)
    requires Within(rest, now, end) && t <= now <= end
    ensures Within(Burst(n, now, rest), t, end)
    decreases n
  {
    if n == 0 {
      Earlier(rest, now, t);
    } else {
      BurstWithin(n - 1, now, rest, now, end);
    }
  }

  lemma Earlier(es: seq<Event>, now: int, t: int)
    requires Monotone(now, es) && t <= now
    ensures Monotone(t, es)
  {}

  /** The bucket at `now` with n tokens less than it then has. */
  function Spent(b: Bucket, n: nat, now: int): Bucket { var r := Refill(b, now); r.(tokens := r.tokens - n as real) }

  lemma TakeOne(b: Bucket, n: nat, now: int)
    requires Valid(b) && b.last <= now && n > 0 && Refill(b, now).tokens >= n as real
    ensures AllowN(b, 1, now) == (Spent(b, 1, now), true)
    ensures var b1 := Spent(b, 1, now);
            && Valid(b1) && b1.last == now && Refill(b1, now).tokens >= (n - 1) as real
            && Spent(b1, n - 1, now) == Spent(b, n, now)
  {
    var b1 := Spent(b, 1, now);
    EarnedGrows(b.rate, 0, now - b.last);
    RefillNow(b1);
  }

  /** n single requests are granted exactly as one request for n tokens would be. */
  lemma {:induction false} BurstGrants(b: Bucket, n: nat, now: int, rest: seq<Event>)
    requires Valid(b) && b.last <= now && Refill(b, now).tokens >= n as real && n > 0
    ensures Spent(b, n, now).rate > 0.0
    ensures Sum(Grants(b, Burst(n, now, rest))) == n + Sum(Grants(Spent(b, n, now), rest))
    decreases n
  {
    var b1, es := Spent(b, 1, now), Burst(n, now, rest);
    TakeOne(b, n, now);
    assert es[1..] == Burst(n - 1, now, rest);
    SumSplit(1, Grants(b1, es[1..]));
    if n > 1 { BurstGrants(b1, n - 1, now, rest); }
  }

  /** The whole tokens in an amount. */
  function Whole(x: real): nat { if x < 0.0 then 0 else x.Floor }

  lemma WholeAdds(m: nat, x: real)
    requires x >= 0.0
    ensures Whole(m as real + x) == m + Whole(x)
  {}

  lemma {:induction false} DripTimes(rate: real, start: int, period: int, m: nat, length: nat)
    requires rate > 0.0 && period > 0
    ensures Within(Drip(rate, start, period, m, length), start, start + length)
    decreases length
  {
    if length < period {
      BurstWithin(Whole(Earned(rate, length)), start + length, [], start, start + length);
    } else {
      var rest := Drip(rate, start + period, period, m, length - period);
      DripTimes(rate, start + period, period, m, length - period);
      BurstWithin(m, start + period, rest, start, start + length);
    }
  }

  lemma DripTakes(b: Bucket, m: nat, period: int)
    requires Valid(b) && b.tokens == 0.0 && period > 0 && Earned(b.rate, period) == m as real <= b.capacity
    ensures Refill(b, b.last + period).tokens == m as real
    ensures Spent(b, m, b.last + period) == b.(last := b.last + period)
  {}

  lemma DripEnds(b: Bucket, m: nat, period: int, length: nat)
    requires Valid(b) && b.tokens == 0.0 && length < period && Earned(b.rate, period) == m as real <= b.capacity
    ensures Refill(b, b.last + length).tokens >= Whole(Earned(b.rate, length)) as real
  {
    EarnedGrows(b.rate, length, period);
    EarnedGrows(b.rate, 0, length);
  }

  lemma LastDrip(b: Bucket, m: nat, period: int, length: nat)
    requires Valid(b) && b.tokens == 0.0 && length < period && Earned(b.rate, period) == m as real <= b.capacity
    ensures var n := Whole(Earned(b.rate, length)); Sum(Grants(b, Burst(n, b.last + length, []))) == n
  {
    var n := Whole(Earned(b.rate, length));
    DripEnds(b, m, period, length);
    if n > 0 { BurstGrants(b, n, b.last + length, []); }
  }

  lemma NextDrip(b: Bucket, m: nat, period: int, rest: seq<Event>)
    requires Valid(b) && b.tokens == 0.0 && period > 0 && Earned(b.rate, period) == m as real <= b.capacity && m > 0
    ensures var now := b.last + period;
            Sum(Grants(b, Burst(m, now, rest))) == m + Sum(Grants(b.(last := now), rest))
  {
    DripTakes(b, m, period);
    BurstGrants(b, m, b.last + period, rest);
  }

  /** From an empty bucket the drip takes everything that accrues, but a fraction. */
  lemma {:induction false} DripGrants(b: Bucket, period: int, m: nat, length: nat)
    requires Valid(b) && b.tokens == 0.0 && period > 0 && Earned(b.rate, period) == m as real <= b.capacity && m > 0
    ensures Sum(Grants(b, Drip(b.rate, b.last, period, m, length))) == Whole(Earned(b.rate, length))
    decreases length
  {
    if length < period {
      LastDrip(b, m, period, length);
    } else {
      var rest := Drip(b.rate, b.last + period, period, m, length - period);
      assert Sum(Grants(b, Burst(m, b.last + period, rest))) == Whole(Earned(b.rate, length)) by {
        DripGrants(b.(last := b.last + period), period, m, length - period);
        NextDrip(b, m, period, rest);
        WholeEarned(b.rate, period, m, length);
      }
    }
  }

  lemma WholeEarned(rate: real, period: int, m: nat, length: nat)
    requires rate > 0.0 && 0 < period <= length && Earned(rate, period) == m as real
    ensures Whole(Earned(rate, length)) == m + Whole(Earned(rate, length - period))
  {
    EarnedAdds(rate, period, length - period);
    EarnedGrows(rate, 0, length - period);
    WholeAdds(m, Earned(rate, length - period));
  }

  /** A period after which a whole number of tokens, at most the capacity, has accrued. */
  lemma WholePeriod(rpm: int, start: int) returns (period: int, m: nat)
    requires rpm > 0
    ensures var b := ForRpm(rpm, start);
            period > 0 && m > 0 && Earned(b.rate, period) == m as real <= b.capacity
  {
    if rpm >= 60 {
      period, m := 1_000_000_000, rpm / 60;
    } else {
      period, m := 1_000_000, 1;
    }
  }

  /** The whole first burst at once, then everything that accrues. */
  lemma BurstThenDrip(rpm: int, start: int, length: nat)
    requires rpm > 0
    ensures CanGrant(rpm, start, length, rpm + Whole(Earned(ForRpm(rpm, start).rate, length)))
  {
    var b := ForRpm(rpm, start);
    var period, m := WholePeriod(rpm, start);
    var drip := Drip(b.rate, start, period, m, length);
    var es := Burst(rpm, start, drip);
    assert Refill(b, start) == b by { RefillNow(b); }
    BurstGrants(b, rpm, start, drip);
    DripGrants(b.(tokens := 0.0), period, m, length);
    DripTimes(b.rate, start, period, m, length);
    BurstWithin(rpm, start, drip, start, start + length);
    assert IsStretch(b, [], es, length) && Run(b, []) == b;
  }

  /** The most requests that can be granted in any stretch of that length, exactly: the
      limit once at a burst, plus what accrues meanwhile. */
  lemma MostGranted(rpm: int, start: int, length: nat, g: nat)
    requires rpm > 0
    ensures var most := rpm + Whole(Earned(ForRpm(rpm, start).rate, length));
            CanGrant(rpm, start, length, most) && (CanGrant(rpm, start, length, g) ==> g <= most)
  {
    BurstThenDrip(rpm, start, length);
    if CanGrant(rpm, start, length, g) {
      var b := ForRpm(rpm, start);
      var before: seq<Event>, es: seq<Event> :|
        Requests(before) && Requests(es) && IsStretch(b, before, es, length) && Sum(Grants(Run(b, before), es)) == g;
      StretchGrants(b, before, es, length, g);
      AtMostWhole(rpm, Earned(b.rate, length), g);
    }
  }

  lemma StretchGrants(b: Bucket, before: seq<Event>, es: seq<Event>, length: nat, g: nat)
    requires Valid(b) && IsStretch(b, before, es, length) && Sum(Grants(Run(b, before), es)) == g
    ensures g as real <= b.capacity + Earned(b.rate, length)
  {
    RunKeeps(b, before);
    GrantedAtMost(Run(b, before), es);
    EarnedGrows(b.rate, es[|es| - 1].now - es[0].now, length);
  }

  lemma AtMostWhole(n: int, x: real, g: nat)
    requires n > 0 && g as real <= n as real + x
    ensures g <= n + Whole(x)
  {}

  /** No run is granted more than `rpm` requests within `length` nanoseconds. */
  ghost predicate LimitHolds(rpm: int, start: int, length: nat)
    requires rpm > 0
  {
    forall g: nat :: CanGrant(rpm, start, length, g) ==> g <= rpm
  }

  lemma WholeIsZeroIff(x: real)
    requires x >= 0.0
    ensures Whole(x) == 0 <==> x < 1.0
  {}

  lemma EarnsEverySecond(rpm: int, start: int, length: nat)
    requires rpm > 0 && length >= 1_000_000_000
    ensures Earned(ForRpm(rpm, start).rate, length) >= 1.0
  {
    var rate, second := ForRpm(rpm, start).rate, 1_000_000_000;
    EarnedGrows(rate, second, length);
    assert Earned(rate, second) == rate >= 1.0;
  }

  /** The limit holds over a stretch exactly if no token accrues in it; over a minute,
      or even a second, it holds for no setting. */
  lemma LimitHoldsIff(rpm: int, start: int, length: nat)
    requires rpm > 0
    ensures LimitHolds(rpm, start, length) <==> Earned(ForRpm(rpm, start).rate, length) < 1.0
    ensures length >= 1_000_000_000 ==> !LimitHolds(rpm, start, length)
  {
    var rate := ForRpm(rpm, start).rate;
    var extra := Whole(Earned(rate, length));
    EarnedGrows(rate, 0, length);
    WholeIsZeroIff(Earned(rate, length));
    MostGranted(rpm, start, length, 0);
    forall g: nat | CanGrant(rpm, start, length, g) ensures g <= rpm + extra { MostGranted(rpm, start, length, g); }
    assert LimitHolds(rpm, start, length) <==> extra == 0 by {
      var most: nat := rpm + extra;
      assert CanGrant(rpm, start, length, most);
    }
    if length >= 1_000_000_000 { EarnsEverySecond(rpm, start, length); }
  }
}
