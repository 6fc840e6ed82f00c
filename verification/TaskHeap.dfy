/** internal/scheduler/engine/heap.go and the heap half of engine.go: entries with
    trigger times, pushed with the standard library's sift-up and drained in place. */
module TaskHeap {

  datatype Item = Item(task: int, time: int)

  // ------------------------------------------------------------------ in sequences

  function Parent(j: nat): nat { if j == 0 then 0 else (j - 1) / 2 }

  function Swap(s: seq<Item>, i: nat, j: nat): seq<Item>
    requires i < |s| && j < |s|
  {
    s[i := s[j]][j := s[i]]
  }

  /** Moving entry j up while it is earlier than its parent. */
  function Up(s: seq<Item>, j: nat): (r: seq<Item>)
    requires j < |s|
    ensures |r| == |s|
    decreases j
  {
    var i := Parent(j);
    if i == j || s[j].time >= s[i].time then s else Up(Swap(s, i, j), i)
  }

  function Pushed(s: seq<Item>, x: Item): seq<Item> { Up(s + [x], |s|) }

  function Due(s: seq<Item>, cutoff: int): (r: seq<Item>)
    ensures forall i :: 0 <= i < |r| ==> r[i].time <= cutoff
  {
    if s == [] then []
    else Due(s[..|s| - 1], cutoff) + (if s[|s| - 1].time > cutoff then [] else [s[|s| - 1]])
  }

  function Later(s: seq<Item>, cutoff: int): (r: seq<Item>)
    ensures |r| <= |s| && forall i :: 0 <= i < |r| ==> r[i].time > cutoff
  {
    if s == [] then []
    else Later(s[..|s| - 1], cutoff) + (if s[|s| - 1].time > cutoff then [s[|s| - 1]] else [])
  }

  lemma SwapKeeps(s: seq<Item>, i: nat, j: nat)
    requires i < |s| && j < |s|
    ensures multiset(Swap(s, i, j)) == multiset(s)
  {}

  lemma {:induction false} UpKeeps(s: seq<Item>, j: nat)
    requires j < |s|
    ensures multiset(Up(s, j)) == multiset(s)
    decreases j
  {
    var i := Parent(j);
    if i != j && s[j].time < s[i].time {
      SwapKeeps(s, i, j);
      UpKeeps(Swap(s, i, j), i);
    }
  }

  lemma PushedKeeps(s: seq<Item>, x: Item)
    ensures multiset(Pushed(s, x)) == multiset(s) + multiset{x}
  {
    UpKeeps(s + [x], |s|);
  }

  lemma CountEnd(s: seq<Item>, y: Item, x: Item)
    ensures multiset(s + [y])[x] == multiset(s)[x] + if x == y then 1 else 0
  {}

  lemma {:induction false} DueCounts(s: seq<Item>, cutoff: int, x: Item)
    ensures multiset(Due(s, cutoff))[x] == if x.time <= cutoff then multiset(s)[x] else 0
  {
    if s != [] {
      var front, last := s[..|s| - 1], s[|s| - 1];
      DueCounts(front, cutoff, x);
      assert s == front + [last];
      CountEnd(front, last, x);
      if last.time <= cutoff { CountEnd(Due(front, cutoff), last, x); }
    }
  }

  lemma {:induction false} LaterCounts(s: seq<Item>, cutoff: int, x: Item)
    ensures multiset(Later(s, cutoff))[x] == if x.time <= cutoff then 0 else multiset(s)[x]
  {
    if s != [] {
      var front, last := s[..|s| - 1], s[|s| - 1];
      LaterCounts(front, cutoff, x);
      assert s == front + [last];
      CountEnd(front, last, x);
      if last.time > cutoff { CountEnd(Later(front, cutoff), last, x); }
    }
  }

  lemma DrainCounts(s: seq<Item>, cutoff: int, x: Item)
    ensures multiset(Due(s, cutoff))[x] == if x.time <= cutoff then multiset(s)[x] else 0
    ensures multiset(Later(s, cutoff))[x] == if x.time <= cutoff then 0 else multiset(s)[x]
  {
    DueCounts(s, cutoff, x);
    LaterCounts(s, cutoff, x);
  }

  lemma DrainEnd(s: seq<Item>, i: nat, cutoff: int)
    requires i < |s|
    ensures Due(s[..i + 1], cutoff) == Due(s[..i], cutoff) + (if s[i].time > cutoff then [] else [s[i]])
    ensures Later(s[..i + 1], cutoff) == Later(s[..i], cutoff) + (if s[i].time > cutoff then [s[i]] else [])
  {
    assert s[..i + 1][..i] == s[..i];
  }

  /** The drain splits the entries by their time, conserving every one of them. */
  lemma DrainSplits(s: seq<Item>, cutoff: int)
    ensures multiset(Due(s, cutoff)) + multiset(Later(s, cutoff)) == multiset(s)
  {
    forall x ensures multiset(Due(s, cutoff))[x] + multiset(Later(s, cutoff))[x] == multiset(s)[x] {
      DrainCounts(s, cutoff, x);
    }
  }

  /** Draining keeps the order: it acts on any two stretches separately. */
  lemma {:induction false} DrainKeepsOrder(a: seq<Item>, b: seq<Item>, cutoff: int)
    ensures Due(a + b, cutoff) == Due(a, cutoff) + Due(b, cutoff)
    ensures Later(a + b, cutoff) == Later(a, cutoff) + Later(b, cutoff)
    decreases |b|
  {
    if b == [] {
      assert a + b == a;
    } else {
      var front := b[..|b| - 1];
      assert (a + b)[..|a + b| - 1] == a + front;
      DrainKeepsOrder(a, front, cutoff);
    }
  }

  // ------------------------------------------------------------------ heap shape

  predicate Shaped(s: seq<Item>) { forall k :: 0 <= k < |s| ==> s[Parent(k)].time <= s[k].time }

  /** Shaped but for entry j, whose children are not before its parent either. */
  predicate ShapedBut(s: seq<Item>, j: nat) {
    && (forall k :: 0 <= k < |s| && k != j ==> s[Parent(k)].time <= s[k].time)
    && (forall k :: 0 < k < |s| && Parent(k) == j && Parent(j) < |s| ==> s[Parent(j)].time <= s[k].time)
  }

  lemma SwapOrders(s: seq<Item>, j: nat, k: nat)
    requires 0 < j < |s| && k < |s| && k != Parent(j) && ShapedBut(s, j) && s[j].time < s[Parent(j)].time
    ensures var r := Swap(s, Parent(j), j); r[Parent(k)].time <= r[k].time
  {
    assert k != j ==> s[Parent(k)].time <= s[k].time;
  }

  lemma SwapClears(s: seq<Item>, j: nat, k: nat)
    requires 0 < j < |s| && 0 < k < |s| && Parent(k) == Parent(j) && ShapedBut(s, j) && s[j].time < s[Parent(j)].time
    ensures var i := Parent(j); var r := Swap(s, i, j); r[Parent(i)].time <= r[k].time
  {
    var i := Parent(j);
    assert i > 0 ==> s[Parent(i)].time <= s[i].time;
    assert k != j ==> s[i].time <= s[k].time;
  }

  lemma SwapShapes(s: seq<Item>, j: nat)
    requires 0 < j < |s| && ShapedBut(s, j) && s[j].time < s[Parent(j)].time
    ensures ShapedBut(Swap(s, Parent(j), j), Parent(j))
  {
    var i := Parent(j);
    var r := Swap(s, i, j);
    forall k | 0 <= k < |r| && k != i ensures r[Parent(k)].time <= r[k].time { SwapOrders(s, j, k); }
    forall k | 0 < k < |r| && Parent(k) == i ensures r[Parent(i)].time <= r[k].time { SwapClears(s, j, k); }
  }

  lemma {:induction false} UpShapes(s: seq<Item>, j: nat)
    requires j < |s| && ShapedBut(s, j)
    ensures Shaped(Up(s, j))
    decreases j
  {
    var i := Parent(j);
    if i != j && s[j].time < s[i].time {
      SwapShapes(s, j);
      UpShapes(Swap(s, i, j), i);
    }
  }

  /** Pushing keeps the heap shape. */
  lemma PushedShapes(s: seq<Item>, x: Item)
    requires Shaped(s)
    ensures Shaped(Pushed(s, x))
  {
    var t := s + [x];
    forall k | 0 <= k < |t| && k != |s| ensures t[Parent(k)].time <= t[k].time {
      assert t[k] == s[k] && t[Parent(k)] == s[Parent(k)];
    }
    UpShapes(t, |s|);
  }

  /** In a heap the front entry is the earliest. */
  lemma {:induction false} FrontIsEarliest(s: seq<Item>, k: nat)
    requires Shaped(s) && k < |s|
    ensures s[0].time <= s[k].time
    decreases k
  {
    if k > 0 { FrontIsEarliest(s, Parent(k)); }
  }

  // ------------------------------------------------------------- after a drain

  lemma HeapFront(s: seq<Item>)
    requires Shaped(s)
    ensures FrontFirst(s)
  {
    forall x | x in s ensures s[0].time <= x.time {
      var k :| 0 <= k < |s| && s[k] == x;
      FrontIsEarliest(s, k);
    }
  }

  /** What Peek's answer is meant to be: no entry comes before the front one. */
  predicate FrontFirst(s: seq<Item>) { forall x :: x in s ==> s[0].time <= x.time }

  /** The index of the first entry a drain keeps, or the length if it keeps none. */
  function FirstKept(s: seq<Item>, cutoff: int): (i: nat)
    ensures i <= |s| && (i < |s| ==> s[i].time > cutoff) && forall k :: 0 <= k < i ==> s[k].time <= cutoff
  {
    if s == [] then 0
    else
      var i := FirstKept(s[..|s| - 1], cutoff);
      if i < |s| - 1 || s[i].time > cutoff then i else |s|
  }

  /** A kept entry whose parent is drained, or that has none. */
  predicate TopKept(s: seq<Item>, r: nat, cutoff: int) {
    r < |s| && s[r].time > cutoff && (r == 0 || s[Parent(r)].time <= cutoff)
  }

  /** Of the kept entries without a kept parent, none comes before the first. */
  predicate TopsFollow(s: seq<Item>, cutoff: int) {
    var i := FirstKept(s, cutoff);
    i < |s| ==> forall r: nat :: r < |s| && TopKept(s, r, cutoff) ==> s[i].time <= s[r].time
  }

  lemma {:induction false} FrontOfKept(s: seq<Item>, cutoff: int)
    ensures var i, kept := FirstKept(s, cutoff), Later(s, cutoff);
            if i < |s| then kept != [] && kept[0] == s[i] else kept == []
  {
    if s != [] { FrontOfKept(s[..|s| - 1], cutoff); }
  }

  lemma KeptAre(s: seq<Item>, cutoff: int, x: Item)
    ensures x in Later(s, cutoff) <==> x in s && x.time > cutoff
  {
    DrainCounts(s, cutoff, x);
    assert x in Later(s, cutoff) <==> x in multiset(Later(s, cutoff));
    assert x in s <==> x in multiset(s);
  }

  /** Above every kept entry of a heap there is one without a kept parent. */
  lemma {:induction false} TopAbove(s: seq<Item>, cutoff: int, k: nat) returns (r: nat)
    requires Shaped(s) && k < |s| && s[k].time > cutoff
    ensures r < |s| && TopKept(s, r, cutoff) && s[r].time <= s[k].time
    decreases k
  {
    r := k;
    if k > 0 && s[Parent(k)].time > cutoff { r := TopAbove(s, cutoff, Parent(k)); }
  }

  /** After draining a heap the front entry is the earliest exactly if, before it, the
      first kept entry came before every kept entry without a kept parent. */
  lemma FrontFirstIff(s: seq<Item>, cutoff: int)
    requires Shaped(s)
    ensures FrontFirst(Later(s, cutoff)) <==> TopsFollow(s, cutoff)
  {
    var i, kept := FirstKept(s, cutoff), Later(s, cutoff);
    FrontOfKept(s, cutoff);
    if TopsFollow(s, cutoff) {
      forall x | x in kept ensures kept[0].time <= x.time {
        KeptAre(s, cutoff, x);
        var k :| 0 <= k < |s| && s[k] == x;
        var r := TopAbove(s, cutoff, k);
      }
    } else {
      var r: nat :| r < |s| && TopKept(s, r, cutoff) && s[r].time < s[i].time;
      KeptAre(s, cutoff, s[r]);
    }
  }

  /** A heap whose drain leaves a later entry in front, and no heap. */
  lemma DrainLosesShape()
    ensures var s := [Item(1, 1), Item(2, 3), Item(3, 2)];
            Shaped(s) && Later(s, 1) == [Item(2, 3), Item(3, 2)] && !Shaped(Later(s, 1)) && !FrontFirst(Later(s, 1))
  {
    var s := [Item(1, 1), Item(2, 3), Item(3, 2)];
    assert s[..2] == [Item(1, 1), Item(2, 3)];
    assert s[..2][..1] == [Item(1, 1)];
    var r := [Item(2, 3), Item(3, 2)];
    assert Later(s, 1) == r;
    assert r[Parent(1)].time > r[1].time;
    assert r[1] in r;
  }

  // ------------------------------------------------------------------------ runs

  datatype Op = Push(item: Item) | Tick(now: int)

  function Step(s: seq<Item>, op: Op): seq<Item> {
    match op
    case Push(x) => Pushed(s, x)
    case Tick(now) => Later(s, now)
  }

  function Fires(s: seq<Item>, op: Op): seq<Item> {
    match op
    case Push(_) => []
    case Tick(now) => Due(s, now)
  }

  /** What each operation of a run fires. */
  function Fired(s: seq<Item>, ops: seq<Op>): (r: seq<seq<Item>>)
    ensures |r| == |ops|
    decreases |ops|
  {
    if ops == [] then [] else [Fires(s, ops[0])] + Fired(Step(s, ops[0]), ops[1..])
  }

  function Run(s: seq<Item>, ops: seq<Op>): seq<Item>
    decreases |ops|
  {
    if ops == [] then s else Run(Step(s, ops[0]), ops[1..])
  }

  /** A tick at or after the entry's time. */
  predicate Reaches(op: Op, x: Item) { op.Tick? && x.time <= op.now }

  /** How many copies of an entry wait after a run that began with n of them: those
      pushed since the last tick that reached it. */
  function Waiting(n: nat, ops: seq<Op>, x: Item): nat {
    if ops == [] then n
    else
      var last := ops[|ops| - 1];
      if Reaches(last, x) then 0 else Waiting(n, ops[..|ops| - 1], x) + (if last == Push(x) then 1 else 0)
  }

  lemma StepCounts(s: seq<Item>, op: Op, x: Item)
    ensures multiset(Step(s, op))[x] == if Reaches(op, x) then 0 else multiset(s)[x] + (if op == Push(x) then 1 else 0)
    ensures multiset(Fires(s, op))[x] == if Reaches(op, x) then multiset(s)[x] else 0
  {
    match op
    case Push(y) => PushedKeeps(s, y);
    case Tick(now) => DrainCounts(s, now, x);
  }

  lemma {:induction false} RunEnd(s: seq<Item>, ops: seq<Op>, last: Op)
    ensures Run(s, ops + [last]) == Step(Run(s, ops), last)
    decreases |ops|
  {
    if ops == [] {
      assert ops + [last] == [last] && [last][1..] == [];
    } else {
      assert (ops + [last])[1..] == ops[1..] + [last];
      RunEnd(Step(s, ops[0]), ops[1..], last);
    }
  }

  lemma {:induction false} FiredAt(s: seq<Item>, ops: seq<Op>, k: nat)
    requires k < |ops|
    ensures Fired(s, ops)[k] == Fires(Run(s, ops[..k]), ops[k])
    decreases |ops|
  {
    if k > 0 {
      var s1 := Step(s, ops[0]);
      FiredAt(s1, ops[1..], k - 1);
      assert ops[..k][1..] == ops[1..][..k - 1];
      assert Run(s, ops[..k]) == Run(s1, ops[..k][1..]);
    }
  }

  /** The copies of an entry still held are those pushed since the last tick that
      reached it. */
  lemma {:induction false} HeldAre(s: seq<Item>, ops: seq<Op>, x: Item)
    ensures multiset(Run(s, ops))[x] == Waiting(multiset(s)[x], ops, x)
    decreases |ops|
  {
    if ops != [] {
      var front, last := ops[..|ops| - 1], ops[|ops| - 1];
      HeldAre(s, front, x);
      assert front + [last] == ops;
      RunEnd(s, front, last);
      StepCounts(Run(s, front), last, x);
    }
  }

  /** Whatever the array's shape, a tick that reaches an entry fires exactly the
      copies pushed since the previous such tick, and nothing else fires it. */
  lemma FiresAtFirstTick(s: seq<Item>, ops: seq<Op>, x: Item, k: nat)
    requires k < |ops|
    ensures multiset(Fired(s, ops)[k])[x] == if Reaches(ops[k], x) then Waiting(multiset(s)[x], ops[..k], x) else 0
  {
    FiredAt(s, ops, k);
    HeldAre(s, ops[..k], x);
    StepCounts(Run(s, ops[..k]), ops[k], x);
  }

  ghost predicate PushedOnlyAt(ops: seq<Op>, x: Item, p: int) {
    forall i :: 0 <= i < |ops| ==> (ops[i] == Push(x) <==> i == p)
  }

  lemma {:induction false} WaitsUntilReached(ops: seq<Op>, x: Item, p: nat)
    requires PushedOnlyAt(ops, x, p)
    ensures Waiting(0, ops, x) == if p < |ops| && forall i :: p < i < |ops| ==> !Reaches(ops[i], x) then 1 else 0
    decreases |ops|
  {
    if ops != [] {
      var front := ops[..|ops| - 1];
      WaitsUntilReached(front, x, p);
      assert forall i :: 0 <= i < |front| ==> front[i] == ops[i];
    }
  }

  /** An entry pushed once fires once: at the first tick at or after its time. */
  lemma FiresOnce(s: seq<Item>, ops: seq<Op>, x: Item, p: nat, k: nat)
    requires x !in s && PushedOnlyAt(ops, x, p) && k < |ops|
    ensures multiset(Fired(s, ops)[k])[x] ==
            if p < k && Reaches(ops[k], x) && forall i :: p < i < k ==> !Reaches(ops[i], x) then 1 else 0
  {
    FiresAtFirstTick(s, ops, x, k);
    WaitsUntilReached(ops[..k], x, p);
    assert forall i :: 0 <= i < k ==> ops[..k][i] == ops[i];
  }

  function Total(fired: seq<seq<Item>>): multiset<Item> {
    if fired == [] then multiset{} else multiset(fired[0]) + Total(fired[1..])
  }

  function PushedBy(op: Op): multiset<Item> { if op.Push? then multiset{op.item} else multiset{} }

  function PushedIn(ops: seq<Op>): multiset<Item> {
    if ops == [] then multiset{} else PushedBy(ops[0]) + PushedIn(ops[1..])
  }

  lemma StepConserves(s: seq<Item>, op: Op)
    ensures multiset(s) + PushedBy(op) == multiset(Fires(s, op)) + multiset(Step(s, op))
  {
    match op
    case Push(x) => PushedKeeps(s, x);
    case Tick(now) => DrainSplits(s, now);
  }

  lemma Chain(a: multiset<Item>, p: multiset<Item>, f: multiset<Item>, b: multiset<Item>, q: multiset<Item>,
              g: multiset<Item>, c: multiset<Item>)
    requires a + p == f + b && b + q == g + c
    ensures a + (p + q) == (f + g) + c
  {
    assert a + (p + q) == (a + p) + q;
    assert (f + b) + q == f + (b + q);
    assert f + (g + c) == (f + g) + c;
  }

  /** Nothing is lost or made up: what was there and what was pushed is what fired
      and what is still there. */
  lemma {:induction false} RunConserves(s: seq<Item>, ops: seq<Op>)
    ensures multiset(s) + PushedIn(ops) == Total(Fired(s, ops)) + multiset(Run(s, ops))
    decreases |ops|
  {
    if ops != [] {
      var op, rest := ops[0], ops[1..];
      var s' := Step(s, op);
      StepConserves(s, op);
      RunConserves(s', rest);
      Chain(multiset(s), PushedBy(op), multiset(Fires(s, op)), multiset(s'), PushedIn(rest),
            Total(Fired(s', rest)), multiset(Run(s', rest)));
      assert Fired(s, ops)[1..] == Fired(s', rest);
    }
  }

  // ------------------------------------------------------------------ in an array

  /** A slice: the first `len` places of a backing array. */
  class Heap {
    var items: array<Item>
    var len: nat

    ghost predicate Valid()
      reads this
    {
      len <= items.Length
    }

    ghost function Contents(): seq<Item>
      requires Valid()
      reads this, items
    {
      items[..len]
    }

    constructor ()
      ensures Valid() && fresh(items) && Contents() == []
    {
      items, len := new Item[0], 0;
    }

    /** append: a full backing array is replaced by a larger copy. */
    method Append(x: Item)
      requires Valid()
      modifies this, items
      ensures Valid() && Contents() == old(Contents()) + [x]
      ensures items == old(items) || fresh(items)
    {
      if len == items.Length {
        var larger := new Item[2 * len + 1](_ => x);
        for i := 0 to len
          invariant items == old(items) && len == old(len) && items[..] == old(items[..])
          invariant larger[..i] == items[..i]
        {
          larger[i] := items[i];
        }
        items := larger;
      }
      items[len] := x;
      len := len + 1;
    }

    method Push(x: Item)
      requires Valid()
      modifies this, items
      ensures Valid() && Contents() == Pushed(old(Contents()), x)
      ensures items == old(items) || fresh(items)
    {
      ghost var before := Contents();
      Append(x);
      var j := len - 1;
      while true
        invariant 0 <= j < len && Valid()
        invariant items == old(items) || fresh(items)
        invariant Up(Contents(), j) == Pushed(before, x)
        decreases j
      {
        var i := Parent(j);
        if i == j || items[j].time >= items[i].time { break; }
        ghost var s := Contents();
        items[i], items[j] := items[j], items[i];
        assert Contents() == Swap(s, i, j);
        j := i;
      }
    }

    /** The kept entries are written over the array while it is being read. */
    method PopUntil(cutoff: int) returns (due: seq<Item>)
      requires Valid()
      modifies this, items
      ensures Valid() && items == old(items)
      ensures due == Due(old(Contents()), cutoff) && Contents() == Later(old(Contents()), cutoff)
      ensures old(Shaped(Contents())) ==> (FrontFirst(Contents()) <==> old(TopsFollow(Contents(), cutoff)))
    {
      due := [];
      var kept := 0;
      ghost var s := Contents();
      for i := 0 to len
        invariant kept <= i && items == old(items) && len == old(len)
        invariant forall j :: i <= j < len ==> items[j] == s[j]
        invariant due == Due(s[..i], cutoff) && items[..kept] == Later(s[..i], cutoff)
      {
        var item := items[i];
        DrainEnd(s, i, cutoff);
        if item.time > cutoff {
          items[kept] := item;
          kept := kept + 1;
        } else {
          due := due + [item];
        }
      }
      assert s[..len] == s;
      len := kept;
      if Shaped(s) { FrontFirstIff(s, cutoff); }
    }

    method Peek() returns (item: Item, ok: bool)
      requires Valid()
      ensures ok == (Contents() != []) && (ok ==> item == Contents()[0])
      ensures ok && (Shaped(Contents()) || FrontFirst(Contents())) ==> forall x :: x in Contents() ==> item.time <= x.time
    {
      if Shaped(Contents()) { HeapFront(Contents()); }
      if len == 0 { return Item(0, 0), false; }
      return items[0], true;
    }
  }
}
