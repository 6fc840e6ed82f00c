/** internal/scheduler/engine/timing_wheel.go: the wheel of task slots, and that it
    behaves as a queue of task sets, one for each of the coming ticks. */
module TimingWheel {

  /** Go's integer division and remainder truncate toward zero. */
  function Quot(a: int, b: int): int
    requires b > 0
  {
    if a >= 0 then a / b else -(-a / b)
  }

  function Rem(a: int, b: int): int
    requires b > 0
  {
    a - b * Quot(a, b)
  }

  datatype Wheel = Wheel(slots: seq<set<int>>, tick: int, pos: int)

  predicate Valid(w: Wheel) { w.tick > 0 && 0 <= w.pos < |w.slots| }

  function Create(tick: int, size: int): (w: Wheel)
    ensures Valid(w) && w.pos == 0
  {
    var n := if size <= 0 then 600 else size;
    Wheel(seq(n, i => {}), if tick <= 0 then 100_000_000 else tick, 0)
  }

  /** The slot of a trigger time in nanoseconds; negative means the index panics. */
  function SlotOf(w: Wheel, time: int): int
    requires Valid(w)
  {
    Rem(Quot(time, w.tick), |w.slots|)
  }

  datatype Op = Add(id: int, time: int) | Remove(id: int) | Tick

  predicate Fits(w: Wheel, op: Op)
    requires Valid(w)
  {
    op.Add? ==> SlotOf(w, op.time) >= 0
  }

  function Drop(slots: seq<set<int>>, id: int): (r: seq<set<int>>)
    ensures |r| == |slots| && forall i :: 0 <= i < |r| ==> r[i] == slots[i] - {id}
  {
    seq(|slots|, i requires 0 <= i < |slots| => slots[i] - {id})
  }

  function NextPos(w: Wheel): int
    requires Valid(w)
  {
    (w.pos + 1) % |w.slots|
  }

  /** The wheel after an operation, and the tasks it returns. */
  function Apply(w: Wheel, op: Op): (Wheel, set<int>)
    requires Valid(w) && Fits(w, op)
  {
    match op
    case Add(id, time) =>
      var p := SlotOf(w, time);
      SlotInRange(w, time);
      (w.(slots := w.slots[p := w.slots[p] + {id}]), {})
    case Remove(id) => (w.(slots := Drop(w.slots, id)), {})
    case Tick =>
      var p := NextPos(w);
      (w.(slots := w.slots[p := {}], pos := p), w.slots[p])
  }

  lemma SlotInRange(w: Wheel, time: int)
    requires Valid(w)
    ensures SlotOf(w, time) < |w.slots|
  {}

  /** Times since the Unix epoch always have a slot. */
  lemma EpochTimesFit(w: Wheel, id: int, time: nat)
    requires Valid(w)
    ensures Fits(w, Add(id, time)) && SlotOf(w, time) == time / w.tick % |w.slots|
  {}

  // -------------------------------------------------------------- the abstract view

  /** The task set k ticks ahead. */
  function Due(w: Wheel, k: int): set<int>
    requires Valid(w)
  {
    w.slots[(w.pos + k) % |w.slots|]
  }

  /** The sets the coming ticks will return, the next one first. */
  function Agenda(w: Wheel): (a: seq<set<int>>)
    requires Valid(w)
    ensures |a| == |w.slots|
  {
    seq(|w.slots|, k requires 0 <= k < |w.slots| => Due(w, k + 1))
  }

  /** How many ticks ahead a slot comes up: between 1 and the size of the wheel. */
  function Ahead(w: Wheel, slot: int): (k: int)
    requires Valid(w) && 0 <= slot < |w.slots|
    ensures 1 <= k <= |w.slots| && (w.pos + k) % |w.slots| == slot
  {
    var n := |w.slots|;
    if slot > w.pos then
      assert (w.pos + (slot - w.pos)) % n == slot;
      slot - w.pos
    else
      Lap(slot, n);
      slot - w.pos + n
  }

  lemma Lap(x: int, n: int)
    requires 0 <= x < n
    ensures (x + n) % n == x && x % n == x
  {}

  /** Within one turn of the wheel the slots ahead are different. */
  lemma TurnIsInjective(w: Wheel, j: int, k: int)
    requires Valid(w) && 1 <= j <= |w.slots| && 1 <= k <= |w.slots|
    requires (w.pos + j) % |w.slots| == (w.pos + k) % |w.slots|
    ensures j == k
  {
    TurnIs(w, j);
    TurnIs(w, k);
  }

  lemma TurnIs(w: Wheel, k: int)
    requires Valid(w) && 1 <= k <= |w.slots|
    ensures var n := |w.slots|; (w.pos + k) % n == if w.pos + k < n then w.pos + k else w.pos + k - n
  {}

  /** What an operation does to the agenda, without slots and positions. */
  function ApplyAgenda(a: seq<set<int>>, op: Op, k: int): (seq<set<int>>, set<int>)
    requires a != [] && (op.Add? ==> 1 <= k <= |a|)
  {
    match op
    case Add(id, _) => (a[k - 1 := a[k - 1] + {id}], {})
    case Remove(id) => (Drop(a, id), {})
    case Tick => (a[1..] + [{}], a[0])
  }

  function AheadOf(w: Wheel, op: Op): int
    requires Valid(w) && Fits(w, op)
  {
    if op.Add? then SlotInRange(w, op.time); Ahead(w, SlotOf(w, op.time)) else 0
  }

  lemma AddRefines(w: Wheel, op: Op)
    requires Valid(w) && Fits(w, op) && op.Add?
    ensures Agenda(Apply(w, op).0) == ApplyAgenda(Agenda(w), op, AheadOf(w, op)).0
  {
    var w', k := Apply(w, op).0, AheadOf(w, op);
    forall j | 0 <= j < |w.slots|
      ensures Agenda(w')[j] == ApplyAgenda(Agenda(w), op, k).0[j]
    {
      if j + 1 != k && (w.pos + j + 1) % |w.slots| == (w.pos + k) % |w.slots| { TurnIsInjective(w, j + 1, k); }
    }
  }

  /** After a tick everything comes up one tick sooner, and a full turn ahead is empty. */
  lemma TickDue(w: Wheel, k: int)
    requires Valid(w) && 1 <= k <= |w.slots|
    ensures var w' := Apply(w, Tick).0;
            Valid(w') && Due(w', k) == if k < |w.slots| then Due(w, k + 1) else {}
  {
    var w', n := Apply(w, Tick).0, |w.slots|;
    TurnIs(w, 1);
    TurnIs(w', k);
    if k < n {
      TurnIs(w, k + 1);
      assert (w'.pos + k) % n == (w.pos + k + 1) % n;
      if (w.pos + k + 1) % n == (w.pos + 1) % n { TurnIsInjective(w, k + 1, 1); }
    } else {
      assert (w'.pos + k) % n == w'.pos;
    }
  }

  lemma TickRefines(w: Wheel)
    requires Valid(w)
    ensures Agenda(Apply(w, Tick).0) == ApplyAgenda(Agenda(w), Tick, 0).0
    ensures Apply(w, Tick).1 == Agenda(w)[0]
  {
    forall j | 0 <= j < |w.slots| ensures Agenda(Apply(w, Tick).0)[j] == ApplyAgenda(Agenda(w), Tick, 0).0[j] {
      TickDue(w, j + 1);
    }
  }

  /** Every operation of the wheel is the queue operation on its agenda. */
  lemma WheelRefinesAgenda(w: Wheel, op: Op)
    requires Valid(w) && Fits(w, op)
    ensures Valid(Apply(w, op).0)
    ensures (Agenda(Apply(w, op).0), Apply(w, op).1) == ApplyAgenda(Agenda(w), op, AheadOf(w, op))
  {
    match op
    case Add(_, time) => SlotInRange(w, time); AddRefines(w, op);
    case Remove(id) => assert Agenda(Apply(w, op).0) == Drop(Agenda(w), id);
    case Tick => TickRefines(w);
  }

  // ------------------------------------------------------------------------ runs

  ghost predicate IsRun(w: Wheel, ops: seq<Op>)
    requires Valid(w)
    decreases |ops|
  {
    ops == [] || (Fits(w, ops[0]) && Valid(Apply(w, ops[0]).0) && IsRun(Apply(w, ops[0]).0, ops[1..]))
  }

  /** The sets returned by the ticks of a run, in order. */
  ghost function Fired(w: Wheel, ops: seq<Op>): seq<set<int>>
    requires Valid(w) && IsRun(w, ops)
    decreases |ops|
  {
    if ops == [] then []
    else
      var (w', out) := Apply(w, ops[0]);
      (if ops[0].Tick? then [out] else []) + Fired(w', ops[1..])
  }

  ghost predicate NeverAdds(ops: seq<Op>, id: int) { forall i :: 0 <= i < |ops| ==> !(ops[i].Add? && ops[i].id == id) }

  /** The task is removed before the tick numbered j, counting from 0. */
  ghost predicate RemovedBefore(ops: seq<Op>, id: int, j: int)
    decreases |ops|
  {
    ops != [] && (ops[0] == Remove(id)
                  || (if ops[0].Tick? then j > 0 && RemovedBefore(ops[1..], id, j - 1) else RemovedBefore(ops[1..], id, j)))
  }

  /** As long as it is not added again, a task is returned by exactly those of the
      next ticks whose agenda entry holds it, unless it is removed first; after a
      full turn it is never returned. */
  lemma {:induction false} FiredIff(w: Wheel, ops: seq<Op>, id: int, j: nat)
    requires Valid(w) && IsRun(w, ops) && NeverAdds(ops, id) && j < |Fired(w, ops)|
    ensures id in Fired(w, ops)[j] <==> j < |w.slots| && id in Agenda(w)[j] && !RemovedBefore(ops, id, j)
    decreases |ops|
  {
    var op := ops[0];
    var (w', out) := Apply(w, op);
    WheelRefinesAgenda(w, op);
    assert !(op.Add? && op.id == id);
    assert NeverAdds(ops[1..], id);
    match op
    case Tick => if j > 0 { FiredIff(w', ops[1..], id, j - 1); }
    case Remove(_) => FiredIff(w', ops[1..], id, j);
    case Add(_, _) => FiredIff(w', ops[1..], id, j);
  }

  /** A task added for a time since the epoch, and nowhere else on the wheel, is
      returned once: at the tick, between 1 and the wheel's size, that reaches the
      time's slot, unless it is removed first. */
  lemma AddedFiresOnce(w: Wheel, id: int, time: nat, ops: seq<Op>, j: nat)
    requires Valid(w) && (forall i :: 0 <= i < |w.slots| ==> id !in w.slots[i])
    requires Fits(w, Add(id, time)) && Valid(Apply(w, Add(id, time)).0)
    requires var w' := Apply(w, Add(id, time)).0; IsRun(w', ops) && NeverAdds(ops, id) && j < |Fired(w', ops)|
    ensures var w', n := Apply(w, Add(id, time)).0, |w.slots|;
            id in Fired(w', ops)[j]
            <==> j < n && (w.pos + j + 1) % n == time / w.tick % n && !RemovedBefore(ops, id, j)
  {
    var op := Add(id, time);
    EpochTimesFit(w, id, time);
    var w', k := Apply(w, op).0, AheadOf(w, op);
    WheelRefinesAgenda(w, op);
    FiredIff(w', ops, id, j);
    if j < |w.slots| && (w.pos + j + 1) % |w.slots| == (w.pos + k) % |w.slots| { TurnIsInjective(w, j + 1, k); }
  }

  // ----------------------------------------------------------------- the object

  class TimingWheel {
    const slots: array<set<int>>
    const tickDuration: int
    var currentPos: int

    ghost function View(): Wheel
      reads this, slots
    {
      Wheel(slots[..], tickDuration, currentPos)
    }

    constructor (tick: int, size: int)
      ensures View() == Create(tick, size) && fresh(slots)
    {
      var n := if size <= 0 then 600 else size;
      slots := new set<int>[n](i => {});
      tickDuration := if tick <= 0 then 100_000_000 else tick;
      currentPos := 0;
    }

    /** Answers false where indexing with a negative remainder panics. */
    method Add(id: int, time: int) returns (ok: bool)
      requires Valid(View())
      modifies slots
      ensures ok == Fits(old(View()), Op.Add(id, time))
      ensures View() == if ok then Apply(old(View()), Op.Add(id, time)).0 else old(View())
    {
      var ticks := Quot(time, tickDuration);
      var pos := Rem(ticks, slots.Length);
      SlotInRange(View(), time);
      if pos < 0 { return false; }
      slots[pos] := slots[pos] + {id};
      return true;
    }

    method Remove(id: int)
      requires Valid(View())
      modifies slots
      ensures View() == Apply(old(View()), Op.Remove(id)).0
    {
      for i := 0 to slots.Length
        invariant forall j :: 0 <= j < slots.Length ==> slots[j] == if j < i then old(slots[j]) - {id} else old(slots[j])
      {
        slots[i] := slots[i] - {id};
      }
      assert slots[..] == Drop(old(slots[..]), id);
    }

    method Tick() returns (ids: set<int>)
      requires Valid(View())
      modifies this, slots
      ensures (View(), ids) == Apply(old(View()), Op.Tick)
    {
      currentPos := (currentPos + 1) % slots.Length;
      ids := slots[currentPos];
      slots[currentPos] := {};
    }
  }
}
