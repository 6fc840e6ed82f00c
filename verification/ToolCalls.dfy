/** internal/ai/adapter/adapter.go: reassembling tool calls, text and reasoning
    from the chunks of a model's answer. */
module ToolCalls {
  import opened Common

  /** A piece of the tool call numbered `index`. */
  datatype Fragment = Fragment(index: int, id: string, kind: string, name: string, args: string)

  datatype Call = Call(id: string, kind: string, name: string, args: string)

  /** The first choice of one data line; `finish` is empty until the end. */
  datatype Chunk = Chunk(fragments: seq<Fragment>, reasoning: string, content: string, finish: string)

  datatype Event = Delta(content: string) | Final(reason: string, calls: seq<Call>, reasoning: string)

  function Latest(was: string, given: string): string { if given == "" then was else given }

  function Absorb(accum: map<int, Call>, f: Fragment): map<int, Call> {
    if f.index in accum then
      var c := accum[f.index];
      accum[f.index := Call(Latest(c.id, f.id), c.kind, Latest(c.name, f.name), c.args + f.args)]
    else accum[f.index := Call(f.id, f.kind, f.name, f.args)]
  }

  function AbsorbAll(accum: map<int, Call>, fs: seq<Fragment>): map<int, Call>
    decreases |fs|
  {
    if fs == [] then accum else AbsorbAll(Absorb(accum, fs[0]), fs[1..])
  }

  /** The calls numbered from i on, below n, that have been seen. */
  function Emit(accum: map<int, Call>, i: nat, n: nat): seq<Call>
    decreases n - i
  {
    if i >= n then [] else (if i in accum then [accum[i]] else []) + Emit(accum, i + 1, n)
  }

  function Emitted(accum: map<int, Call>): seq<Call> { Emit(accum, 0, |accum|) }

  function ChunkEvents(accum: map<int, Call>, reasoning: string, c: Chunk): seq<Event> {
    (if c.content != "" then [Delta(c.content)] else [])
    + (if c.finish != "" then [Final(c.finish, Emitted(accum), reasoning)] else [])
  }

  function Events(accum: map<int, Call>, reasoning: string, cs: seq<Chunk>): seq<Event>
    decreases |cs|
  {
    if cs == [] then []
    else
      var a, r := AbsorbAll(accum, cs[0].fragments), reasoning + cs[0].reasoning;
      ChunkEvents(a, r, cs[0]) + Events(a, r, cs[1..])
  }

  // ------------------------------------------------------------------- the loops

  lemma {:induction false} AbsorbEnd(accum: map<int, Call>, fs: seq<Fragment>, f: Fragment)
    ensures AbsorbAll(accum, fs + [f]) == Absorb(AbsorbAll(accum, fs), f)
    decreases |fs|
  {
    if fs == [] {
      assert fs + [f] == [f] && [f][1..] == [];
    } else {
      assert (fs + [f])[1..] == fs[1..] + [f];
      AbsorbEnd(Absorb(accum, fs[0]), fs[1..], f);
    }
  }

  method Accumulate(start: map<int, Call>, fs: seq<Fragment>) returns (accum: map<int, Call>)
    ensures accum == AbsorbAll(start, fs)
  {
    accum := start;
    for k := 0 to |fs|
      invariant AbsorbAll(accum, fs[k..]) == AbsorbAll(start, fs)
    {
      var f := fs[k];
      assert fs[k..][0] == f && fs[k..][1..] == fs[k + 1..];
      if f.index in accum {
        var c := accum[f.index];
        if f.args != "" { c := c.(args := c.args + f.args); } else { assert c.args + f.args == c.args; }
        if f.name != "" { c := c.(name := f.name); }
        if f.id != "" { c := c.(id := f.id); }
        accum := accum[f.index := c];
      } else {
        accum := accum[f.index := Call(f.id, f.kind, f.name, f.args)];
      }
    }
  }

  method FinalCalls(accum: map<int, Call>) returns (calls: seq<Call>)
    ensures calls == Emitted(accum)
  {
    calls := [];
    for i := 0 to |accum|
      invariant calls + Emit(accum, i, |accum|) == Emitted(accum)
    {
      if i in accum {
        Assoc(calls, [accum[i]], Emit(accum, i + 1, |accum|));
        calls := calls + [accum[i]];
      }
    }
  }

  /** The scanning loop over the data lines. */
  method Stream(cs: seq<Chunk>) returns (events: seq<Event>)
    ensures events == Events(map[], "", cs)
  {
    var accum, reasoning := map[], "";
    events := [];
    for k := 0 to |cs|
      invariant events + Events(accum, reasoning, cs[k..]) == Events(map[], "", cs)
    {
      var c := cs[k];
      assert cs[k..][0] == c && cs[k..][1..] == cs[k + 1..];
      ghost var before := events;
      accum := Accumulate(accum, c.fragments);
      reasoning := reasoning + c.reasoning;
      if c.content != "" { events := events + [Delta(c.content)]; }
      if c.finish != "" {
        var calls := FinalCalls(accum);
        events := events + [Final(c.finish, calls, reasoning)];
      }
      assert events == before + ChunkEvents(accum, reasoning, c);
      Assoc(before, ChunkEvents(accum, reasoning, c), Events(accum, reasoning, cs[k + 1..]));
    }
  }

  // ------------------------------------------------------- what is put together

  /** The fragments of one call, in order of arrival. */
  function Of(fs: seq<Fragment>, i: int): (r: seq<Fragment>)
    ensures r != [] <==> exists k :: 0 <= k < |fs| && fs[k].index == i
  {
    if fs == [] then [] else Of(fs[..|fs| - 1], i) + (if fs[|fs| - 1].index == i then [fs[|fs| - 1]] else [])
  }

  function Arguments(fs: seq<Fragment>): string {
    if fs == [] then "" else Arguments(fs[..|fs| - 1]) + fs[|fs| - 1].args
  }

  function LastName(fs: seq<Fragment>): string {
    if fs == [] then "" else Latest(LastName(fs[..|fs| - 1]), fs[|fs| - 1].name)
  }

  function LastId(fs: seq<Fragment>): string {
    if fs == [] then "" else Latest(LastId(fs[..|fs| - 1]), fs[|fs| - 1].id)
  }

  /** One call from its own fragments: the arguments joined, the last name and ID
      given, the kind of the first fragment. */
  function Joined(fs: seq<Fragment>): Call
    requires fs != []
  {
    Call(LastId(fs), fs[0].kind, LastName(fs), Arguments(fs))
  }

  /** The arguments are those of the fragments in order. */
  lemma {:induction false} ArgumentsAdd(fs: seq<Fragment>, gs: seq<Fragment>)
    ensures Arguments(fs + gs) == Arguments(fs) + Arguments(gs)
    decreases |gs|
  {
    if gs == [] {
      assert fs + gs == fs;
    } else {
      assert (fs + gs)[..|fs + gs| - 1] == fs + gs[..|gs| - 1];
      ArgumentsAdd(fs, gs[..|gs| - 1]);
      Assoc(Arguments(fs), Arguments(gs[..|gs| - 1]), gs[|gs| - 1].args);
    }
  }

  /** The last name and the last ID that are given count. */
  lemma {:induction false} LastCounts(fs: seq<Fragment>, k: nat)
    requires k < |fs|
    ensures fs[k].name != "" && (forall j :: k < j < |fs| ==> fs[j].name == "") ==> LastName(fs) == fs[k].name
    ensures fs[k].id != "" && (forall j :: k < j < |fs| ==> fs[j].id == "") ==> LastId(fs) == fs[k].id
    ensures (forall j :: 0 <= j < |fs| ==> fs[j].name == "") ==> LastName(fs) == ""
    ensures (forall j :: 0 <= j < |fs| ==> fs[j].id == "") ==> LastId(fs) == ""
    decreases |fs|
  {
    var front := fs[..|fs| - 1];
    if front != [] { LastCounts(front, if k < |front| then k else 0); }
  }

  lemma JoinedEnd(fs: seq<Fragment>, f: Fragment)
    ensures Joined(fs + [f]) == if fs == [] then Call(f.id, f.kind, f.name, f.args)
                                else var c := Joined(fs); Call(Latest(c.id, f.id), c.kind, Latest(c.name, f.name), c.args + f.args)
  {
    var all := fs + [f];
    assert all[..|all| - 1] == fs && all[|all| - 1] == f;
    assert Arguments(all) == Arguments(fs) + f.args;
    if fs == [] {
      assert Arguments(fs) == "";
      assert "" + f.args == f.args;
      assert all[0] == f;
      assert LastName(all) == Latest(LastName(fs), f.name);
      assert LastId(all) == Latest(LastId(fs), f.id);
    }
  }

  lemma OfEnd(fs: seq<Fragment>, f: Fragment, i: int)
    ensures Of(fs + [f], i) == if f.index == i then Of(fs, i) + [f] else Of(fs, i)
  {}

  /** However the fragments of several calls are interleaved, each call is put
      together from its own fragments alone. */
  lemma {:induction false} CallIsJoined(fs: seq<Fragment>, i: int)
    ensures var accum := AbsorbAll(map[], fs);
            (i in accum <==> Of(fs, i) != []) && (i in accum ==> accum[i] == Joined(Of(fs, i)))
    decreases |fs|
  {
    if fs != [] {
      var front, f := fs[..|fs| - 1], fs[|fs| - 1];
      assert fs == front + [f];
      CallIsJoined(front, i);
      AbsorbEnd(map[], front, f);
      OfEnd(front, f, i);
      JoinedEnd(Of(front, i), f);
    }
  }

  /** Two answers whose calls have the same fragments, in whatever interleaving and
      chunking, end with the same calls. */
  lemma InterleavingIsIrrelevant(fs: seq<Fragment>, gs: seq<Fragment>)
    requires forall i :: Of(fs, i) == Of(gs, i)
    ensures AbsorbAll(map[], fs) == AbsorbAll(map[], gs)
  {
    forall i ensures i in AbsorbAll(map[], fs) <==> i in AbsorbAll(map[], gs)
             ensures i in AbsorbAll(map[], fs) ==> AbsorbAll(map[], fs)[i] == AbsorbAll(map[], gs)[i]
    {
      CallIsJoined(fs, i);
      CallIsJoined(gs, i);
    }
  }

  // ------------------------------------------------------------------- emission

  /** The numbers of the calls a model speaks of. */
  function Indexes(fs: seq<Fragment>): set<int> { set k | 0 <= k < |fs| :: fs[k].index }

  /** No number is negative, and none comes without all smaller ones. */
  predicate Gapless(ids: set<int>) { forall i :: i in ids ==> i >= 0 && forall j :: 0 <= j < i ==> j in ids }

  lemma AccumIs(fs: seq<Fragment>)
    ensures AbsorbAll(map[], fs).Keys == Indexes(fs) && |AbsorbAll(map[], fs)| == |Indexes(fs)|
  {
    var accum := AbsorbAll(map[], fs);
    forall i ensures i in accum.Keys <==> i in Indexes(fs) { CallIsJoined(fs, i); }
    assert accum.Keys == Indexes(fs);
  }

  // ---------------------------------------------------------------- counting numbers

  function Below(n: nat): (r: set<int>)
    ensures |r| == n && forall i :: i in r <==> 0 <= i < n
  {
    if n == 0 then {} else Below(n - 1) + {n - 1}
  }

  lemma SubsetCounts(a: set<int>, b: set<int>)
    requires a <= b
    ensures |a| <= |b| && (|a| == |b| ==> a == b)
  {
    assert b == a + (b - a);
    if a != b { assert b - a != {}; }
  }

  lemma MemberIsBelow(ids: set<int>, i: int)
    requires Gapless(ids) && i in ids
    ensures 0 <= i < |ids|
  {
    var below := Below(i + 1);
    SubsetCounts(below, ids);
  }

  /** A finite set of numbers without gaps is an initial stretch, and the other way round. */
  lemma GaplessIffBelow(ids: set<int>)
    ensures Gapless(ids) <==> ids == Below(|ids|)
  {
    var below := Below(|ids|);
    if Gapless(ids) {
      forall i | i in ids ensures i in below { MemberIsBelow(ids, i); }
      SubsetCounts(ids, below);
    }
    assert Gapless(below);
  }

  // ----------------------------------------------------------------- what is emitted

  /** The numbers from i on, below n, that have been seen. */
  function Kept(ids: set<int>, i: nat, n: nat): (r: seq<int>)
    ensures forall x :: x in r <==> x in ids && i <= x < n
    decreases n - i
  {
    if i >= n then [] else (if i in ids then [i] else []) + Kept(ids, i + 1, n)
  }

  ghost predicate Rising(ids: seq<int>) { forall j, k :: 0 <= j < k < |ids| ==> ids[j] < ids[k] }

  lemma {:induction false} KeptRises(ids: set<int>, i: nat, n: nat)
    ensures Rising(Kept(ids, i, n))
    decreases n - i
  {
    if i < n {
      var rest := Kept(ids, i + 1, n);
      KeptRises(ids, i + 1, n);
      assert forall k :: 0 <= k < |rest| ==> rest[k] in rest;
    }
  }

  lemma {:induction false} EmitsKept(accum: map<int, Call>, i: nat, n: nat)
    ensures var ids := Kept(accum.Keys, i, n);
            |Emit(accum, i, n)| == |ids| && forall k :: 0 <= k < |ids| ==> ids[k] in accum && Emit(accum, i, n)[k] == accum[ids[k]]
    decreases n - i
  {
    if i < n { EmitsKept(accum, i + 1, n); }
  }

  /** The final event carries, in order of their numbers and each put together from its
      own fragments, exactly the calls whose number lies below the number of calls. */
  lemma EmittedAre(fs: seq<Fragment>) returns (ids: seq<int>)
    ensures forall i :: i in ids <==> i in Indexes(fs) && 0 <= i < |Indexes(fs)|
    ensures Rising(ids)
    ensures var calls := Emitted(AbsorbAll(map[], fs));
            && |calls| == |ids|
            && forall k :: 0 <= k < |ids| ==> Of(fs, ids[k]) != [] && calls[k] == Joined(Of(fs, ids[k]))
  {
    var accum := AbsorbAll(map[], fs);
    AccumIs(fs);
    ids := Kept(accum.Keys, 0, |accum|);
    KeptRises(accum.Keys, 0, |accum|);
    EmitsKept(accum, 0, |accum|);
    forall k | 0 <= k < |ids| ensures Of(fs, ids[k]) != [] && Emitted(accum)[k] == Joined(Of(fs, ids[k])) {
      assert ids[k] in ids;
      CallIsJoined(fs, ids[k]);
    }
  }

  lemma {:induction false} RisingCounts(ids: seq<int>)
    requires Rising(ids)
    ensures |set x | x in ids| == |ids|
  {
    if ids != [] {
      var front, last := ids[..|ids| - 1], ids[|ids| - 1];
      RisingCounts(front);
      assert (set x | x in ids) == (set x | x in front) + {last};
    }
  }

  lemma {:induction false} RisesAtLeast(ids: seq<int>, j: nat, k: nat)
    requires Rising(ids) && j <= k < |ids|
    ensures ids[j] + (k - j) <= ids[k]
    decreases k - j
  {
    if j < k { RisesAtLeast(ids, j, k - 1); }
  }

  lemma RisingIsCounting(ids: seq<int>, k: nat)
    requires Rising(ids) && k < |ids| && 0 <= ids[0] && ids[|ids| - 1] < |ids|
    ensures ids[k] == k
  {
    RisesAtLeast(ids, 0, k);
    RisesAtLeast(ids, k, |ids| - 1);
  }

  /** Cutting off the numbers from the size on keeps everything exactly if there are no gaps. */
  lemma KeptAllIff(all: set<int>, kept: set<int>)
    requires forall i :: i in kept <==> i in all && 0 <= i < |all|
    ensures |kept| == |all| <==> Gapless(all)
  {
    var below := Below(|all|);
    GaplessIffBelow(all);
    forall i | i in kept ensures i in all && i in below {}
    SubsetCounts(kept, all);
    SubsetCounts(kept, below);
    if all == below {
      forall i | i in all ensures i in kept {}
      SubsetCounts(all, kept);
    }
  }

  lemma AllKeptIff(all: set<int>, ids: seq<int>)
    requires Rising(ids) && forall i :: i in ids <==> i in all && 0 <= i < |all|
    ensures |ids| == |all| <==> Gapless(all)
    ensures Gapless(all) ==> forall k :: 0 <= k < |ids| ==> ids[k] == k
  {
    RisingCounts(ids);
    KeptAllIff(all, set i | i in ids);
    if |ids| == |all| {
      forall k | 0 <= k < |ids| ensures ids[k] == k {
        assert ids[0] in ids && ids[|ids| - 1] in ids;
        RisingIsCounting(ids, k);
      }
    }
  }

  /** Every call is carried if and only if the numbers in the fragments have no gaps; then
      the calls come in the order of their numbers, each with its joined arguments. */
  lemma AllCallsIff(fs: seq<Fragment>)
    ensures var calls := Emitted(AbsorbAll(map[], fs));
            && (|calls| == |Indexes(fs)| <==> Gapless(Indexes(fs)))
            && (Gapless(Indexes(fs)) ==> forall i :: 0 <= i < |Indexes(fs)| ==> Of(fs, i) != [] && calls[i] == Joined(Of(fs, i)))
  {
    var ids := EmittedAre(fs);
    AllKeptIff(Indexes(fs), ids);
    if Gapless(Indexes(fs)) {
      var calls := Emitted(AbsorbAll(map[], fs));
      forall i | 0 <= i < |Indexes(fs)| ensures Of(fs, i) != [] && calls[i] == Joined(Of(fs, i)) { assert ids[i] == i; }
    }
  }

  /** A lone call numbered 1 is dropped. */
  lemma LoneSecondIsDropped(f: Fragment)
    requires f.index == 1
    ensures Indexes([f]) == {1} && Emitted(AbsorbAll(map[], [f])) == []
  {
    assert [f][0] == f;
    assert Indexes([f]) == {1};
    var ids := EmittedAre([f]);
    assert forall i :: i !in ids;
  }

  // ------------------------------------------------------------- whole answers

  function AllFragments(cs: seq<Chunk>): seq<Fragment> {
    if cs == [] then [] else cs[0].fragments + AllFragments(cs[1..])
  }

  function AllReasoning(cs: seq<Chunk>): string { if cs == [] then "" else cs[0].reasoning + AllReasoning(cs[1..]) }

  function AllContent(cs: seq<Chunk>): string { if cs == [] then "" else cs[0].content + AllContent(cs[1..]) }

  function Deltas(es: seq<Event>): string {
    if es == [] then "" else (if es[0].Delta? then es[0].content else "") + Deltas(es[1..])
  }

  /** The content of an answer is that of its parts, in order. */
  lemma {:induction false} ContentAdds(cs: seq<Chunk>, ds: seq<Chunk>)
    ensures AllContent(cs + ds) == AllContent(cs) + AllContent(ds)
    ensures AllReasoning(cs + ds) == AllReasoning(cs) + AllReasoning(ds)
    ensures AllFragments(cs + ds) == AllFragments(cs) + AllFragments(ds)
    decreases |cs|
  {
    if cs == [] {
      assert cs + ds == ds;
      assert "" + AllContent(ds) == AllContent(ds) && "" + AllReasoning(ds) == AllReasoning(ds);
    } else {
      assert (cs + ds)[1..] == cs[1..] + ds;
      ContentAdds(cs[1..], ds);
      Assoc(cs[0].content, AllContent(cs[1..]), AllContent(ds));
      Assoc(cs[0].reasoning, AllReasoning(cs[1..]), AllReasoning(ds));
      Assoc(cs[0].fragments, AllFragments(cs[1..]), AllFragments(ds));
    }
  }

  lemma {:induction false} AbsorbSplit(accum: map<int, Call>, fs: seq<Fragment>, gs: seq<Fragment>)
    ensures AbsorbAll(accum, fs + gs) == AbsorbAll(AbsorbAll(accum, fs), gs)
    decreases |fs|
  {
    if fs == [] {
      assert fs + gs == gs;
    } else {
      assert (fs + gs)[1..] == fs[1..] + gs;
      AbsorbSplit(Absorb(accum, fs[0]), fs[1..], gs);
    }
  }

  lemma {:induction false} DeltasSplit(a: seq<Event>, b: seq<Event>)
    ensures Deltas(a + b) == Deltas(a) + Deltas(b)
    decreases |a|
  {
    if a == [] {
      assert a + b == b;
      assert "" + Deltas(b) == Deltas(b);
    } else {
      assert (a + b)[1..] == a[1..] + b;
      DeltasSplit(a[1..], b);
      Assoc(if a[0].Delta? then a[0].content else "", Deltas(a[1..]), Deltas(b));
    }
  }

  lemma ChunkDeltas(accum: map<int, Call>, reasoning: string, c: Chunk)
    ensures Deltas(ChunkEvents(accum, reasoning, c)) == c.content
  {
    var a := if c.content != "" then [Delta(c.content)] else [];
    var b := if c.finish != "" then [Final(c.finish, Emitted(accum), reasoning)] else [];
    DeltasSplit(a, b);
    if c.content != "" { assert a[1..] == []; assert c.content + "" == c.content; }
    if c.finish != "" { assert b[1..] == []; }
    assert c.content + "" == c.content;
  }

  /** No text is lost: the deltas spell the whole content. */
  lemma {:induction false} DeltasAreContent(accum: map<int, Call>, reasoning: string, cs: seq<Chunk>)
    ensures Deltas(Events(accum, reasoning, cs)) == AllContent(cs)
    decreases |cs|
  {
    if cs != [] {
      var a, r := AbsorbAll(accum, cs[0].fragments), reasoning + cs[0].reasoning;
      DeltasSplit(ChunkEvents(a, r, cs[0]), Events(a, r, cs[1..]));
      ChunkDeltas(a, r, cs[0]);
      DeltasAreContent(a, r, cs[1..]);
    }
  }

  /** When the last chunk finishes the answer, the last event carries the calls and the
      reasoning of the whole answer, whatever the chunk boundaries. */
  lemma {:induction false} FinalEvent(accum: map<int, Call>, reasoning: string, cs: seq<Chunk>)
    requires cs != [] && cs[|cs| - 1].finish != ""
    ensures var es := Events(accum, reasoning, cs);
            es != [] && es[|es| - 1] == Final(cs[|cs| - 1].finish, Emitted(AbsorbAll(accum, AllFragments(cs))),
                                              reasoning + AllReasoning(cs))
    decreases |cs|
  {
    var a, r := AbsorbAll(accum, cs[0].fragments), reasoning + cs[0].reasoning;
    AbsorbSplit(accum, cs[0].fragments, AllFragments(cs[1..]));
    Assoc(reasoning, cs[0].reasoning, AllReasoning(cs[1..]));
    if |cs| == 1 {
      assert cs[0].fragments + AllFragments(cs[1..]) == cs[0].fragments;
      assert cs[0].reasoning + AllReasoning(cs[1..]) == cs[0].reasoning;
    } else {
      FinalEvent(a, r, cs[1..]);
    }
  }
}
