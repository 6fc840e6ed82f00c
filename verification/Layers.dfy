/** web/app.js, loadDAG: every task gets a level by a memoised recursion over its
    dependencies, and tasks of one level share a lane. */
module Layers {
  import opened Common
  import opened DependencyGraph

  /** p is a dependency path that starts at n. */
  ghost predicate PathFrom(g: Graph, n: int, p: seq<int>) { IsPath(g, p) && p[0] == n }

  /** The longest dependency path from n has k edges. */
  ghost predicate LongestPath(g: Graph, n: int, k: int) {
    && (exists p :: PathFrom(g, n, p) && |p| == k + 1)
    && (forall p :: PathFrom(g, n, p) ==> |p| <= k + 1)
  }

  lemma Leaf(g: Graph, n: int)
    requires Deps(g, n) == []
    ensures LongestPath(g, n, 0)
  {
    assert PathFrom(g, n, [n]);
    assert forall p :: PathFrom(g, n, p) && |p| > 1 ==> p[1] in Deps(g, p[0]);
  }

  /** A node lies one edge above the highest of its dependencies. */
  lemma Above(g: Graph, n: int, heights: seq<nat>, best: nat)
    requires |heights| == |Deps(g, n)| && best < |heights|
    requires forall i :: 0 <= i < |heights| ==> LongestPath(g, Deps(g, n)[i], heights[i]) && heights[i] <= heights[best]
    ensures LongestPath(g, n, heights[best] + 1)
  {
    var d := Deps(g, n)[best];
    var q :| PathFrom(g, d, q) && |q| == heights[best] + 1;
    var p := [n] + q;
    assert d in Deps(g, n);
    forall i | 0 < i < |p| ensures p[i] in Deps(g, p[i - 1]) {
      if i > 1 { assert q[i - 1] in Deps(g, q[i - 2]); }
    }
    assert PathFrom(g, n, p) && |p| == heights[best] + 2;
    forall p | PathFrom(g, n, p) ensures |p| <= heights[best] + 2 {
      if |p| > 1 {
        assert p[1] in Deps(g, p[0]);
        var i :| 0 <= i < |Deps(g, n)| && Deps(g, n)[i] == p[1];
        var rest := p[1..];
        assert PathFrom(g, p[1], rest) by {
          forall k | 0 < k < |rest| ensures rest[k] in Deps(g, rest[k - 1]) { assert p[k + 1] in Deps(g, p[k]); }
        }
      }
    }
  }

  lemma LongestIsUnique(g: Graph, n: int, j: int, k: int)
    requires LongestPath(g, n, j) && LongestPath(g, n, k)
    ensures j == k
  {}

  /** A dependency's longest path is strictly shorter. */
  lemma StrictlyAbove(g: Graph, n: int, d: int, j: int, k: int)
    requires d in Deps(g, n) && LongestPath(g, n, j) && LongestPath(g, d, k)
    ensures k < j
  {
    var q :| PathFrom(g, d, q) && |q| == k + 1;
    var p := [n] + q;
    forall i | 0 < i < |p| ensures p[i] in Deps(g, p[i - 1]) {
      if i > 1 { assert q[i - 1] in Deps(g, q[i - 2]); }
    }
    assert PathFrom(g, n, p);
  }

  /** Every resolved level is the longest path. */
  ghost predicate Exact(g: Graph, levels: map<int, nat>) { forall n :: n in levels ==> LongestPath(g, n, levels[n]) }

  lemma StepReaches(g: Graph, v: int, n: int, d: int)
    requires d in Deps(g, n) && (v == n || Reaches(g, v, n))
    ensures Reaches(g, v, d)
  {
    var q: seq<int> := [n];
    if v != n {
      q :| IsPath(g, q) && |q| >= 2 && q[0] == v && q[|q| - 1] == n;
    }
    var p := q + [d];
    forall i | 0 < i < |p| ensures p[i] in Deps(g, p[i - 1]) {
      if i < |q| { assert q[i] in Deps(g, q[i - 1]); }
    }
    assert IsPath(g, p) && |p| >= 2 && p[0] == v && p[|p| - 1] == d;
  }

  ghost predicate AllReach(g: Graph, from: set<int>, n: int) { forall v :: v in from ==> Reaches(g, v, n) }

  /** An acyclic graph, exact levels so far, and a recursion that came to n along
      dependencies: then the answer for n will be exact. */
  ghost predicate OnCourse(g: Graph, levels: map<int, nat>, visiting: set<int>, n: int) {
    !Cyclic(g) && Exact(g, levels) && AllReach(g, visiting, n)
  }

  lemma NeverRevisited(g: Graph, levels: map<int, nat>, visiting: set<int>, n: int)
    requires OnCourse(g, levels, visiting, n)
    ensures n !in visiting
  {}

  lemma StaysOnCourse(g: Graph, levels: map<int, nat>, visiting: set<int>, n: int, d: int)
    requires !Cyclic(g) && Exact(g, levels) && AllReach(g, visiting - {n}, n) && d in Deps(g, n)
    ensures OnCourse(g, levels, visiting, d)
  {
    forall v | v in visiting ensures Reaches(g, v, d) {
      assert v == n || v in visiting - {n};
      StepReaches(g, v, n, d);
    }
  }

  lemma ExactExtends(g: Graph, levels: map<int, nat>, n: int, k: nat)
    requires Exact(g, levels) && LongestPath(g, n, k)
    ensures Exact(g, levels[n := k])
  {}

  /** values are the longest paths of the first dependencies, the best of them highest. */
  ghost predicate Heights(g: Graph, deps: seq<int>, values: seq<nat>) {
    |values| <= |deps| && forall i :: 0 <= i < |values| ==> LongestPath(g, deps[i], values[i])
  }

  predicate Highest(values: seq<nat>, best: nat) {
    if values == [] then best == 0
    else best < |values| && forall i :: 0 <= i < |values| ==> values[i] <= values[best]
  }

  lemma HeightsExtend(g: Graph, deps: seq<int>, values: seq<nat>, value: nat)
    requires Heights(g, deps, values) && |values| < |deps| && LongestPath(g, deps[|values|], value)
    ensures Heights(g, deps, values + [value])
  {}

  /** How many nodes are neither resolved nor being resolved. */
  ghost function Left(universe: set<int>, levels: map<int, nat>, visiting: set<int>): nat {
    |universe - levels.Keys - visiting|
  }

  lemma LeftShrinks(universe: set<int>, levels: map<int, nat>, visiting: set<int>, n: int)
    requires n in universe && n !in levels && n !in visiting
    ensures Left(universe, levels, visiting + {n}) < Left(universe, levels, visiting)
  {
    Smaller(universe - levels.Keys - (visiting + {n}), universe - levels.Keys - visiting, n);
  }

  lemma LeftNeverGrows(universe: set<int>, a: map<int, nat>, b: map<int, nat>, visiting: set<int>)
    requires a.Keys <= b.Keys
    ensures Left(universe, b, visiting) <= Left(universe, a, visiting)
  {
    var x, y := universe - b.Keys - visiting, universe - a.Keys - visiting;
    assert y == x + (y - x);
  }

  class LevelResolver {
    const graph: Graph
    var levels: map<int, nat>
    var visiting: set<int>

    constructor (graph: Graph)
      ensures this.graph == graph && levels == map[] && visiting == {}
    {
      this.graph := graph;
      levels := map[];
      visiting := {};
    }

    /** resolveLevel. It terminates on every graph; on an acyclic one its answer is
        the longest dependency path. */
    method Resolve(id: int, ghost universe: set<int>) returns (level: nat)
      requires Nodes(graph) <= universe && id in universe
      modifies this
      decreases Left(universe, levels, visiting), 1
      ensures visiting == old(visiting)
      ensures old(levels.Keys) <= levels.Keys && (id in levels || id in visiting)
      ensures id !in visiting ==> level == levels[id]
      ensures old(OnCourse(graph, levels, visiting, id)) ==> Exact(graph, levels) && LongestPath(graph, id, level)
    {
      ghost var good := OnCourse(graph, levels, visiting, id);
      if id in levels { return levels[id]; }
      if good { NeverRevisited(graph, levels, visiting, id); }
      if id in visiting { return 0; }
      LeftShrinks(universe, levels, visiting, id);
      ghost var outer := visiting;
      visiting := visiting + {id};
      assert visiting - {id} == outer;
      if |Deps(graph, id)| == 0 {
        level := 0;
        Leaf(graph, id);
      } else {
        level := HighestDep(id, universe);
        level := level + 1;
      }
      if good { ExactExtends(graph, levels, id, level); }
      levels := levels[id := level];
      visiting := visiting - {id};
    }

    /** Math.max over the levels of a node's dependencies. */
    method HighestDep(id: int, ghost universe: set<int>) returns (highest: nat)
      requires Nodes(graph) <= universe && |Deps(graph, id)| > 0
      modifies this
      decreases Left(universe, levels, visiting), 2
      ensures visiting == old(visiting) && old(levels.Keys) <= levels.Keys
      ensures old(OnCourse(graph, levels, visiting - {id}, id)) ==> Exact(graph, levels) && LongestPath(graph, id, highest + 1)
    {
      ghost var good := OnCourse(graph, levels, visiting - {id}, id);
      var deps := Deps(graph, id);
      var values: seq<nat> := [];
      var best := 0;
      for k := 0 to |deps|
        invariant visiting == old(visiting) && old(levels.Keys) <= levels.Keys
        invariant |values| == k && Highest(values, best)
        invariant good ==> Exact(graph, levels) && Heights(graph, deps, values)
      {
        var dep := deps[k];
        assert dep in deps;
        DepsAreNodes(graph, id, dep);
        if good { StaysOnCourse(graph, levels, visiting, id, dep); }
        LeftNeverGrows(universe, old(levels), levels, visiting);
        var value := Resolve(dep, universe);
        if good { HeightsExtend(graph, deps, values, value); }
        values := values + [value];
        if values[best] < value { best := k; }
      }
      highest := values[best];
      if good { Above(graph, id, values, best); }
    }

    method ResolveAll(nodes: seq<int>)
      requires levels == map[] && visiting == {}
      modifies this
      ensures visiting == {} && forall i :: 0 <= i < |nodes| ==> nodes[i] in levels
      ensures !Cyclic(graph) ==> Exact(graph, levels)
    {
      ghost var universe := Nodes(graph) + (set n | n in nodes);
      for k := 0 to |nodes|
        invariant visiting == {}
        invariant forall i :: 0 <= i < k ==> nodes[i] in levels
        invariant !Cyclic(graph) ==> Exact(graph, levels)
      {
        assert nodes[k] in nodes;
        var _ := Resolve(nodes[k], universe);
      }
    }

    /** One lane for each level that occurs, lowest first. */
    method Group(nodes: seq<int>) returns (lanes: seq<seq<int>>)
      requires forall i :: 0 <= i < |nodes| ==> nodes[i] in levels
      ensures exists heights: seq<int> :: Grouped(nodes, levels, heights, lanes)
    {
      var top := HighestLevel();
      ghost var heights: seq<int> := [];
      lanes := [];
      for l := 0 to top + 1
        invariant GroupedBelow(nodes, levels, heights, lanes, l)
      {
        var lane := Filter(nodes, l);
        GroupStep(nodes, levels, heights, lanes, l);
        if |lane| > 0 {
          lanes := lanes + [lane];
          heights := heights + [l];
        }
      }
      forall i | 0 <= i < |nodes| ensures levels[nodes[i]] in heights {
        var n := nodes[i];
        assert n in levels && levels[n] <= top;
      }
      assert Grouped(nodes, levels, heights, lanes);
    }

    /** Math.max(0, ...Object.values(levels)). */
    method HighestLevel() returns (top: nat)
      ensures forall n :: n in levels ==> levels[n] <= top
    {
      top := 0;
      var rest := levels.Keys;
      while rest != {}
        invariant rest <= levels.Keys && forall n :: n in levels && n !in rest ==> levels[n] <= top
        decreases rest
      {
        var n := Least(rest);
        if levels[n] > top { top := levels[n]; }
        rest := rest - {n};
      }
    }

    method Filter(nodes: seq<int>, l: int) returns (lane: seq<int>)
      requires forall i :: 0 <= i < |nodes| ==> nodes[i] in levels
      ensures lane == AtLevel(nodes, levels, l)
    {
      lane := [];
      for k := 0 to |nodes|
        invariant lane + AtLevel(nodes[k..], levels, l) == AtLevel(nodes, levels, l)
      {
        assert nodes[k..][1..] == nodes[k + 1..];
        if levels[nodes[k]] == l { lane := lane + [nodes[k]]; }
      }
    }
  }

  function AtLevel(nodes: seq<int>, levels: map<int, nat>, l: int): (lane: seq<int>)
    requires forall i :: 0 <= i < |nodes| ==> nodes[i] in levels
  {
    if nodes == [] then []
    else (if levels[nodes[0]] == l then [nodes[0]] else []) + AtLevel(nodes[1..], levels, l)
  }

  /** A lane holds a node as often as the input does, if it is its level, and else not at all. */
  lemma {:induction false} AtLevelCount(nodes: seq<int>, levels: map<int, nat>, l: int, n: int)
    requires forall i :: 0 <= i < |nodes| ==> nodes[i] in levels
    ensures multiset(AtLevel(nodes, levels, l))[n] == if n in levels && levels[n] == l then multiset(nodes)[n] else 0
  {
    if nodes != [] {
      AtLevelCount(nodes[1..], levels, l, n);
      assert nodes == [nodes[0]] + nodes[1..];
    }
  }

  /** Lanes of the levels below l that occur, lowest first. */
  ghost predicate GroupedBelow(nodes: seq<int>, levels: map<int, nat>, heights: seq<int>, lanes: seq<seq<int>>, l: int) {
    && (forall i :: 0 <= i < |nodes| ==> nodes[i] in levels)
    && |heights| == |lanes|
    && (forall i :: 0 <= i < |lanes| ==> lanes[i] != [] && lanes[i] == AtLevel(nodes, levels, heights[i]) && heights[i] < l)
    && (forall i, j :: 0 <= i < j < |heights| ==> heights[i] < heights[j])
    && (forall i :: 0 <= i < |nodes| && 0 <= levels[nodes[i]] < l ==> levels[nodes[i]] in heights)
  }

  ghost predicate Grouped(nodes: seq<int>, levels: map<int, nat>, heights: seq<int>, lanes: seq<seq<int>>) {
    && (exists l :: GroupedBelow(nodes, levels, heights, lanes, l))
    && (forall i :: 0 <= i < |nodes| ==> nodes[i] in levels && levels[nodes[i]] in heights)
  }

  lemma GroupStep(nodes: seq<int>, levels: map<int, nat>, heights: seq<int>, lanes: seq<seq<int>>, l: int)
    requires GroupedBelow(nodes, levels, heights, lanes, l)
    ensures var lane := AtLevel(nodes, levels, l);
            if lane == [] then GroupedBelow(nodes, levels, heights, lanes, l + 1)
            else GroupedBelow(nodes, levels, heights + [l], lanes + [lane], l + 1)
  {
    var lane := AtLevel(nodes, levels, l);
    forall i | 0 <= i < |nodes| && levels[nodes[i]] == l ensures lane != [] {
      AtLevelCount(nodes, levels, l, nodes[i]);
      assert nodes[i] in multiset(nodes);
    }
  }

  ghost predicate OnlyLane(nodes: seq<int>, lanes: seq<seq<int>>, n: int, i: nat)
    requires i < |lanes|
  {
    && multiset(lanes[i])[n] == multiset(nodes)[n] > 0
    && forall j :: 0 <= j < |lanes| && j != i ==> n !in lanes[j]
  }

  lemma LaneLevel(nodes: seq<int>, levels: map<int, nat>, heights: seq<int>, lanes: seq<seq<int>>, n: int, i: nat)
    requires Grouped(nodes, levels, heights, lanes) && i < |lanes| && n in lanes[i]
    ensures |heights| == |lanes| && n in levels && levels[n] == heights[i]
  {
    var l :| GroupedBelow(nodes, levels, heights, lanes, l);
    AtLevelCount(nodes, levels, heights[i], n);
    assert n in multiset(lanes[i]);
  }

  /** Every task is in exactly one lane, as often as it was listed. */
  lemma OneLaneEach(nodes: seq<int>, levels: map<int, nat>, heights: seq<int>, lanes: seq<seq<int>>, n: int)
    requires Grouped(nodes, levels, heights, lanes) && n in nodes
    ensures exists i :: 0 <= i < |lanes| && OnlyLane(nodes, lanes, n, i)
  {
    var l :| GroupedBelow(nodes, levels, heights, lanes, l);
    var p :| 0 <= p < |nodes| && nodes[p] == n;
    var i :| 0 <= i < |heights| && heights[i] == levels[n];
    AtLevelCount(nodes, levels, heights[i], n);
    forall j | 0 <= j < |lanes| && j != i ensures n !in lanes[j] {
      AtLevelCount(nodes, levels, heights[j], n);
      assert multiset(lanes[j])[n] == 0;
    }
    assert n in multiset(nodes);
    assert OnlyLane(nodes, lanes, n, i);
  }

  /** On an acyclic graph every dependency lies in a strictly lower lane. */
  lemma DependenciesLieBelow(g: Graph, nodes: seq<int>, levels: map<int, nat>, heights: seq<int>, lanes: seq<seq<int>>,
                             n: int, d: int, i: nat, j: nat)
    requires Grouped(nodes, levels, heights, lanes) && Exact(g, levels)
    requires i < |lanes| && j < |lanes| && n in lanes[i] && d in lanes[j] && d in Deps(g, n)
    ensures j < i
  {
    LaneLevel(nodes, levels, heights, lanes, n, i);
    LaneLevel(nodes, levels, heights, lanes, d, j);
    StrictlyAbove(g, n, d, levels[n], levels[d]);
    var l :| GroupedBelow(nodes, levels, heights, lanes, l);
  }
}
