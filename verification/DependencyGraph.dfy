/** internal/model/dependency.go: the dependency graph and its three-colour
    depth-first cycle detection. */
module DependencyGraph {
  import opened Common

  type Graph = map<int, seq<int>>

  /** The dependencies of a node; a node that is not a key has none. */
  function Deps(g: Graph, n: int): seq<int> { if n in g then g[n] else [] }

  ghost predicate IsPath(g: Graph, p: seq<int>) {
    p != [] && forall i :: 0 < i < |p| ==> p[i] in Deps(g, p[i - 1])
  }

  /** A non-empty path leads from a to b. */
  ghost predicate Reaches(g: Graph, a: int, b: int) {
    exists p :: IsPath(g, p) && |p| >= 2 && p[0] == a && p[|p| - 1] == b
  }

  ghost predicate Cyclic(g: Graph) { exists n :: Reaches(g, n, n) }

  /** Keys and the nodes they depend on. */
  ghost function Nodes(g: Graph): set<int> {
    g.Keys + (set n, i | n in g && 0 <= i < |g[n]| :: g[n][i])
  }

  lemma DepsAreNodes(g: Graph, n: int, d: int)
    requires d in Deps(g, n)
    ensures n in g && d in Nodes(g)
  {}

  /** A set that contains the dependencies of its members is never left. */
  ghost predicate Closed(g: Graph, s: set<int>) { forall n, d :: n in s && d in Deps(g, n) ==> d in s }

  lemma {:induction false} ClosedPath(g: Graph, s: set<int>, p: seq<int>, k: nat)
    requires Closed(g, s) && IsPath(g, p) && p[0] in s && k < |p|
    ensures p[k] in s
  {
    if k > 0 {
      ClosedPath(g, s, p, k - 1);
      var a, b := p[k - 1], p[k];
      assert a in s && b in Deps(g, a);
    }
  }

  ghost predicate NoneOnCycle(g: Graph, s: set<int>) { forall n :: n in s ==> !Reaches(g, n, n) }

  /** A node all of whose dependencies are done can be done as well. */
  lemma Blacken(g: Graph, s: set<int>, node: int)
    requires Closed(g, s) && NoneOnCycle(g, s) && node !in s
    requires forall d :: d in Deps(g, node) ==> d in s
    ensures Closed(g, s + {node}) && NoneOnCycle(g, s + {node})
  {
    forall p | IsPath(g, p) && |p| >= 2 && p[0] == node ensures p[|p| - 1] != node {
      var rest := p[1..];
      var d := p[1];
      assert d in Deps(g, node);
      assert rest[0] == d;
      ClosedPath(g, s, rest, |rest| - 1);
    }
    assert !Reaches(g, node, node);
  }

  /** A path that comes back to one of its nodes closes a cycle. */
  lemma BackEdge(g: Graph, p: seq<int>, i: nat)
    requires IsPath(g, p) && i < |p| && p[i] in Deps(g, p[|p| - 1])
    ensures Cyclic(g)
  {
    var c := p[i..] + [p[i]];
    forall k | 0 < k < |c| ensures c[k] in Deps(g, c[k - 1]) {
      assert c[k - 1] == p[i + k - 1];
      if k < |c| - 1 { assert p[i + k] in Deps(g, p[i + k - 1]); }
    }
    assert IsPath(g, c) && |c| >= 2 && c[0] == p[i] && c[|c| - 1] == p[i];
    assert Reaches(g, p[i], p[i]);
  }

  const IN_PROGRESS := 1
  const DONE := 2

  ghost function DoneIn(visited: map<int, int>): set<int> { set n | n in visited && visited[n] == DONE }

  /** The colouring invariant: what is done is closed and on no cycle. */
  ghost predicate Coloured(g: Graph, visited: map<int, int>) {
    && visited.Keys <= Nodes(g)
    && (forall n :: n in visited ==> visited[n] == IN_PROGRESS || visited[n] == DONE)
    && Closed(g, DoneIn(visited)) && NoneOnCycle(g, DoneIn(visited))
  }

  /** The nodes in progress are exactly those on the current path. */
  ghost predicate OnStack(g: Graph, visited: map<int, int>, stack: seq<int>) {
    && (stack == [] || IsPath(g, stack))
    && (forall n :: n in stack <==> n in visited && visited[n] == IN_PROGRESS)
  }

  ghost predicate MayVisit(g: Graph, visited: map<int, int>, stack: seq<int>, node: int) {
    && Coloured(g, visited) && OnStack(g, visited, stack) && node in Nodes(g) && node !in visited
    && (stack != [] ==> node in Deps(g, stack[|stack| - 1]))
  }

  ghost predicate FirstIn(list: seq<int>, k: nat, s: set<int>)
    requires k <= |list|
  {
    forall i :: 0 <= i < k ==> list[i] in s
  }

  lemma FirstInGrows(list: seq<int>, k: nat, s: set<int>, s': set<int>)
    requires k < |list| && FirstIn(list, k, s) && s <= s' && list[k] in s'
    ensures FirstIn(list, k + 1, s')
  {}

  lemma Enter(g: Graph, visited: map<int, int>, stack: seq<int>, node: int)
    requires MayVisit(g, visited, stack, node)
    ensures var after := visited[node := IN_PROGRESS];
            Coloured(g, after) && OnStack(g, after, stack + [node]) && DoneIn(after) == DoneIn(visited)
  {
    assert DoneIn(visited[node := IN_PROGRESS]) == DoneIn(visited);
    var path := stack + [node];
    forall n ensures n in path <==> n in visited[node := IN_PROGRESS] && visited[node := IN_PROGRESS][n] == IN_PROGRESS {
      assert n in path <==> n in stack || n == node;
    }
  }

  lemma Leave(g: Graph, visited: map<int, int>, stack: seq<int>, node: int)
    requires Coloured(g, visited) && OnStack(g, visited, stack + [node]) && node !in stack && node in visited
    requires FirstIn(Deps(g, node), |Deps(g, node)|, DoneIn(visited))
    ensures var after := visited[node := DONE];
            Coloured(g, after) && OnStack(g, after, stack) && DoneIn(after) == DoneIn(visited) + {node}
  {
    var path := stack + [node];
    assert node in path;
    assert node !in DoneIn(visited);
    Blacken(g, DoneIn(visited), node);
    assert DoneIn(visited[node := DONE]) == DoneIn(visited) + {node};
    forall n ensures n in stack <==> n in visited[node := DONE] && visited[node := DONE][n] == IN_PROGRESS {
      assert n in path <==> n in stack || n == node;
    }
    if stack != [] {
      forall i | 0 < i < |stack| ensures stack[i] in Deps(g, stack[i - 1]) { assert path[i] in Deps(g, path[i - 1]); }
    }
  }

  class CycleDetector {
    const graph: Graph
    var visited: map<int, int>

    constructor (graph: Graph)
      ensures this.graph == graph && visited == map[]
    {
      this.graph := graph;
      visited := map[];
    }

    /** One turn of the loop over a node's dependencies; node ends the current path. */
    method Visit(dep: int, ghost path: seq<int>) returns (cyclic: bool)
      requires Coloured(graph, visited) && OnStack(graph, visited, path)
      requires path != [] && dep in Deps(graph, path[|path| - 1])
      modifies this
      decreases |Nodes(graph) - visited.Keys|, 1
      ensures cyclic ==> Cyclic(graph)
      ensures !cyclic ==>
                && Coloured(graph, visited) && OnStack(graph, visited, path)
                && dep in DoneIn(visited) && old(DoneIn(visited)) <= DoneIn(visited)
      ensures old(visited.Keys) <= visited.Keys
    {
      DepsAreNodes(graph, path[|path| - 1], dep);
      if dep in visited && visited[dep] == IN_PROGRESS {
        assert dep in path;
        ghost var i: int :| 0 <= i < |path| && path[i] == dep;
        BackEdge(graph, path, i);
        return true;
      }
      cyclic := false;
      if dep !in visited { cyclic := Dfs(dep, path); }
    }

    method Dfs(node: int, ghost stack: seq<int>) returns (cyclic: bool)
      requires MayVisit(graph, visited, stack, node)
      modifies this
      decreases |Nodes(graph) - visited.Keys|, 0
      ensures cyclic ==> Cyclic(graph)
      ensures !cyclic ==>
                && Coloured(graph, visited) && OnStack(graph, visited, stack)
                && node in DoneIn(visited) && old(DoneIn(visited)) <= DoneIn(visited)
      ensures old(visited.Keys) <= visited.Keys
    {
      assert node !in stack;
      Enter(graph, visited, stack, node);
      visited := visited[node := IN_PROGRESS];
      ghost var path := stack + [node];
      assert path[|path| - 1] == node;
      var deps := Deps(graph, node);
      for k := 0 to |deps|
        invariant Coloured(graph, visited) && OnStack(graph, visited, path)
        invariant old(DoneIn(visited)) <= DoneIn(visited) && old(visited.Keys) + {node} <= visited.Keys
        invariant FirstIn(deps, k, DoneIn(visited))
      {
        Smaller(Nodes(graph) - visited.Keys, old(Nodes(graph) - visited.Keys), node);
        ghost var before := DoneIn(visited);
        cyclic := Visit(deps[k], path);
        if cyclic { return; }
        FirstInGrows(deps, k, before, DoneIn(visited));
      }
      Leave(graph, visited, stack, node);
      visited := visited[node := DONE];
      return false;
    }

    /** True exactly when some node reaches itself by a non-empty path. */
    method DetectCycle() returns (cyclic: bool)
      requires visited == map[]
      modifies this
      ensures cyclic <==> Cyclic(graph)
    {
      var keys := graph.Keys;
      while keys != {}
        invariant Coloured(graph, visited) && OnStack(graph, visited, []) && keys <= graph.Keys
        invariant graph.Keys - keys <= DoneIn(visited)
        decreases keys
      {
        var node := Least(keys);
        if node !in visited {
          var found := Dfs(node, []);
          if found { return true; }
        } else {
          assert node !in [] && visited[node] == DONE;
        }
        keys := keys - {node};
      }
      AllDone(graph, DoneIn(visited));
      return false;
    }
  }

  lemma AllDone(g: Graph, done: set<int>)
    requires NoneOnCycle(g, done) && g.Keys <= done
    ensures !Cyclic(g)
  {
    forall n ensures !Reaches(g, n, n) {
      forall p | IsPath(g, p) && |p| >= 2 && p[0] == n && p[|p| - 1] == n ensures n in done {
        assert p[1] in Deps(g, p[0]);
        DepsAreNodes(g, p[0], p[1]);
      }
    }
  }

  lemma Smaller<T>(a: set<T>, b: set<T>, x: T)
    requires a <= b && x in b && x !in a
    ensures |a| < |b|
  {
    assert b == a + (b - a);
    assert |b| == |a| + |b - a|;
    assert x in b - a;
  }
}
