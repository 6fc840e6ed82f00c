/** The stored dependency edges (internal/repo/teststore/task_repository.go), the
    graph built from them (internal/model/dependency.go) and their reconciliation
    with a wanted list (syncDependencies in internal/api/service/task_service.go). */
module TaskDependencies {
  import opened Common
  import opened RuntimeModel
  import opened DependencyGraph

  ghost function UpstreamSet(deps: seq<(int, int)>, task: int): set<int> { set d | d in Upstream(deps, task) }

  lemma {:induction false} UpstreamOfConcat(a: seq<(int, int)>, b: seq<(int, int)>, task: int)
    ensures Upstream(a + b, task) == Upstream(a, task) + Upstream(b, task)
    decreases |a|
  {
    if a == [] {
      assert a + b == b;
    } else {
      assert (a + b)[1..] == a[1..] + b;
      UpstreamOfConcat(a[1..], b, task);
    }
  }

  lemma UpstreamOfAppend(deps: seq<(int, int)>, e: (int, int), task: int)
    ensures Upstream(deps + [e], task) == Upstream(deps, task) + (if e.0 == task then [e.1] else [])
  {
    UpstreamOfConcat(deps, [e], task);
    assert [e][1..] == [];
  }

  /** Graph: the adjacency lists are the upstream lists, in edge order. */
  method BuildGraph(edges: seq<(int, int)>) returns (g: Graph)
    ensures forall n :: Deps(g, n) == Upstream(edges, n)
    ensures forall n :: n in g <==> Upstream(edges, n) != []
  {
    g := map[];
    for k := 0 to |edges|
      invariant forall n :: Deps(g, n) == Upstream(edges[..k], n)
      invariant forall n :: n in g <==> Upstream(edges[..k], n) != []
    {
      var e := edges[k];
      assert edges[..k + 1] == edges[..k] + [e];
      forall n ensures Upstream(edges[..k + 1], n) == Upstream(edges[..k], n) + (if e.0 == n then [e.1] else []) {
        UpstreamOfAppend(edges[..k], e, n);
      }
      g := g[e.0 := Deps(g, e.0) + [e.1]];
    }
    assert edges[..|edges|] == edges;
  }

  function Without(deps: seq<(int, int)>, e: (int, int)): seq<(int, int)> {
    if deps == [] then []
    else (if deps[0] == e then [] else [deps[0]]) + Without(deps[1..], e)
  }

  function Drop(list: seq<int>, x: int): seq<int> {
    if list == [] then [] else (if list[0] == x then [] else [list[0]]) + Drop(list[1..], x)
  }

  lemma {:induction false} UpstreamOfWithout(deps: seq<(int, int)>, e: (int, int), task: int)
    ensures Upstream(Without(deps, e), task) == if task == e.0 then Drop(Upstream(deps, task), e.1) else Upstream(deps, task)
    decreases |deps|
  {
    if deps != [] {
      UpstreamOfWithout(deps[1..], e, task);
      var first := if deps[0] == e then [] else [deps[0]];
      UpstreamOfConcat(first, Without(deps[1..], e), task);
      assert deps[0] != e ==> first[1..] == [];
    }
  }

  lemma {:induction false} DropRemoves(list: seq<int>, x: int, y: int)
    ensures y in Drop(list, x) <==> y in list && y != x
    decreases |list|
  {
    if list != [] {
      DropRemoves(list[1..], x, y);
      assert y in list <==> y == list[0] || y in list[1..];
    }
  }

  /** The edges of every task but one. */
  ghost predicate OthersKept(before: seq<(int, int)>, after: seq<(int, int)>, task: int) {
    forall t :: t != task ==> Upstream(after, t) == Upstream(before, t)
  }

  method AnyOf(s: set<int>) returns (x: int)
    requires s != {}
    ensures x in s
  {
    x := Least(s);
  }

  class TaskStore {
    var tasks: set<int>
    var deps: seq<(int, int)>

    method AddDependency(task: int, dep: int) returns (ok: bool)
      modifies this`deps
      ensures ok <==> task in tasks && dep in tasks
      ensures deps == if ok then old(deps) + [(task, dep)] else old(deps)
    {
      if task !in tasks || dep !in tasks { return false; }
      deps := deps + [(task, dep)];
      return true;
    }

    method RemoveDependency(task: int, dep: int)
      modifies this`deps
      ensures deps == Without(old(deps), (task, dep))
    {
      var filtered: seq<(int, int)> := [];
      for k := 0 to |deps|
        invariant deps == old(deps) && filtered + Without(deps[k..], (task, dep)) == Without(deps, (task, dep))
      {
        assert deps[k..][1..] == deps[k + 1..];
        if deps[k] != (task, dep) { filtered := filtered + [deps[k]]; }
      }
      deps := filtered;
    }

    method RemoveUnwanted(task: int, unwanted: set<int>)
      modifies this`deps
      ensures OthersKept(old(deps), deps, task)
      ensures UpstreamSet(deps, task) == UpstreamSet(old(deps), task) - unwanted
    {
      var rest := unwanted;
      while rest != {}
        invariant rest <= unwanted && OthersKept(old(deps), deps, task)
        invariant UpstreamSet(deps, task) == UpstreamSet(old(deps), task) - (unwanted - rest)
        decreases rest
      {
        var id := AnyOf(rest);
        ghost var before := deps;
        RemoveDependency(task, id);
        forall t ensures Upstream(deps, t) == if t == task then Drop(Upstream(before, t), id) else Upstream(before, t) {
          UpstreamOfWithout(before, (task, id), t);
        }
        forall d ensures d in UpstreamSet(deps, task) <==> d in UpstreamSet(before, task) && d != id {
          DropRemoves(Upstream(before, task), id, d);
        }
        rest := rest - {id};
      }
    }

    method AddMissing(task: int, missing: set<int>) returns (ok: bool)
      modifies this`deps
      ensures ok <==> missing == {} || (task in tasks && missing <= tasks)
      ensures OthersKept(old(deps), deps, task)
      ensures ok ==> UpstreamSet(deps, task) == UpstreamSet(old(deps), task) + missing
      ensures UpstreamSet(old(deps), task) <= UpstreamSet(deps, task) <= UpstreamSet(old(deps), task) + missing
    {
      var rest := missing;
      while rest != {}
        invariant rest <= missing && OthersKept(old(deps), deps, task)
        invariant UpstreamSet(deps, task) == UpstreamSet(old(deps), task) + (missing - rest)
        invariant missing - rest <= tasks && (rest != missing ==> task in tasks)
        decreases rest
      {
        var id := AnyOf(rest);
        ghost var before := deps;
        ok := AddDependency(task, id);
        if !ok { return; }
        forall t ensures Upstream(deps, t) == Upstream(before, t) + (if t == task then [id] else []) {
          UpstreamOfAppend(before, (task, id), t);
        }
        assert UpstreamSet(deps, task) == UpstreamSet(before, task) + {id};
        rest := rest - {id};
      }
      return true;
    }

    /** Afterwards the task depends on exactly the wanted tasks and no other edge has
        changed; it fails exactly when a wanted new edge names an unknown task, and
        then every edge that is left is a wanted one. */
    method SyncDependencies(task: int, wanted: seq<int>) returns (ok: bool)
      modifies this`deps
      ensures OthersKept(old(deps), deps, task)
      ensures var want := set d | d in wanted;
              && (ok ==> UpstreamSet(deps, task) == want)
              && UpstreamSet(deps, task) <= want
              && (ok <==> want <= UpstreamSet(old(deps), task)
                          || (task in tasks && want - UpstreamSet(old(deps), task) <= tasks))
    {
      var existing := set d | d in Upstream(deps, task);
      var want := set d | d in wanted;
      assert existing == UpstreamSet(deps, task);
      RemoveUnwanted(task, existing - want);
      ok := AddMissing(task, want - existing);
    }
  }
}
