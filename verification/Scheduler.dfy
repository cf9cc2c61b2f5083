/** Ready tasks and their order: `Scheduler::next_tasks` and `Scheduler::prioritize_tasks`. */
module Scheduler {
  import opened DepGraph
  import opened Plan
  import opened Sorting

  /** Pending, and every dependency is in the plan and Completed. */
  predicate Ready(ts: Tasks, id: Id) {
    && HasStatus(ts, id, Pending)
    && forall d :: d in ts[id].dependencies ==> HasStatus(ts, d, Completed)
  }

  ghost predicate NoDuplicates<T>(s: seq<T>) {
    forall i, j :: 0 <= i < j < |s| ==> s[i] != s[j]
  }

  /** `s` lists the elements of `xs`, each once, in some order. */
  ghost predicate Enumerates<T>(s: seq<T>, xs: set<T>) {
    NoDuplicates(s) && (forall x :: x in s ==> x in xs) && (forall x :: x in xs ==> x in s)
  }

  lemma EnumeratesSnoc<T>(s: seq<T>, xs: set<T>, x: T)
    requires Enumerates(s, xs) && x !in xs
    ensures Enumerates(s + [x], xs + {x})
  {
    assert forall y :: y in s + [x] ==> y in xs + {x};
  }

  function ReadySet(ts: Tasks): set<Id> {
    set id | id in ts && Ready(ts, id)
  }

  /** The ready tasks, in the order the plan's map happens to have. */
  method NextTasks(ts: Tasks) returns (ready: seq<Id>)
    requires KeyedById(ts)
    ensures Enumerates(ready, ReadySet(ts))
    ensures forall id :: id in ready <==>
      && id in ts && ts[id].status == Pending
      && forall d :: d in ts[id].dependencies ==> d in ts && ts[d].status == Completed
  {
    ready := [];
    var todo := ts.Keys;
    while todo != {}
      invariant todo <= ts.Keys
      invariant Enumerates(ready, ReadySet(ts) - todo)
    {
      var key :| key in todo;
      ghost var seen := ReadySet(ts) - todo;
      todo := todo - {key};
      var satisfied := ts[key].status == Pending;
      if satisfied {
        var deps := ts[key].dependencies;
        for i := 0 to |deps|
          invariant satisfied
          invariant forall k :: 0 <= k < i ==> HasStatus(ts, deps[k], Completed)
        {
          if deps[i] !in ts || ts[deps[i]].status != Completed {
            assert deps[i] in ts[key].dependencies && !Ready(ts, key);
            satisfied := false;
            break;
          }
        }
      }
      assert satisfied <==> Ready(ts, key);
      if satisfied {
        EnumeratesSnoc(ready, seen, key);
        assert ReadySet(ts) - todo == seen + {key};
        ready := ready + [ts[key].id];
      } else {
        assert ReadySet(ts) - todo == seen;
      }
    }
    assert ReadySet(ts) - {} == ReadySet(ts);
  }

  // ---- Priorities ----

  function CountOf(counts: map<Id, nat>, id: Id): nat {
    if id in counts then counts[id] else 0
  }

  lemma CountOneMore(g: Graph, id: Id, key: Id, todo: set<Id>)
    requires key in todo && key in g
    ensures |Dependents(g, id) - (todo - {key})|
         == |Dependents(g, id) - todo| + if id in ReachSet(g, key) then 1 else 0
  {
    if Reaches(g, key, id) {
      ReachesInUniverse(g, key, id);
      assert Dependents(g, id) - (todo - {key}) == Dependents(g, id) - todo + {key};
    } else {
      assert Dependents(g, id) - (todo - {key}) == Dependents(g, id) - todo;
    }
  }

  /** For every id, how many tasks transitively depend on it. */
  method DownstreamCounts(g: Graph) returns (counts: map<Id, nat>)
    ensures forall id :: CountOf(counts, id) == |Dependents(g, id)|
  {
    counts := map[];
    var todo := g.Keys;
    while todo != {}
      invariant todo <= g.Keys
      invariant forall id :: CountOf(counts, id) == |Dependents(g, id) - todo|
    {
      var key :| key in todo;
      var visited := TransitiveDependencies(g, key);
      counts := CountVisited(counts, visited);
      forall id ensures CountOf(counts, id) == |Dependents(g, id) - (todo - {key})| {
        CountOneMore(g, id, key, todo);
      }
      todo := todo - {key};
    }
    forall id ensures CountOf(counts, id) == |Dependents(g, id)| {
      assert Dependents(g, id) - {} == Dependents(g, id);
    }
  }

  method CountVisited(counts: map<Id, nat>, visited: set<Id>) returns (counts': map<Id, nat>)
    ensures forall id :: CountOf(counts', id) == CountOf(counts, id) + if id in visited then 1 else 0
  {
    counts' := counts;
    var rest := visited;
    while rest != {}
      invariant rest <= visited
      invariant forall id :: CountOf(counts', id) == CountOf(counts, id) + if id in visited - rest then 1 else 0
    {
      var dep :| dep in rest;
      counts' := counts'[dep := CountOf(counts', dep) + 1];
      rest := rest - {dep};
    }
  }

  function ByCount(counts: map<Id, nat>): Order<Id> {
    (a, b) => CountOf(counts, b) <= CountOf(counts, a)
  }

  /** More dependents first. */
  ghost function ByDependents(g: Graph): Order<Id> {
    (a, b) => |Dependents(g, b)| <= |Dependents(g, a)|
  }

  /** The ready ids, sorted stably by the number of tasks that wait for them. */
  method PrioritizeTasks(ts: Tasks, ready: seq<Id>) returns (sorted: seq<Id>)
    ensures SortedBy(sorted, ByDependents(Deps(ts)))
    ensures multiset(sorted) == multiset(ready) && |sorted| == |ready|
    ensures forall y :: Ties(sorted, y, ByDependents(Deps(ts))) == Ties(ready, y, ByDependents(Deps(ts)))
  {
    var counts := DownstreamCounts(Deps(ts));
    sorted := StableSort(ready, ByCount(counts));
    StableSortProperties(ready, ByCount(counts));
    forall y ensures Ties(sorted, y, ByDependents(Deps(ts))) == Ties(ready, y, ByDependents(Deps(ts))) {
      TiesAgree(sorted, y, ByCount(counts), ByDependents(Deps(ts)));
      TiesAgree(ready, y, ByCount(counts), ByDependents(Deps(ts)));
    }
  }

  lemma {:induction false} TiesAgree<T(!new)>(s: seq<T>, y: T, leq: Order<T>, leq': Order<T>)
    requires forall a, b :: leq(a, b) == leq'(a, b)
    ensures Ties(s, y, leq) == Ties(s, y, leq')
  {
    if s != [] {
      TiesAgree(s[1..], y, leq, leq');
    }
  }

  /** On an acyclic plan a dependency has strictly more dependents than what depends on it. */
  lemma DependencyCountsMore(g: Graph, a: Id, b: Id)
    requires !Cyclic(g) && Reaches(g, b, a)
    ensures |Dependents(g, b)| < |Dependents(g, a)|
  {
    ReachesInUniverse(g, b, a);
    forall x | x in Dependents(g, b) ensures x in Dependents(g, a) {
      ReachesTransitive(g, x, b, a);
    }
    assert b in Dependents(g, a) && b !in Dependents(g, b);
    SubsetSize(Dependents(g, b), Dependents(g, a));
  }

  /** In a prioritised list a task comes after everything it transitively depends on. */
  lemma DependenciesFirst(ts: Tasks, sorted: seq<Id>, i: nat, j: nat)
    requires !Cyclic(Deps(ts)) && SortedBy(sorted, ByDependents(Deps(ts)))
    requires i < |sorted| && j < |sorted| && Reaches(Deps(ts), sorted[j], sorted[i])
    ensures i < j
  {
    DependencyCountsMore(Deps(ts), sorted[i], sorted[j]);
  }
}
