/**
 * Dependency graphs: an id is mapped to the ids it depends on.  Ids that are
 * mentioned but have no entry ("dangling" ids) are leaves.  The planning
 * scheduler and the multi-repository coordinator run the same searches over
 * such graphs, so both are modelled here once.
 */
module DepGraph {
  type Id = string
  type Graph = map<Id, seq<Id>>

  ghost predicate Edge(g: Graph, a: Id, b: Id) {
    a in g && b in g[a]
  }

  ghost predicate IsPath(g: Graph, p: seq<Id>) {
    && p != []
    && forall i, j :: 0 <= i && j == i + 1 && j < |p| ==> Edge(g, p[i], p[j])
  }

  /** A non-empty dependency path leads from `a` to `b`. */
  ghost predicate Reaches(g: Graph, a: Id, b: Id) {
    exists p {:trigger IsPath(g, p)} :: IsPath(g, p) && |p| >= 2 && p[0] == a && p[|p| - 1] == b
  }

  ghost predicate Cyclic(g: Graph) {
    exists x :: Reaches(g, x, x)
  }

  /** Every mentioned id has an entry. */
  ghost predicate Closed(g: Graph) {
    forall a, b :: Edge(g, a, b) ==> b in g
  }

  function Universe(g: Graph): set<Id> {
    g.Keys + set a, i | a in g && 0 <= i < |g[a]| :: g[a][i]
  }

  /** The ids that `a` transitively depends on. */
  ghost function ReachSet(g: Graph, a: Id): set<Id> {
    set b | b in Universe(g) && Reaches(g, a, b)
  }

  /** The ids that transitively depend on `b`. */
  ghost function Dependents(g: Graph, b: Id): set<Id> {
    set a | a in g && Reaches(g, a, b)
  }

  // ---- Paths ----

  lemma EdgeReaches(g: Graph, a: Id, b: Id)
    requires Edge(g, a, b)
    ensures Reaches(g, a, b)
  {
    assert IsPath(g, [a, b]);
  }

  lemma ReachesTransitive(g: Graph, a: Id, b: Id, c: Id)
    requires Reaches(g, a, b) && Reaches(g, b, c)
    ensures Reaches(g, a, c)
  {
    var p :| IsPath(g, p) && |p| >= 2 && p[0] == a && p[|p| - 1] == b;
    var q :| IsPath(g, q) && |q| >= 2 && q[0] == b && q[|q| - 1] == c;
    var r := p + q[1..];
    forall i, j | 0 <= i && j == i + 1 && j < |r| ensures Edge(g, r[i], r[j]) {
      if i >= |p| - 1 {
        assert r[i] == q[i - |p| + 1] && r[j] == q[j - |p| + 1];
      }
    }
    assert IsPath(g, r);
  }

  /** The first edge of a path. */
  lemma ReachesFirst(g: Graph, a: Id, c: Id) returns (b: Id)
    requires Reaches(g, a, c)
    ensures Edge(g, a, b) && (b == c || Reaches(g, b, c))
  {
    var p :| IsPath(g, p) && |p| >= 2 && p[0] == a && p[|p| - 1] == c;
    b := p[1];
    if |p| > 2 {
      assert IsPath(g, p[1..]);
    }
  }

  /** The last edge of a path. */
  lemma ReachesLast(g: Graph, a: Id, c: Id) returns (b: Id)
    requires Reaches(g, a, c)
    ensures Edge(g, b, c) && (a == b || Reaches(g, a, b))
  {
    var p :| IsPath(g, p) && |p| >= 2 && p[0] == a && p[|p| - 1] == c;
    b := p[|p| - 2];
    if |p| > 2 {
      assert IsPath(g, p[..|p| - 1]);
    }
  }

  lemma ReachesInUniverse(g: Graph, a: Id, b: Id)
    requires Reaches(g, a, b)
    ensures a in g && b in Universe(g)
  {
    var x := ReachesFirst(g, a, b);
    var y := ReachesLast(g, a, b);
    var i :| 0 <= i < |g[y]| && g[y][i] == b;
  }

  /** A set that is closed under edges is closed under paths. */
  lemma {:induction false} ClosedUnderPath(g: Graph, s: set<Id>, p: seq<Id>)
    requires IsPath(g, p) && p[0] in s
    requires forall x, d :: x in s && Edge(g, x, d) ==> d in s
    ensures p[|p| - 1] in s
    decreases |p|
  {
    if |p| > 1 {
      assert Edge(g, p[0], p[1]);
      assert IsPath(g, p[1..]);
      ClosedUnderPath(g, s, p[1..]);
    }
  }

  lemma ClosedUnderReach(g: Graph, s: set<Id>, a: Id, b: Id)
    requires Reaches(g, a, b) && a in s
    requires forall x, d :: x in s && Edge(g, x, d) ==> d in s
    ensures b in s
  {
    var p :| IsPath(g, p) && |p| >= 2 && p[0] == a && p[|p| - 1] == b;
    ClosedUnderPath(g, s, p);
  }

  // ---- Bad news travels up the dependencies ----

  /** A path through ids of `via` to an id of `bad`. */
  ghost predicate BadPath(g: Graph, via: set<Id>, bad: set<Id>, p: seq<Id>) {
    && |p| >= 2 && IsPath(g, p) && p[|p| - 1] in bad
    && forall i :: 0 <= i < |p| - 1 ==> p[i] in via
  }

  /** `a` depends on an id of `bad`, directly or through ids of `via` only, and is one of these. */
  ghost predicate LeadsTo(g: Graph, via: set<Id>, bad: set<Id>, a: Id) {
    exists p {:trigger BadPath(g, via, bad, p)} :: BadPath(g, via, bad, p) && p[0] == a
  }

  /** One step of the way. */
  lemma LeadsToUnfold(g: Graph, via: set<Id>, bad: set<Id>, a: Id)
    ensures LeadsTo(g, via, bad, a) <==>
      a in via && exists d :: Edge(g, a, d) && (d in bad || LeadsTo(g, via, bad, d))
  {
    if LeadsTo(g, via, bad, a) {
      var p :| BadPath(g, via, bad, p) && p[0] == a;
      assert Edge(g, p[0], p[1]);
      if |p| > 2 {
        assert BadPath(g, via, bad, p[1..]);
      }
    }
    if a in via {
      if d :| Edge(g, a, d) && (d in bad || LeadsTo(g, via, bad, d)) {
        if d in bad {
          assert BadPath(g, via, bad, [a, d]);
        } else {
          var p :| BadPath(g, via, bad, p) && p[0] == d;
          assert BadPath(g, via, bad, [a] + p);
        }
      }
    }
  }

  /** `s` contains what is in `via` and depends on `bad` or on `s`. */
  ghost predicate Absorbs(g: Graph, via: set<Id>, bad: set<Id>, s: set<Id>) {
    forall a, d :: a in via && Edge(g, a, d) && (d in bad || d in s) ==> a in s
  }

  lemma {:induction false} AbsorbsPath(g: Graph, via: set<Id>, bad: set<Id>, s: set<Id>, p: seq<Id>)
    requires BadPath(g, via, bad, p) && Absorbs(g, via, bad, s)
    ensures p[0] in s
    decreases |p|
  {
    assert Edge(g, p[0], p[1]);
    if |p| > 2 {
      assert BadPath(g, via, bad, p[1..]);
      AbsorbsPath(g, via, bad, s, p[1..]);
    }
  }

  /** Every absorbing set contains everything that leads to `bad`. */
  lemma LeadsToLeast(g: Graph, via: set<Id>, bad: set<Id>, s: set<Id>)
    requires Absorbs(g, via, bad, s)
    ensures forall a :: LeadsTo(g, via, bad, a) ==> a in s
  {
    forall a | LeadsTo(g, via, bad, a) ensures a in s {
      var p :| BadPath(g, via, bad, p) && p[0] == a;
      AbsorbsPath(g, via, bad, s, p);
    }
  }

  // ---- Acyclicity and ranks ----

  /** On an acyclic graph, the number of ids below strictly falls along every edge. */
  lemma ReachSetShrinks(g: Graph, a: Id, b: Id)
    requires !Cyclic(g) && Edge(g, a, b)
    ensures ReachSet(g, b) < ReachSet(g, a)
    ensures |ReachSet(g, b)| < |ReachSet(g, a)|
  {
    EdgeReaches(g, a, b);
    ReachesInUniverse(g, a, b);
    forall x | x in ReachSet(g, b) ensures x in ReachSet(g, a) {
      ReachesTransitive(g, a, b, x);
    }
    assert b in ReachSet(g, a) && b !in ReachSet(g, b);
    SubsetSize(ReachSet(g, b), ReachSet(g, a));
  }

  lemma SubsetSize<T>(s: set<T>, t: set<T>)
    requires s <= t
    ensures |s| <= |t|
    ensures s < t ==> |s| < |t|
  {
    assert t == s + (t - s);
    assert s != t ==> t - s != {};
  }

  /** `rank` is a topological rank: it falls along every edge. */
  ghost predicate Ranks(g: Graph, rank: map<Id, nat>) {
    && Universe(g) <= rank.Keys
    && forall a, b :: Edge(g, a, b) && a in rank && b in rank ==> rank[b] < rank[a]
  }

  lemma {:induction false} RankFallsAlongPath(g: Graph, rank: map<Id, nat>, p: seq<Id>)
    requires Ranks(g, rank) && IsPath(g, p) && |p| >= 2
    ensures p[0] in rank && p[|p| - 1] in rank && rank[p[|p| - 1]] < rank[p[0]]
    decreases |p|
  {
    assert Edge(g, p[0], p[1]);
    EdgeReaches(g, p[0], p[1]);
    ReachesInUniverse(g, p[0], p[1]);
    if |p| > 2 {
      assert IsPath(g, p[1..]);
      RankFallsAlongPath(g, rank, p[1..]);
    }
  }

  /** A graph is acyclic exactly when it has a topological rank. */
  lemma AcyclicIffRanked(g: Graph)
    ensures !Cyclic(g) <==> exists rank :: Ranks(g, rank)
  {
    if !Cyclic(g) {
      var rank := map x | x in Universe(g) :: |ReachSet(g, x)|;
      forall a, b | Edge(g, a, b) && a in rank && b in rank ensures rank[b] < rank[a] {
        ReachSetShrinks(g, a, b);
      }
      assert Ranks(g, rank);
    }
    if rank :| Ranks(g, rank) {
      if x :| Reaches(g, x, x) {
        var p :| IsPath(g, p) && |p| >= 2 && p[0] == x && p[|p| - 1] == x;
        RankFallsAlongPath(g, rank, p);
      }
    }
  }

  // ---- Cycle detection ----

  /** DFS colours; an id without a colour has not been visited. */
  datatype Colour = Visiting | Visited

  /** Finished ids only depend on finished ids, and none of them lies on a cycle. */
  ghost predicate FinishedOk(g: Graph, colour: map<Id, Colour>) {
    forall x :: x in colour && colour[x] == Visited ==>
      && !Reaches(g, x, x)
      && forall d :: Edge(g, x, d) ==> d in colour && colour[d] == Visited
  }

  /** `stack` is the chain of ids being visited: a path without its final id. */
  ghost predicate OnStack(colour: map<Id, Colour>, stack: seq<Id>) {
    forall x :: x in stack <==> x in colour && colour[x] == Visiting
  }

  lemma FinishedReach(g: Graph, colour: map<Id, Colour>, a: Id, b: Id)
    requires FinishedOk(g, colour) && a in colour && colour[a] == Visited && Reaches(g, a, b)
    ensures b in colour && colour[b] == Visited
  {
    var finished := set x | x in colour && colour[x] == Visited;
    ClosedUnderReach(g, finished, a, b);
  }

  lemma StackCycle(g: Graph, chain: seq<Id>, k: nat, d: Id)
    requires IsPath(g, chain) && k < |chain| && chain[k] == d && Edge(g, chain[|chain| - 1], d)
    ensures Cyclic(g)
  {
    var p := chain[k..] + [d];
    assert IsPath(g, p);
    assert Reaches(g, d, d);
  }

  lemma EnterNode(g: Graph, colour: map<Id, Colour>, stack: seq<Id>, node: Id)
    requires node !in colour && OnStack(colour, stack) && FinishedOk(g, colour)
    ensures OnStack(colour[node := Visiting], stack + [node])
    ensures FinishedOk(g, colour[node := Visiting])
  {
  }

  lemma LeaveNode(g: Graph, colour: map<Id, Colour>, stack: seq<Id>, node: Id)
    requires node !in stack && OnStack(colour, stack + [node]) && FinishedOk(g, colour)
    requires forall d :: Edge(g, node, d) ==> d in colour && colour[d] == Visited
    ensures OnStack(colour[node := Visited], stack)
    ensures FinishedOk(g, colour[node := Visited])
  {
    assert node in stack + [node];
    if Reaches(g, node, node) {
      var d := ReachesFirst(g, node, node);
      if d != node {
        FinishedReach(g, colour, d, node);
      }
      assert false;
    }
    forall x | x in stack ensures x in colour && colour[x] == Visiting {
      assert x in stack + [node];
    }
    forall x | x in colour && colour[x] == Visiting && x != node ensures x in stack {
      assert x in stack + [node];
    }
  }

  /** Between two states with the same ids under visit, finished ids stay finished. */
  lemma FinishedStays(g: Graph, c: map<Id, Colour>, c': map<Id, Colour>, stack: seq<Id>)
    requires OnStack(c, stack) && OnStack(c', stack) && c.Keys <= c'.Keys
    ensures forall x :: x in c && c[x] == Visited ==> c'[x] == Visited
  {
  }

  lemma ExtendPath(g: Graph, chain: seq<Id>, d: Id)
    requires IsPath(g, chain) && Edge(g, chain[|chain| - 1], d)
    ensures IsPath(g, chain + [d])
  {
  }

  method Dfs(g: Graph, node: Id, visited: map<Id, Colour>, ghost stack: seq<Id>)
    returns (found: bool, visited': map<Id, Colour>)
    requires node in Universe(g) && node !in visited && visited.Keys <= Universe(g)
    requires IsPath(g, stack + [node]) && OnStack(visited, stack)
    requires FinishedOk(g, visited)
    ensures found ==> Cyclic(g)
    ensures !found ==>
      && visited.Keys <= visited'.Keys <= Universe(g)
      && node in visited' && visited'[node] == Visited
      && OnStack(visited', stack) && FinishedOk(g, visited')
    decreases Universe(g) - visited.Keys
  {
    EnterNode(g, visited, stack, node);
    visited' := visited[node := Visiting];
    if node in g {
      for i := 0 to |g[node]|
        invariant visited.Keys + {node} <= visited'.Keys <= Universe(g)
        invariant OnStack(visited', stack + [node]) && FinishedOk(g, visited')
        invariant forall k :: 0 <= k < i ==> g[node][k] in visited' && visited'[g[node][k]] == Visited
      {
        var dep := g[node][i];
        assert Edge(g, node, dep) && dep in Universe(g);
        if dep in visited' && visited'[dep] == Visiting {
          ghost var k :| 0 <= k < |stack + [node]| && (stack + [node])[k] == dep;
          StackCycle(g, stack + [node], k, dep);
          return true, visited';
        } else if dep !in visited' {
          ExtendPath(g, stack + [node], dep);
          ghost var before := visited';
          found, visited' := Dfs(g, dep, visited', stack + [node]);
          if found {
            return;
          }
          FinishedStays(g, before, visited', stack + [node]);
        }
      }
    }
    LeaveNode(g, visited', stack, node);
    visited' := visited'[node := Visited];
    found := false;
  }

  /**
   * Three-colour depth-first search from every id.  The answer is `true`
   * exactly when some id reaches itself.
   */
  method HasCycles(g: Graph) returns (cyclic: bool)
    ensures cyclic <==> Cyclic(g)
    ensures !cyclic <==> exists rank :: Ranks(g, rank)
  {
    AcyclicIffRanked(g);
    var visited: map<Id, Colour> := map[];
    var todo := g.Keys;
    while todo != {}
      invariant todo <= g.Keys && visited.Keys <= Universe(g)
      invariant OnStack(visited, []) && FinishedOk(g, visited)
      invariant forall x :: x in g.Keys - todo ==> x in visited && visited[x] == Visited
    {
      var id :| id in todo;
      todo := todo - {id};
      if id !in visited {
        var found;
        assert [] + [id] == [id];
        found, visited := Dfs(g, id, visited, []);
        if found {
          return true;
        }
      }
    }
    if x :| Reaches(g, x, x) {
      ReachesInUniverse(g, x, x);
    }
    return false;
  }

  // ---- Transitive dependencies ----

  /** Worklist search: everything `start` transitively depends on. */
  method TransitiveDependencies(g: Graph, start: Id) returns (visited: set<Id>)
    ensures visited == ReachSet(g, start)
  {
    visited := {};
    var stack := [start];
    while stack != []
      invariant visited <= ReachSet(g, start)
      invariant forall x :: x in stack ==> x == start || x in visited
      invariant forall x, d :: (x == start || x in visited) && x !in stack && Edge(g, x, d) ==> d in visited
      decreases ReachSet(g, start) - visited, |stack|
    {
      var curr := stack[|stack| - 1];
      ghost var rest := stack[..|stack| - 1];
      ghost var visited0 := visited;
      assert stack == rest + [curr];
      stack := stack[..|stack| - 1];
      if curr in g {
        for i := 0 to |g[curr]|
          invariant visited0 <= visited <= ReachSet(g, start)
          invariant visited == visited0 ==> stack == rest
          invariant forall x :: x in rest ==> x in stack
          invariant forall x :: x in stack ==> x == start || x in visited
          invariant forall k :: 0 <= k < i ==> g[curr][k] in visited
          invariant forall x :: x in visited && x !in visited0 ==> x in stack
        {
          var dep := g[curr][i];
          assert Edge(g, curr, dep);
          EdgeReaches(g, curr, dep);
          if curr != start {
            ReachesTransitive(g, start, curr, dep);
          }
          ReachesInUniverse(g, start, dep);
          if dep !in visited {
            visited := visited + {dep};
            stack := stack + [dep];
          }
        }
      }
    }
    forall b | b in ReachSet(g, start) ensures b in visited {
      ClosedUnderReach(g, visited + {start}, start, b);
      var d := ReachesLast(g, start, b);
      if d != start {
        ClosedUnderReach(g, visited + {start}, start, d);
      }
    }
  }
}
