/** Workflow graphs: building, compiling with an edge index, and following edges. */
module Graph {
  import opened Wrappers
  import opened AgentStates

  const END := "__end__"
  const CONTINUE := "__continue__"

  /** What running a node does to the shared state. */
  datatype ExecResult = Done(state: AgentState, output: NodeOutput) | Failed(error: string)

  datatype Node = Node(run: AgentState -> ExecResult, description: Option<string>)

  datatype EdgeKind = Direct | Conditional(router: AgentState -> string)

  datatype Edge = Edge(from: string, to: string, key: Option<string>, kind: EdgeKind)

  datatype Builder = Builder(
    nodes: map<string, Node>,
    edges: seq<Edge>,
    entryPoint: Option<string>,
    name: Option<string>,
    description: Option<string>)

  datatype Compiled = Compiled(
    nodes: map<string, Node>,
    outgoing: map<string, seq<int>>,
    edges: seq<Edge>,
    entryPoint: string,
    name: Option<string>,
    description: Option<string>)

  datatype GraphError = NoEntryPoint | NodeNotFound(id: string)

  // ---- The edge index ----

  /** The positions below `n` of the edges that leave `from`, ascending. */
  function IndicesFrom(edges: seq<Edge>, from: string, n: nat): seq<int>
    requires n <= |edges|
  {
    if n == 0 then []
    else IndicesFrom(edges, from, n - 1) + if edges[n - 1].from == from then [n - 1] else []
  }

  lemma {:induction false} IndicesFromExact(edges: seq<Edge>, from: string, n: nat)
    requires n <= |edges|
    ensures forall i :: i in IndicesFrom(edges, from, n) <==> 0 <= i < n && edges[i].from == from
  {
    if n > 0 {
      IndicesFromExact(edges, from, n - 1);
    }
  }

  ghost predicate Ascending(s: seq<int>) {
    forall j, k :: 0 <= j < k < |s| ==> s[j] < s[k]
  }

  lemma {:induction false} IndicesFromAscending(edges: seq<Edge>, from: string, n: nat)
    requires n <= |edges|
    ensures Ascending(IndicesFrom(edges, from, n))
  {
    if n > 0 {
      var before := IndicesFrom(edges, from, n - 1);
      IndicesFromAscending(edges, from, n - 1);
      IndicesFromExact(edges, from, n - 1);
      assert forall k :: 0 <= k < |before| ==> before[k] in before;
    }
  }

  function OutgoingOf(outgoing: map<string, seq<int>>, from: string): seq<int> {
    if from in outgoing then outgoing[from] else []
  }

  /** The index lists, for every node, exactly the edges that leave it. */
  ghost predicate IndexedUpTo(outgoing: map<string, seq<int>>, edges: seq<Edge>, n: nat)
    requires n <= |edges|
  {
    forall from :: OutgoingOf(outgoing, from) == IndicesFrom(edges, from, n)
  }

  ghost predicate Indexed(g: Compiled) {
    IndexedUpTo(g.outgoing, g.edges, |g.edges|)
  }

  /** The ids an edge may name: the builder's nodes and the END node that compiling adds. */
  function KnownIds(b: Builder): set<string> {
    b.nodes.Keys + {END}
  }

  predicate EdgeOk(ids: set<string>, e: Edge) {
    e.from in ids && (e.kind.Direct? ==> e.to in ids)
  }

  predicate EdgesOk(ids: set<string>, edges: seq<Edge>, n: nat)
    requires n <= |edges|
  {
    forall i :: 0 <= i < n ==> EdgeOk(ids, edges[i])
  }

  predicate WellFormed(b: Builder) {
    b.entryPoint.Some? && b.entryPoint.value in b.nodes && EdgesOk(KnownIds(b), b.edges, |b.edges|)
  }

  /** The error of the first edge that names an unknown node, `from` before `to`. */
  predicate FirstBadEdge(ids: set<string>, edges: seq<Edge>, i: nat, id: string)
    requires i < |edges|
  {
    && EdgesOk(ids, edges, i)
    && !EdgeOk(ids, edges[i])
    && id == if edges[i].from in ids then edges[i].to else edges[i].from
  }

  /** The error `compile` owes the caller: entry point first, then the edges in order. */
  predicate Deserved(b: Builder, e: GraphError) {
    if b.entryPoint.None? then e == NoEntryPoint
    else if b.entryPoint.value !in b.nodes then e == NodeNotFound(b.entryPoint.value)
    else e.NodeNotFound? && exists i :: 0 <= i < |b.edges| && FirstBadEdge(KnownIds(b), b.edges, i, e.id)
  }

  /** An edge both of whose ends exist; where a conditional edge leads is only known in a run. */
  ghost predicate EndsExist(b: Builder, e: Edge) {
    && (e.from in b.nodes || e.from == "__end__")
    && (e.kind.Direct? ==> e.to in b.nodes || e.to == "__end__")
  }

  /** The error owed for the first edge with an unknown end names its source, or else its target. */
  lemma FirstErrorNamed(b: Builder, error: GraphError, i: nat)
    requires Deserved(b, error) && b.entryPoint.Some? && b.entryPoint.value in b.nodes
    requires i < |b.edges| && !EndsExist(b, b.edges[i]) && forall k :: 0 <= k < i ==> EndsExist(b, b.edges[k])
    ensures var e := b.edges[i];
      error == NodeNotFound(if e.from !in b.nodes && e.from != "__end__" then e.from else e.to)
  {
    assert forall k :: 0 <= k < |b.edges| ==> (EdgeOk(KnownIds(b), b.edges[k]) <==> EndsExist(b, b.edges[k]));
    var j :| 0 <= j < |b.edges| && FirstBadEdge(KnownIds(b), b.edges, j, error.id);
    assert i == j;
  }

  /** The node that `compile` adds for END; it is never run. */
  function EndNode(): Node {
    Node(s => Done(s, Finish), None)
  }

  lemma IndexStep(before: map<string, seq<int>>, after: map<string, seq<int>>, edges: seq<Edge>, i: nat)
    requires i < |edges| && IndexedUpTo(before, edges, i)
    requires after == before[edges[i].from := OutgoingOf(before, edges[i].from) + [i]]
    ensures IndexedUpTo(after, edges, i + 1)
  {
    forall from ensures OutgoingOf(after, from) == IndicesFrom(edges, from, i + 1) {
      assert OutgoingOf(before, from) == IndicesFrom(edges, from, i);
    }
  }

  /** The first edge, if any, that names an unknown node, and the error it gives. */
  method CheckEdges(ids: set<string>, edges: seq<Edge>) returns (r: Option<GraphError>, bad: nat)
    ensures r.None? ==> EdgesOk(ids, edges, |edges|)
    ensures r.Some? ==> r.value.NodeNotFound? && bad < |edges| && FirstBadEdge(ids, edges, bad, r.value.id)
  {
    bad := 0;
    while bad < |edges|
      invariant bad <= |edges| && EdgesOk(ids, edges, bad)
    {
      var edge := edges[bad];
      if edge.from !in ids {
        return Some(NodeNotFound(edge.from)), bad;
      }
      if edge.kind.Direct? && edge.to !in ids {
        return Some(NodeNotFound(edge.to)), bad;
      }
      bad := bad + 1;
    }
    return None, bad;
  }

  method IndexEdges(edges: seq<Edge>) returns (outgoing: map<string, seq<int>>)
    ensures IndexedUpTo(outgoing, edges, |edges|)
  {
    outgoing := map[];
    for i := 0 to |edges|
      invariant IndexedUpTo(outgoing, edges, i)
    {
      ghost var before := outgoing;
      outgoing := outgoing[edges[i].from := OutgoingOf(outgoing, edges[i].from) + [i]];
      IndexStep(before, outgoing, edges, i);
    }
  }

  ghost predicate Compiles(b: Builder, g: Compiled) {
    && g.nodes == b.nodes[END := EndNode()]
    && g.edges == b.edges && Some(g.entryPoint) == b.entryPoint
    && g.name == b.name && g.description == b.description
  }

  method Compile(b: Builder) returns (r: Result<Compiled, GraphError>)
    ensures r.Ok? <==> WellFormed(b)
    ensures r.Ok? ==> Indexed(r.value) && Compiles(b, r.value)
    ensures r.Err? ==> Deserved(b, r.error)
    ensures r.Ok? <==>
      && b.entryPoint.Some? && b.entryPoint.value in b.nodes
      && forall i :: 0 <= i < |b.edges| ==> EndsExist(b, b.edges[i])
    ensures r.Ok? ==> r.value.edges == b.edges && r.value.nodes.Keys == b.nodes.Keys + {"__end__"}
    ensures r.Ok? ==> forall id :: id in b.nodes && id != "__end__" ==> r.value.nodes[id] == b.nodes[id]
    ensures r == Err(NoEntryPoint) <==> b.entryPoint == None
    ensures b.entryPoint.Some? && b.entryPoint.value !in b.nodes ==> r == Err(NodeNotFound(b.entryPoint.value))
  {
    if b.entryPoint.None? {
      return Err(NoEntryPoint);
    }
    var entry := b.entryPoint.value;
    if entry !in b.nodes {
      return Err(NodeNotFound(entry));
    }
    var error, bad := CheckEdges(KnownIds(b), b.edges);
    if error.Some? {
      assert FirstBadEdge(KnownIds(b), b.edges, bad, error.value.id);
      return Err(error.value);
    }
    var outgoing := IndexEdges(b.edges);
    return Ok(Compiled(b.nodes[END := EndNode()], outgoing, b.edges, entry, b.name, b.description));
  }

  // ---- Following edges ----

  function Follow(e: Edge, s: AgentState): string {
    match e.kind
    case Direct => e.to
    case Conditional(router) => router(s)
  }

  /** The first edge that leaves `from` under exactly this key. */
  function FindEdge(edges: seq<Edge>, from: string, key: Option<string>): Option<Edge> {
    if edges == [] then None
    else if edges[0].from == from && edges[0].key == key then Some(edges[0])
    else FindEdge(edges[1..], from, key)
  }

  /** The reference: scan all edges for the key, then, for CONTINUE, for an unkeyed edge. */
  function LinearScan(edges: seq<Edge>, from: string, s: AgentState, key: string): Option<string> {
    match FindEdge(edges, from, Some(key))
    case Some(e) => Some(Follow(e, s))
    case None =>
      if key != CONTINUE then None
      else match FindEdge(edges, from, None)
        case Some(e) => Some(Follow(e, s))
        case None => None
  }

  lemma {:induction false} FindEdgeAt(edges: seq<Edge>, from: string, key: Option<string>, i: nat)
    requires i < |edges| && edges[i].from == from && edges[i].key == key
    requires forall k :: 0 <= k < i ==> edges[k].from != from || edges[k].key != key
    ensures FindEdge(edges, from, key) == Some(edges[i])
  {
    if i > 0 {
      FindEdgeAt(edges[1..], from, key, i - 1);
    }
  }

  lemma {:induction false} FindEdgeNowhere(edges: seq<Edge>, from: string, key: Option<string>)
    requires forall k :: 0 <= k < |edges| ==> edges[k].from != from || edges[k].key != key
    ensures FindEdge(edges, from, key) == None
  {
    if edges != [] {
      FindEdgeNowhere(edges[1..], from, key);
    }
  }

  /** Searches the indexed edges of `from` for a key. */
  method FindIndexed(g: Compiled, from: string, key: Option<string>) returns (r: Option<Edge>)
    requires Indexed(g)
    ensures r == FindEdge(g.edges, from, key)
  {
    var indices := OutgoingOf(g.outgoing, from);
    IndicesFromExact(g.edges, from, |g.edges|);
    IndicesFromAscending(g.edges, from, |g.edges|);
    assert indices == IndicesFrom(g.edges, from, |g.edges|);
    assert forall k :: 0 <= k < |indices| ==> indices[k] in indices;
    for j := 0 to |indices|
      invariant forall k :: 0 <= k < j ==> g.edges[indices[k]].key != key
    {
      var edge := g.edges[indices[j]];
      if edge.key == key {
        forall k | 0 <= k < indices[j] ensures g.edges[k].from != from || g.edges[k].key != key {
          if g.edges[k].from == from {
            assert k in indices;
          }
        }
        FindEdgeAt(g.edges, from, key, indices[j]);
        return Some(edge);
      }
    }
    forall k | 0 <= k < |g.edges| ensures g.edges[k].from != from || g.edges[k].key != key {
      if g.edges[k].from == from {
        assert k in indices;
      }
    }
    FindEdgeNowhere(g.edges, from, key);
    return None;
  }

  /** The next node for a transition key, through the index. */
  method GetNextNodeForTransition(g: Compiled, from: string, s: AgentState, key: string) returns (r: Option<string>)
    requires Indexed(g)
    ensures r == LinearScan(g.edges, from, s, key)
  {
    var edge := FindIndexed(g, from, Some(key));
    if edge.Some? {
      return Some(Follow(edge.value, s));
    }
    if key == CONTINUE {
      edge := FindIndexed(g, from, None);
      if edge.Some? {
        return Some(Follow(edge.value, s));
      }
    }
    return None;
  }
}
