/** The structural diff of two compiled graphs. */
module Diff {
  import opened Wrappers
  import opened Graph
  import opened Sorting
  import E = EdgeDiff
  import N = NodeDiff
  import Text

  datatype EntryPointChange = EntryPointChange(before: string, after: string)

  datatype MetadataChange = MetadataChange(
    nameBefore: Option<string>,
    nameAfter: Option<string>,
    descriptionBefore: Option<string>,
    descriptionAfter: Option<string>)

  datatype GraphDiff = GraphDiff(
    nodeChanges: seq<N.NodeChange>,
    edgeChanges: seq<E.EdgeChange>,
    entryPoint: Option<EntryPointChange>,
    metadata: Option<MetadataChange>)
  {
    predicate IsEmpty() {
      nodeChanges == [] && edgeChanges == [] && entryPoint.None? && metadata.None?
    }
  }

  // ---- Metadata ----

  function DiffMetadata(nameBefore: Option<string>, nameAfter: Option<string>, descBefore: Option<string>,
          descAfter: Option<string>): Option<MetadataChange> {
    var nameChanged, descChanged := nameBefore != nameAfter, descBefore != descAfter;
    if !nameChanged && !descChanged then None
    else Some(MetadataChange(
      if nameChanged then nameBefore else None,
      if nameChanged then nameAfter else None,
      if descChanged then descBefore else None,
      if descChanged then descAfter else None))
  }

  /** A pair that differs replaces the old value; a pair that agrees leaves it. */
  function Patched(value: Option<string>, before: Option<string>, after: Option<string>): Option<string> {
    if before == after then value else after
  }

  /** The change turns the old metadata into the new, and read backwards the new into the old. */
  lemma MetadataPatches(nameBefore: Option<string>, nameAfter: Option<string>, descBefore: Option<string>,
          descAfter: Option<string>)
    ensures var m := DiffMetadata(nameBefore, nameAfter, descBefore, descAfter);
      && (m.None? <==> nameBefore == nameAfter && descBefore == descAfter)
      && (m.Some? ==>
        && Patched(nameBefore, m.value.nameBefore, m.value.nameAfter) == nameAfter
        && Patched(descBefore, m.value.descriptionBefore, m.value.descriptionAfter) == descAfter
        && DiffMetadata(nameAfter, nameBefore, descAfter, descBefore) == SwappedMetadata(m))
  {
  }

  // ---- The whole diff ----

  /** The nodes a user added, with their descriptions; the END node is the same in every graph. */
  function NodeMap(g: Compiled): N.NodeMap {
    map id | id in g.nodes && id != END :: g.nodes[id].description
  }

  /** The two graphs are the same as far as the diff can see. */
  ghost predicate Agree(g: Compiled, h: Compiled) {
    && NodeMap(g) == NodeMap(h)
    && multiset(E.Shapes(g.edges)) == multiset(E.Shapes(h.edges))
    && g.entryPoint == h.entryPoint
    && g.name == h.name && g.description == h.description
  }

  ghost predicate IsDiff(d: GraphDiff, g: Compiled, h: Compiled) {
    && N.Exact(d.nodeChanges, NodeMap(g), NodeMap(h))
    && E.Exact(d.edgeChanges, E.Shapes(g.edges), E.Shapes(h.edges))
    && SortedBy(d.edgeChanges, E.ChangeLeq)
    && d.entryPoint ==
      (if g.entryPoint != h.entryPoint then Some(EntryPointChange(g.entryPoint, h.entryPoint)) else None)
    && d.metadata == DiffMetadata(g.name, h.name, g.description, h.description)
  }

  method DiffGraphs(g: Compiled, h: Compiled) returns (d: GraphDiff)
    ensures IsDiff(d, g, h)
    ensures d.IsEmpty() <==> Agree(g, h)
    ensures d.entryPoint.Some? <==> g.entryPoint != h.entryPoint
    ensures d.entryPoint.Some? ==> d.entryPoint.value.before == g.entryPoint && d.entryPoint.value.after == h.entryPoint
  {
    var nodes := N.DiffNodes(NodeMap(g), NodeMap(h));
    var edges := E.DiffEdges(g.edges, h.edges);
    var entry := if g.entryPoint != h.entryPoint then Some(EntryPointChange(g.entryPoint, h.entryPoint)) else None;
    d := GraphDiff(nodes, edges, entry, DiffMetadata(g.name, h.name, g.description, h.description));
    EmptyIffAgree(d, g, h);
  }

  /** The diff is empty exactly when the graphs agree at this layer. */
  lemma EmptyIffAgree(d: GraphDiff, g: Compiled, h: Compiled)
    requires IsDiff(d, g, h)
    ensures d.IsEmpty() <==> Agree(g, h)
  {
    N.EmptyIff(d.nodeChanges, NodeMap(g), NodeMap(h));
    E.EmptyIff(d.edgeChanges, E.Shapes(g.edges), E.Shapes(h.edges));
  }

  /** The edge is between user nodes. */
  ghost predicate BetweenNodes(e: Edge) {
    e.from != "__end__" && e.to != "__end__"
  }

  /**
   * Exchanging one edge between user nodes for another edge gives an empty diff
   * exactly if the two have the same source, destination, key and kind, where a
   * missing key and CONTINUE are the same key.
   */
  lemma ExchangeSeenIff(d: GraphDiff, g: Compiled, h: Compiled, i: nat, e: Edge)
    requires IsDiff(d, g, h) && i < |g.edges| && BetweenNodes(g.edges[i])
    requires h == g.(edges := g.edges[i := e])
    ensures d.IsEmpty() <==>
      && e.from == g.edges[i].from && e.to == g.edges[i].to && (e.kind.Direct? <==> g.edges[i].kind.Direct?)
      && (e.key == g.edges[i].key || {e.key, g.edges[i].key} == {None, Some("__continue__")})
  {
    EmptyIffAgree(d, g, h);
    E.ExchangeUnseenIff(g.edges, i, e);
    E.ShapeOfIff(e, g.edges[i]);
    assert (e.key == g.edges[i].key || {e.key, g.edges[i].key} == {None, Some("__continue__")}) <==>
      E.SameKey(e.key, g.edges[i].key) by
    {
      assert e.key in {e.key, g.edges[i].key} && g.edges[i].key in {e.key, g.edges[i].key};
    }
  }

  /** In particular a redirected edge is never missed. */
  lemma RedirectionSeen(d: GraphDiff, g: Compiled, h: Compiled, i: nat, to: string)
    requires IsDiff(d, g, h) && i < |g.edges| && BetweenNodes(g.edges[i]) && to != g.edges[i].to
    requires h == g.(edges := g.edges[i := g.edges[i].(to := to)])
    ensures d.edgeChanges != [] && !d.IsEmpty()
  {
    var e := g.edges[i].(to := to);
    ExchangeSeenIff(d, g, h, i, e);
    E.ExchangeUnseenIff(g.edges, i, e);
    E.ShapeOfIff(e, g.edges[i]);
    E.EmptyIff(d.edgeChanges, E.Shapes(g.edges), E.Shapes(h.edges));
  }

  /** The node has this description in the graph, and is not the END node. */
  ghost predicate Describes(g: Compiled, id: string, description: Option<string>) {
    id != "__end__" && id in g.nodes && g.nodes[id].description == description
  }

  /** A node change is listed exactly where the graphs' own nodes call for it. */
  lemma NodeChangesTell(d: GraphDiff, g: Compiled, h: Compiled, id: string, was: Option<string>, now: Option<string>)
    requires IsDiff(d, g, h)
    ensures N.Removed(id, was) in d.nodeChanges <==> Describes(g, id, was) && id !in h.nodes
    ensures N.Added(id, now) in d.nodeChanges <==> id !in g.nodes && Describes(h, id, now)
    ensures N.DescriptionChanged(id, was, now) in d.nodeChanges <==>
      Describes(g, id, was) && Describes(h, id, now) && was != now
  {
    assert N.Removed(id, was) in d.nodeChanges <==> N.Due(N.Removed(id, was), NodeMap(g), NodeMap(h));
    assert N.Added(id, now) in d.nodeChanges <==> N.Due(N.Added(id, now), NodeMap(g), NodeMap(h));
    assert N.DescriptionChanged(id, was, now) in d.nodeChanges <==>
      N.Due(N.DescriptionChanged(id, was, now), NodeMap(g), NodeMap(h));
  }

  /** Node changes are listed in the order of the ids. */
  lemma NodesInOrder(d: GraphDiff, g: Compiled, h: Compiled, i: nat, j: nat)
    requires IsDiff(d, g, h) && i < j < |d.nodeChanges|
    ensures d.nodeChanges[i].id != d.nodeChanges[j].id && Text.LexLeq(d.nodeChanges[i].id, d.nodeChanges[j].id)
  {
    assert N.IdLeq(d.nodeChanges[i], d.nodeChanges[j]);
  }

  function SwappedEntry(e: Option<EntryPointChange>): Option<EntryPointChange> {
    if e.Some? then Some(EntryPointChange(e.value.after, e.value.before)) else None
  }

  function SwappedMetadata(m: Option<MetadataChange>): Option<MetadataChange> {
    if m.None? then None
    else
      Some(MetadataChange(m.value.nameAfter, m.value.nameBefore, m.value.descriptionAfter, m.value.descriptionBefore))
  }

  /** The diff the other way round is the inverse, change by change. */
  lemma DiffInverts(d: GraphDiff, r: GraphDiff, g: Compiled, h: Compiled)
    requires IsDiff(d, g, h) && IsDiff(r, h, g)
    ensures multiset(r.nodeChanges) == multiset(N.InverseAll(d.nodeChanges))
    ensures multiset(r.edgeChanges) == multiset(E.InverseAll(d.edgeChanges))
    ensures r.entryPoint == SwappedEntry(d.entryPoint) && r.metadata == SwappedMetadata(d.metadata)
  {
    MetadataPatches(g.name, h.name, g.description, h.description);
    N.SwapInverts(d.nodeChanges, NodeMap(g), NodeMap(h));
    OncePerNode(r.nodeChanges);
    OncePerNode(N.InverseAll(d.nodeChanges));
    assert forall c :: c in r.nodeChanges <==> c in N.InverseAll(d.nodeChanges);
    assert forall c :: multiset(r.nodeChanges)[c] == multiset(N.InverseAll(d.nodeChanges))[c];
    E.SwapInverts(d.edgeChanges, E.Shapes(g.edges), E.Shapes(h.edges));
  }

  lemma {:induction false} OncePerNode(changes: seq<N.NodeChange>)
    requires N.OnePerId(changes)
    ensures forall c :: multiset(changes)[c] == if c in changes then 1 else 0
  {
    if changes != [] {
      var n := |changes| - 1;
      OncePerNode(changes[..n]);
      assert changes == changes[..n] + [changes[n]];
      assert changes[n] !in changes[..n];
    }
  }

  // ---- The summary ----

  datatype ChangeSummary = ChangeSummary(
    nodesAdded: int, nodesRemoved: int, nodesChanged: int,
    edgesAdded: int, edgesRemoved: int, edgesReplaced: int,
    entryChanged: bool, metadataChanged: bool)

  datatype Kind = IsAdded | IsRemoved | IsChanged

  function NodeKind(c: N.NodeChange): Kind {
    match c
    case Added(_, _) => IsAdded
    case Removed(_, _) => IsRemoved
    case DescriptionChanged(_, _, _) => IsChanged
  }

  function EdgeKindOf(c: E.EdgeChange): Kind {
    match c
    case Added(_) => IsAdded
    case Removed(_) => IsRemoved
    case Replaced(_, _, _, _) => IsChanged
  }

  function NodeKinds(changes: seq<N.NodeChange>): seq<Kind> {
    seq(|changes|, i requires 0 <= i < |changes| => NodeKind(changes[i]))
  }

  function EdgeKinds(changes: seq<E.EdgeChange>): seq<Kind> {
    seq(|changes|, i requires 0 <= i < |changes| => EdgeKindOf(changes[i]))
  }

  ghost predicate Summarises(s: ChangeSummary, d: GraphDiff) {
    var nodes, edges := multiset(NodeKinds(d.nodeChanges)), multiset(EdgeKinds(d.edgeChanges));
    && s.nodesAdded == nodes[IsAdded] && s.nodesRemoved == nodes[IsRemoved] && s.nodesChanged == nodes[IsChanged]
    && s.edgesAdded == edges[IsAdded] && s.edgesRemoved == edges[IsRemoved] && s.edgesReplaced == edges[IsChanged]
    && (s.entryChanged <==> d.entryPoint.Some?) && (s.metadataChanged <==> d.metadata.Some?)
  }

  method CountKinds(kinds: seq<Kind>) returns (added: int, removed: int, changed: int)
    ensures added == multiset(kinds)[IsAdded] && removed == multiset(kinds)[IsRemoved] &&
      changed == multiset(kinds)[IsChanged]
  {
    added, removed, changed := 0, 0, 0;
    for i := 0 to |kinds|
      invariant added == multiset(kinds[..i])[IsAdded]
      invariant removed == multiset(kinds[..i])[IsRemoved]
      invariant changed == multiset(kinds[..i])[IsChanged]
    {
      assert kinds[..i + 1] == kinds[..i] + [kinds[i]];
      match kinds[i] {
        case IsAdded => added := added + 1;
        case IsRemoved => removed := removed + 1;
        case IsChanged => changed := changed + 1;
      }
    }
    assert kinds[..|kinds|] == kinds;
  }

  lemma {:induction false} CountKind(kinds: seq<Kind>, k: Kind)
    ensures multiset(kinds)[k] == |set i | 0 <= i < |kinds| && kinds[i] == k|
  {
    if kinds != [] {
      var n := |kinds| - 1;
      CountKind(kinds[..n], k);
      assert kinds == kinds[..n] + [kinds[n]];
      PlacesSnoc(kinds, n, k);
    }
  }

  lemma PlacesSnoc(kinds: seq<Kind>, n: nat, k: Kind)
    requires |kinds| == n + 1
    ensures |set i | 0 <= i < |kinds| && kinds[i] == k| ==
      |set i | 0 <= i < n && kinds[..n][i] == k| + OneIf(kinds[n] == k)
  {
    var before, now := set i | 0 <= i < n && kinds[..n][i] == k, set i | 0 <= i < |kinds| && kinds[i] == k;
    assert n !in before && now == before + if kinds[n] == k then {n} else {};
  }

  lemma NodesCounted(changes: seq<N.NodeChange>)
    ensures multiset(NodeKinds(changes))[IsAdded] == |set i | 0 <= i < |changes| && changes[i].Added?|
    ensures multiset(NodeKinds(changes))[IsRemoved] == |set i | 0 <= i < |changes| && changes[i].Removed?|
    ensures multiset(NodeKinds(changes))[IsChanged] == |set i | 0 <= i < |changes| && changes[i].DescriptionChanged?|
  {
    var kinds := NodeKinds(changes);
    forall k {
      CountKind(kinds, k);
    }
    assert (set i | 0 <= i < |kinds| && kinds[i] == IsAdded) == set i | 0 <= i < |changes| && changes[i].Added?;
    assert (set i | 0 <= i < |kinds| && kinds[i] == IsRemoved) == set i | 0 <= i < |changes| && changes[i].Removed?;
    assert (set i | 0 <= i < |kinds| && kinds[i] == IsChanged)
        == set i | 0 <= i < |changes| && changes[i].DescriptionChanged?;
  }

  lemma EdgesCounted(changes: seq<E.EdgeChange>)
    ensures multiset(EdgeKinds(changes))[IsAdded] == |set i | 0 <= i < |changes| && changes[i].Added?|
    ensures multiset(EdgeKinds(changes))[IsRemoved] == |set i | 0 <= i < |changes| && changes[i].Removed?|
    ensures multiset(EdgeKinds(changes))[IsChanged] == |set i | 0 <= i < |changes| && changes[i].Replaced?|
  {
    var kinds := EdgeKinds(changes);
    forall k {
      CountKind(kinds, k);
    }
    assert (set i | 0 <= i < |kinds| && kinds[i] == IsAdded) == set i | 0 <= i < |changes| && changes[i].Added?;
    assert (set i | 0 <= i < |kinds| && kinds[i] == IsRemoved) == set i | 0 <= i < |changes| && changes[i].Removed?;
    assert (set i | 0 <= i < |kinds| && kinds[i] == IsChanged) == set i | 0 <= i < |changes| && changes[i].Replaced?;
  }

  method Summary(d: GraphDiff) returns (s: ChangeSummary)
    ensures Summarises(s, d)
    ensures s.nodesAdded == |set i | 0 <= i < |d.nodeChanges| && d.nodeChanges[i].Added?|
    ensures s.nodesRemoved == |set i | 0 <= i < |d.nodeChanges| && d.nodeChanges[i].Removed?|
    ensures s.nodesChanged == |set i | 0 <= i < |d.nodeChanges| && d.nodeChanges[i].DescriptionChanged?|
    ensures s.edgesAdded == |set i | 0 <= i < |d.edgeChanges| && d.edgeChanges[i].Added?|
    ensures s.edgesRemoved == |set i | 0 <= i < |d.edgeChanges| && d.edgeChanges[i].Removed?|
    ensures s.edgesReplaced == |set i | 0 <= i < |d.edgeChanges| && d.edgeChanges[i].Replaced?|
    ensures (s.entryChanged <==> d.entryPoint.Some?) && (s.metadataChanged <==> d.metadata.Some?)
  {
    NodesCounted(d.nodeChanges);
    EdgesCounted(d.edgeChanges);
    var na, nr, nc := CountKinds(NodeKinds(d.nodeChanges));
    var ea, er, ec := CountKinds(EdgeKinds(d.edgeChanges));
    s := ChangeSummary(na, nr, nc, ea, er, ec, d.entryPoint.Some?, d.metadata.Some?);
  }

  function OneIf(b: bool): int {
    if b then 1 else 0
  }

  lemma {:induction false} TakenKinds(changes: seq<E.EdgeChange>)
    ensures |E.Taken(changes)| == multiset(EdgeKinds(changes))[IsRemoved] + multiset(EdgeKinds(changes))[IsChanged]
  {
    if changes != [] {
      TakenKinds(changes[1..]);
      KindsCons(changes);
    }
  }

  lemma {:induction false} BroughtKinds(changes: seq<E.EdgeChange>)
    ensures |E.Brought(changes)| == multiset(EdgeKinds(changes))[IsAdded] + multiset(EdgeKinds(changes))[IsChanged]
  {
    if changes != [] {
      BroughtKinds(changes[1..]);
      KindsCons(changes);
    }
  }

  lemma KindsCons(changes: seq<E.EdgeChange>)
    requires changes != []
    ensures forall k ::
      multiset(EdgeKinds(changes))[k] == multiset(EdgeKinds(changes[1..]))[k] + OneIf(k == EdgeKindOf(changes[0]))
  {
    assert EdgeKinds(changes) == [EdgeKindOf(changes[0])] + EdgeKinds(changes[1..]);
  }

  function Delta(c: N.NodeChange): int {
    match c
    case Added(_, _) => 1
    case Removed(_, _) => -1
    case DescriptionChanged(_, _, _) => 0
  }

  /** Each change fits the node map it meets, so the map grows and shrinks with the changes. */
  lemma {:induction false} NodeKindsBalance(changes: seq<N.NodeChange>, m: N.NodeMap)
    requires N.OnePerId(changes)
    requires forall c :: c in changes ==> (c.Added? <==> c.id !in m)
    ensures var kinds := multiset(NodeKinds(changes));
      |N.ApplyAll(changes, m).Keys| == |m.Keys| + kinds[IsAdded] - kinds[IsRemoved]
  {
    if changes != [] {
      var n := |changes| - 1;
      NodeKindsBalance(changes[..n], m);
      LastApplied(changes, n, m);
      KindsSnoc(changes, n);
    }
  }

  lemma LastApplied(changes: seq<N.NodeChange>, n: nat, m: N.NodeMap)
    requires |changes| == n + 1 && N.OnePerId(changes) && (changes[n].Added? <==> changes[n].id !in m)
    ensures |N.ApplyAll(changes, m).Keys| == |N.ApplyAll(changes[..n], m).Keys| + Delta(changes[n])
  {
    var c, before := changes[n], N.ApplyAll(changes[..n], m);
    N.Untouched(changes[..n], m, c.id);
    assert c.id in before <==> c.id in m;
    AppliedSize(c, before);
  }

  lemma KindsSnoc(changes: seq<N.NodeChange>, n: nat)
    requires |changes| == n + 1
    ensures forall k ::
      multiset(NodeKinds(changes))[k] == multiset(NodeKinds(changes[..n]))[k] + OneIf(k == NodeKind(changes[n]))
  {
    assert NodeKinds(changes) == NodeKinds(changes[..n]) + [NodeKind(changes[n])];
  }

  lemma AppliedSize(c: N.NodeChange, m: N.NodeMap)
    requires c.Added? <==> c.id !in m
    ensures |N.Apply(c, m).Keys| == |m.Keys| + Delta(c)
  {
    var keys := N.Apply(c, m).Keys;
    match c {
      case Added(id, _) => assert keys == m.Keys + {id};
      case Removed(id, _) => assert m.Keys == keys + {id};
      case DescriptionChanged(id, _, _) => assert keys == m.Keys;
    }
  }

  /** The summary's numbers account for the sizes of the two graphs. */
  lemma SummaryBalances(s: ChangeSummary, d: GraphDiff, g: Compiled, h: Compiled)
    requires IsDiff(d, g, h) && Summarises(s, d)
    ensures |NodeMap(h).Keys| == |NodeMap(g).Keys| + s.nodesAdded - s.nodesRemoved
    ensures |E.Shapes(h.edges)| == |E.Shapes(g.edges)| + s.edgesAdded - s.edgesRemoved
    ensures s.edgesRemoved + s.edgesReplaced == |multiset(E.Shapes(g.edges)) - multiset(E.Shapes(h.edges))|
  {
    N.PatchesNodes(d.nodeChanges, NodeMap(g), NodeMap(h));
    NodeKindsBalance(d.nodeChanges, NodeMap(g));
    var befores, afters := E.Shapes(g.edges), E.Shapes(h.edges);
    E.ExactPatch(d.edgeChanges, befores, afters);
    TakenKinds(d.edgeChanges);
    BroughtKinds(d.edgeChanges);
    assert multiset(befores) == (multiset(befores) - multiset(afters)) + (multiset(befores) * multiset(afters));
    assert multiset(afters) == (multiset(afters) - multiset(befores)) + (multiset(befores) * multiset(afters));
    assert |multiset(befores)| == |befores| && |multiset(afters)| == |afters|;
  }
}
