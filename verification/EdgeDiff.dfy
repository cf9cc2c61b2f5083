/** The edge part of a structural graph diff: an exact and minimal patch. */
module EdgeDiff {
  import opened Wrappers
  import opened Graph
  import opened Sorting
  import Text

  datatype EdgeTypeTag = DirectEdge | ConditionalEdge

  /** What can be compared of an edge; the default path has no key, however it was written. */
  datatype EdgeShape = EdgeShape(from: string, to: string, key: Option<string>, tag: EdgeTypeTag)
  {
    function Group(): GroupKey {
      (from, key)
    }
  }

  /** Edges are matched by their source and transition key. */
  type GroupKey = (string, Option<string>)

  datatype EdgeChange =
    | Added(shape: EdgeShape)
    | Removed(shape: EdgeShape)
    | Replaced(from: string, key: Option<string>, before: EdgeShape, after: EdgeShape)
  {
    function Group(): GroupKey {
      match this
      case Replaced(from, key, _, _) => (from, key)
      case _ => shape.Group()
    }

    /** The shape the change takes away, if any. */
    function Takes(): Option<EdgeShape> {
      match this
      case Added(_) => None
      case Removed(s) => Some(s)
      case Replaced(_, _, s, _) => Some(s)
    }

    /** The shape the change brings, if any. */
    function Brings(): Option<EdgeShape> {
      match this
      case Added(s) => Some(s)
      case Removed(_) => None
      case Replaced(_, _, _, s) => Some(s)
    }

    function Inverse(): EdgeChange {
      match this
      case Added(s) => Removed(s)
      case Removed(s) => Added(s)
      case Replaced(from, key, b, a) => Replaced(from, key, a, b)
    }
  }

  function ShapeOf(e: Edge): EdgeShape {
    EdgeShape(e.from, e.to, if e.key == Some(CONTINUE) then None else e.key,
      if e.kind.Direct? then DirectEdge else ConditionalEdge)
  }

  /** Edges from or to END are not compared. */
  predicate Visible(e: Edge) {
    e.from != END && e.to != END
  }

  function Shapes(edges: seq<Edge>): seq<EdgeShape> {
    if edges == [] then []
    else if Visible(edges[|edges| - 1]) then Shapes(edges[..|edges| - 1]) + [ShapeOf(edges[|edges| - 1])]
    else Shapes(edges[..|edges| - 1])
  }

  /** The key as the diff sees it: the default path has none. */
  ghost predicate SameKey(a: Option<string>, b: Option<string>) {
    a == b || (a in {None, Some("__continue__")} && b in {None, Some("__continue__")})
  }

  /** A shape keeps source, destination, the key up to the two forms of the default, and whether the edge is direct. */
  lemma ShapeOfIff(e: Edge, f: Edge)
    ensures ShapeOf(e) == ShapeOf(f) <==>
      e.from == f.from && e.to == f.to && SameKey(e.key, f.key) && (e.kind.Direct? <==> f.kind.Direct?)
  {
  }

  /** It carries the edge's own source, destination and key, the default without one. */
  lemma ShapeCarries(e: Edge)
    ensures ShapeOf(e).from == e.from && ShapeOf(e).to == e.to
    ensures ShapeOf(e).key == if e.key == Some("__continue__") then None else e.key
    ensures ShapeOf(e).tag == DirectEdge <==> e.kind.Direct?
  {
  }

  /** The position is that of an edge between user nodes with this source and key. */
  ghost predicate OnKey(edges: seq<Edge>, i: int, from: string, key: Option<string>) {
    && 0 <= i < |edges| && edges[i].from == from && SameKey(edges[i].key, key)
    && edges[i].from != "__end__" && edges[i].to != "__end__"
  }

  /** The only edge between user nodes with this source and key has this shape. */
  ghost predicate Lone(edges: seq<Edge>, from: string, key: Option<string>, s: EdgeShape) {
    exists i ::
      OnKey(edges, i, from, key) && ShapeOf(edges[i]) == s && forall j :: OnKey(edges, j, from, key) ==> j == i
  }

  lemma {:induction false} EmptyGroupIff(edges: seq<Edge>, from: string, key: Option<string>)
    requires key != Some("__continue__")
    ensures InGroup(Shapes(edges), (from, key)) == [] <==> forall j :: !OnKey(edges, j, from, key)
  {
    if edges != [] {
      var n := |edges| - 1;
      EmptyGroupIff(edges[..n], from, key);
      OnKeySnoc(edges, n, from, key);
      GroupSnoc(edges, n, (from, key));
    }
  }

  lemma OnKeySnoc(edges: seq<Edge>, n: nat, from: string, key: Option<string>)
    requires |edges| == n + 1
    ensures forall j :: j != n ==> (OnKey(edges, j, from, key) <==> OnKey(edges[..n], j, from, key))
  {
  }

  lemma GroupSnoc(edges: seq<Edge>, n: nat, k: GroupKey)
    requires |edges| == n + 1 && k.1 != Some("__continue__")
    ensures InGroup(Shapes(edges), k) ==
      InGroup(Shapes(edges[..n]), k) + if OnKey(edges, n, k.0, k.1) then [ShapeOf(edges[n])] else []
  {
    if Visible(edges[n]) {
      assert Shapes(edges)[..|Shapes(edges)| - 1] == Shapes(edges[..n]);
    }
  }

  lemma LastOnly<T>(before: seq<T>, x: T, y: T)
    ensures before + [x] == [y] <==> before == [] && x == y
  {
    assert (before + [x])[|before|] == x;
  }

  /** The default path is only known without a key. */
  lemma {:induction false} NoContinueGroup(edges: seq<Edge>, from: string)
    ensures InGroup(Shapes(edges), (from, Some(CONTINUE))) == []
  {
    if edges != [] {
      NoContinueGroup(edges[..|edges| - 1], from);
      var shapes := Shapes(edges);
      assert Visible(edges[|edges| - 1]) ==> shapes[..|shapes| - 1] == Shapes(edges[..|edges| - 1]);
    }
  }

  /** A group of one is that of a lone edge. */
  lemma {:induction false} LoneGroupIff(edges: seq<Edge>, from: string, key: Option<string>, s: EdgeShape)
    requires key != Some("__continue__")
    ensures InGroup(Shapes(edges), (from, key)) == [s] <==> Lone(edges, from, key, s)
  {
    if edges != [] {
      var n := |edges| - 1;
      LoneGroupIff(edges[..n], from, key, s);
      EmptyGroupIff(edges[..n], from, key);
      OnKeySnoc(edges, n, from, key);
      GroupSnoc(edges, n, (from, key));
      var before := InGroup(Shapes(edges[..n]), (from, key));
      if OnKey(edges, n, from, key) {
        LastOnly(before, ShapeOf(edges[n]), s);
      } else if Lone(edges, from, key, s) {
        assert Lone(edges[..n], from, key, s);
      } else if Lone(edges[..n], from, key, s) {
        assert Lone(edges, from, key, s);
      }
    }
  }

  function InGroup(shapes: seq<EdgeShape>, k: GroupKey): seq<EdgeShape> {
    if shapes == [] then []
    else if shapes[|shapes| - 1].Group() == k then InGroup(shapes[..|shapes| - 1], k) + [shapes[|shapes| - 1]]
    else InGroup(shapes[..|shapes| - 1], k)
  }

  // ---- How often each change is due ----

  function Excess(a: int, b: int): int {
    if a > b then a - b else 0
  }

  /** A lone edge faces a lone edge: the two are paired. */
  predicate Paired(befores: seq<EdgeShape>, afters: seq<EdgeShape>, k: GroupKey) {
    |InGroup(befores, k)| == 1 && |InGroup(afters, k)| == 1
  }

  function Due(c: EdgeChange, befores: seq<EdgeShape>, afters: seq<EdgeShape>): int {
    match c
    case Added(s) => if Paired(befores, afters, s.Group()) then 0 else Excess(multiset(afters)[s], multiset(befores)[s])
    case Removed(s) =>
      if Paired(befores, afters, s.Group()) then 0 else Excess(multiset(befores)[s], multiset(afters)[s])
    case Replaced(from, key, b, a) =>
      if Paired(befores, afters, (from, key)) && [b] == InGroup(befores, (from, key)) &&
        [a] == InGroup(afters, (from, key)) && b != a then 1 else 0
  }

  /** The changes are the due ones, each as often as it is due. */
  ghost predicate Exact(changes: seq<EdgeChange>, befores: seq<EdgeShape>, afters: seq<EdgeShape>) {
    forall c :: multiset(changes)[c] == Due(c, befores, afters)
  }

  // ---- Groups ----

  lemma {:induction false} GroupCounts(shapes: seq<EdgeShape>, k: GroupKey, s: EdgeShape)
    ensures multiset(InGroup(shapes, k))[s] == if s.Group() == k then multiset(shapes)[s] else 0
  {
    if shapes != [] {
      var n := |shapes| - 1;
      GroupCounts(shapes[..n], k, s);
      assert shapes == shapes[..n] + [shapes[n]];
    }
  }

  lemma LoneShape(shapes: seq<EdgeShape>, k: GroupKey, s: EdgeShape)
    requires |InGroup(shapes, k)| == 1 && s.Group() == k
    ensures multiset(shapes)[s] == if InGroup(shapes, k) == [s] then 1 else 0
  {
    GroupCounts(shapes, k, s);
    assert InGroup(shapes, k) == [InGroup(shapes, k)[0]];
  }

  // ---- The patch ----

  function Taken(changes: seq<EdgeChange>): multiset<EdgeShape> {
    if changes == [] then multiset{}
    else Taken(changes[1..]) + if changes[0].Takes().Some? then multiset{changes[0].Takes().value} else multiset{}
  }

  function Brought(changes: seq<EdgeChange>): multiset<EdgeShape> {
    if changes == [] then multiset{}
    else Brought(changes[1..]) + if changes[0].Brings().Some? then multiset{changes[0].Brings().value} else multiset{}
  }

  /** If a shape is only taken by one kind of change, it is taken as often as that change occurs. */
  lemma {:induction false} TakenBy(changes: seq<EdgeChange>, s: EdgeShape, c: EdgeChange)
    requires c.Takes() == Some(s) && forall d :: d in changes && d.Takes() == Some(s) ==> d == c
    ensures Taken(changes)[s] == multiset(changes)[c]
  {
    if changes != [] {
      assert changes == [changes[0]] + changes[1..];
      TakenBy(changes[1..], s, c);
    }
  }

  lemma TakenOne(changes: seq<EdgeChange>, befores: seq<EdgeShape>, afters: seq<EdgeShape>, s: EdgeShape)
    requires Exact(changes, befores, afters)
    ensures Taken(changes)[s] == Excess(multiset(befores)[s], multiset(afters)[s])
  {
    var k := s.Group();
    forall d | d in changes ensures multiset(changes)[d] == Due(d, befores, afters) > 0 {}
    if !Paired(befores, afters, k) {
      forall d | d in changes && d.Takes() == Some(s) ensures d == Removed(s) {
        if d.Replaced? {
          DueGroup(d, befores, afters);
        }
      }
      TakenBy(changes, s, Removed(s));
    } else {
      var c := Replaced(s.from, s.key, s, InGroup(afters, k)[0]);
      LoneShape(befores, k, s);
      LoneShape(afters, k, s);
      assert InGroup(afters, k) == [c.after];
      forall d | d in changes && d.Takes() == Some(s) ensures d == c {
        if d.Replaced? {
          DueGroup(d, befores, afters);
        }
      }
      TakenBy(changes, s, c);
    }
  }

  /** A due replacement is of its own group. */
  lemma DueGroup(d: EdgeChange, befores: seq<EdgeShape>, afters: seq<EdgeShape>)
    requires d.Replaced? && Due(d, befores, afters) > 0
    ensures d.before.Group() == d.Group() == d.after.Group()
  {
    GroupCounts(befores, d.Group(), d.before);
    GroupCounts(afters, d.Group(), d.after);
    assert d.before in multiset([d.before]) && d.after in multiset([d.after]);
  }

  /** A replacement is listed exactly where a lone edge faces a lone edge of another shape. */
  lemma ReplacedIff(changes: seq<EdgeChange>, before: seq<Edge>, after: seq<Edge>, from: string, key: Option<string>,
          b: EdgeShape, a: EdgeShape)
    requires Exact(changes, Shapes(before), Shapes(after))
    ensures Replaced(from, key, b, a) in changes <==>
      b != a && key != Some("__continue__") && Lone(before, from, key, b) && Lone(after, from, key, a)
  {
    if key == Some(CONTINUE) {
      NoContinueGroup(before, from);
    } else {
      LoneGroupIff(before, from, key, b);
      LoneGroupIff(after, from, key, a);
    }
    assert Replaced(from, key, b, a) in changes <==> multiset(changes)[Replaced(from, key, b, a)] > 0;
  }

  // ---- Reading the diff backwards ----

  function InverseAll(changes: seq<EdgeChange>): seq<EdgeChange> {
    if changes == [] then [] else [changes[0].Inverse()] + InverseAll(changes[1..])
  }

  lemma InverseTwice(c: EdgeChange, d: EdgeChange)
    ensures c.Inverse() == d <==> c == d.Inverse()
  {
  }

  lemma {:induction false} InverseCounts(changes: seq<EdgeChange>, c: EdgeChange)
    ensures multiset(InverseAll(changes))[c] == multiset(changes)[c.Inverse()]
  {
    if changes != [] {
      var first, rest := changes[0], changes[1..];
      InverseCounts(rest, c);
      InverseTwice(first, c);
      assert changes == [first] + rest;
      assert multiset(changes)[c.Inverse()] == multiset(rest)[c.Inverse()] + if first == c.Inverse() then 1 else 0;
    }
  }

  lemma DueInverse(c: EdgeChange, befores: seq<EdgeShape>, afters: seq<EdgeShape>)
    ensures Due(c.Inverse(), befores, afters) == Due(c, afters, befores)
  {
  }

  lemma {:induction false} BroughtIsTaken(changes: seq<EdgeChange>)
    ensures Brought(changes) == Taken(InverseAll(changes))
  {
    if changes != [] {
      var inverse := InverseAll(changes[1..]);
      BroughtIsTaken(changes[1..]);
      assert InverseAll(changes)[1..] == inverse;
    }
  }

  /** Swapping the graphs inverts every change. */
  lemma SwapInverts(changes: seq<EdgeChange>, befores: seq<EdgeShape>, afters: seq<EdgeShape>)
    requires Exact(changes, befores, afters)
    ensures Exact(InverseAll(changes), afters, befores)
  {
    forall c ensures multiset(InverseAll(changes))[c] == Due(c, afters, befores) {
      InverseCounts(changes, c);
      DueInverse(c, befores, afters);
    }
  }

  /** What is taken is exactly what only `before` has, what is brought exactly what only `after` has. */
  lemma ExactPatch(changes: seq<EdgeChange>, befores: seq<EdgeShape>, afters: seq<EdgeShape>)
    requires Exact(changes, befores, afters)
    ensures Taken(changes) == multiset(befores) - multiset(afters)
    ensures Brought(changes) == multiset(afters) - multiset(befores)
    ensures multiset(befores) - Taken(changes) + Brought(changes) == multiset(afters)
  {
    forall s ensures Taken(changes)[s] == Excess(multiset(befores)[s], multiset(afters)[s]) {
      TakenOne(changes, befores, afters, s);
    }
    SwapInverts(changes, befores, afters);
    BroughtIsTaken(changes);
    forall s ensures Brought(changes)[s] == Excess(multiset(afters)[s], multiset(befores)[s]) {
      TakenOne(InverseAll(changes), afters, befores, s);
    }
  }

  /** No patch from `before` to `after` takes or brings less. */
  lemma MinimalPatch(changes: seq<EdgeChange>, befores: seq<EdgeShape>, afters: seq<EdgeShape>,
          taken: multiset<EdgeShape>, brought: multiset<EdgeShape>)
    requires Exact(changes, befores, afters)
    requires taken <= multiset(befores) && multiset(befores) - taken + brought == multiset(afters)
    ensures Taken(changes) <= taken && Brought(changes) <= brought
  {
    ExactPatch(changes, befores, afters);
    forall s ensures Taken(changes)[s] <= taken[s] && Brought(changes)[s] <= brought[s] {
      assert (multiset(befores) - taken + brought)[s] == multiset(afters)[s];
    }
  }

  /** There is nothing to change exactly when the graphs have the same edges. */
  lemma EmptyIff(changes: seq<EdgeChange>, befores: seq<EdgeShape>, afters: seq<EdgeShape>)
    requires Exact(changes, befores, afters)
    ensures changes == [] <==> multiset(befores) == multiset(afters)
  {
    ExactPatch(changes, befores, afters);
    if changes != [] {
      var c := changes[0];
      assert changes == [c] + changes[1..];
      assert c.Takes().Some? ==> c.Takes().value in Taken(changes);
      assert c.Brings().Some? ==> c.Brings().value in Brought(changes);
    }
  }

  function One(e: Edge): multiset<EdgeShape> {
    if Visible(e) then multiset{ShapeOf(e)} else multiset{}
  }

  lemma {:induction false} ShapesWith(before: seq<Edge>, e: Edge, after: seq<Edge>)
    ensures multiset(Shapes(before + [e] + after)) == multiset(Shapes(before + after)) + One(e)
  {
    var n := |after| - 1;
    if after == [] {
      assert (before + [e] + after)[..|before|] == before && before + after == before;
    } else {
      ShapesWith(before, e, after[..n]);
      assert (before + [e] + after)[..|before| + 1 + n] == before + [e] + after[..n];
      assert (before + after)[..|before| + n] == before + after[..n];
    }
  }

  /** Exchanging one edge goes unseen exactly if both are from or to END, or have the same shape. */
  lemma ExchangeUnseenIff(edges: seq<Edge>, i: nat, e: Edge)
    requires i < |edges|
    ensures multiset(Shapes(edges)) == multiset(Shapes(edges[i := e])) <==>
      if Visible(edges[i]) then Visible(e) && ShapeOf(e) == ShapeOf(edges[i]) else !Visible(e)
  {
    var before, after := edges[..i], edges[i + 1..];
    assert edges == before + [edges[i]] + after && edges[i := e] == before + [e] + after;
    ShapesWith(before, edges[i], after);
    ShapesWith(before, e, after);
    var rest, was, now := multiset(Shapes(before + after)), One(edges[i]), One(e);
    assert rest + was == rest + now <==> was == now by {
      assert forall s :: (rest + was)[s] == (rest + now)[s] ==> was[s] == now[s];
    }
    assert Visible(edges[i]) ==> ShapeOf(edges[i]) in was;
    assert Visible(e) ==> ShapeOf(e) in now;
  }

  /** An edge from or to END is invisible to the diff, wherever it is inserted. */
  lemma {:induction false} EndEdgesUnseen(before: seq<Edge>, e: Edge, after: seq<Edge>)
    requires !Visible(e)
    ensures Shapes(before + [e] + after) == Shapes(before + after)
  {
    var n := |after| - 1;
    if after == [] {
      assert (before + [e] + after)[..|before|] == before && before + after == before;
    } else {
      EndEdgesUnseen(before, e, after[..n]);
      assert (before + [e] + after)[..|before| + 1 + n] == before + [e] + after[..n];
      assert (before + after)[..|before| + n] == before + after[..n];
    }
  }

  // ---- Computing the diff ----

  function GroupIn(groups: map<GroupKey, seq<EdgeShape>>, k: GroupKey): seq<EdgeShape> {
    if k in groups then groups[k] else []
  }

  method GroupByKey(edges: seq<Edge>) returns (groups: map<GroupKey, seq<EdgeShape>>)
    ensures forall k :: GroupIn(groups, k) == InGroup(Shapes(edges), k)
  {
    groups := map[];
    for i := 0 to |edges|
      invariant forall k :: GroupIn(groups, k) == InGroup(Shapes(edges[..i]), k)
    {
      var e := edges[i];
      assert edges[..i + 1][..i] == edges[..i];
      if Visible(e) {
        var s := ShapeOf(e);
        ghost var shapes := Shapes(edges[..i]);
        assert (shapes + [s])[..|shapes|] == shapes;
        groups := groups[s.Group() := GroupIn(groups, s.Group()) + [s]];
      }
    }
    assert edges[..|edges|] == edges;
  }

  method AddTimes(changes: seq<EdgeChange>, c: EdgeChange, n: nat) returns (r: seq<EdgeChange>)
    ensures multiset(r) == multiset(changes)[c := multiset(changes)[c] + n]
  {
    r := changes;
    for i := 0 to n
      invariant multiset(r) == multiset(changes)[c := multiset(changes)[c] + i]
    {
      r := r + [c];
    }
  }

  /** How often a change is due in a group that is not paired. */
  function DueUnpaired(c: EdgeChange, befores: seq<EdgeShape>, afters: seq<EdgeShape>): int {
    match c
    case Added(s) => Excess(multiset(afters)[s], multiset(befores)[s])
    case Removed(s) => Excess(multiset(befores)[s], multiset(afters)[s])
    case Replaced(_, _, _, _) => 0
  }

  function ChangedShape(c: EdgeChange): EdgeShape {
    match c
    case Replaced(_, _, s, _) => s
    case _ => c.shape
  }

  /** The count-aware difference of two groups. */
  method DiffCounts(befores: seq<EdgeShape>, afters: seq<EdgeShape>) returns (changes: seq<EdgeChange>)
    ensures forall c :: multiset(changes)[c] == DueUnpaired(c, befores, afters)
  {
    changes := [];
    var counts, others := multiset(befores), multiset(afters);
    var todo := (set s | s in befores) + (set s | s in afters);
    ghost var all := todo;
    while todo != {}
      invariant todo <= all
      invariant forall c ::
        multiset(changes)[c] == if ChangedShape(c) in todo then 0 else DueUnpaired(c, befores, afters)
    {
      var s :| s in todo;
      todo := todo - {s};
      if counts[s] > others[s] {
        changes := AddTimes(changes, Removed(s), counts[s] - others[s]);
      } else if others[s] > counts[s] {
        changes := AddTimes(changes, Added(s), others[s] - counts[s]);
      }
    }
  }

  /** How often a change is due on account of the two groups of key `k`. */
  function DueInGroup(c: EdgeChange, k: GroupKey, befores: seq<EdgeShape>, afters: seq<EdgeShape>): int {
    if |befores| == 1 && |afters| == 1 then
      if c == Replaced(k.0, k.1, befores[0], afters[0]) && befores[0] != afters[0] then 1 else 0
    else
      DueUnpaired(c, befores, afters)
  }

  lemma GroupDue(c: EdgeChange, k: GroupKey, befores: seq<EdgeShape>, afters: seq<EdgeShape>)
    ensures DueInGroup(c, k, InGroup(befores, k), InGroup(afters, k)) ==
      if c.Group() == k then Due(c, befores, afters) else 0
  {
    var b, a := InGroup(befores, k), InGroup(afters, k);
    if !c.Replaced? {
      GroupCounts(befores, k, c.shape);
      GroupCounts(afters, k, c.shape);
    }
    if |b| == 1 && |a| == 1 {
      assert b == [b[0]] && a == [a[0]];
    }
  }

  /** A due change belongs to a group that one of the graphs has. */
  lemma DueHasGroup(c: EdgeChange, befores: seq<EdgeShape>, afters: seq<EdgeShape>)
    requires InGroup(befores, c.Group()) == [] && InGroup(afters, c.Group()) == []
    ensures Due(c, befores, afters) == 0
  {
    if !c.Replaced? {
      GroupCounts(befores, c.Group(), c.shape);
      GroupCounts(afters, c.Group(), c.shape);
    }
  }

  method AllAdded(afters: seq<EdgeShape>) returns (changes: seq<EdgeChange>)
    ensures forall c :: multiset(changes)[c] == DueUnpaired(c, [], afters)
  {
    changes := [];
    for i := 0 to |afters|
      invariant forall c :: multiset(changes)[c] == DueUnpaired(c, [], afters[..i])
    {
      assert afters[..i + 1] == afters[..i] + [afters[i]];
      changes := changes + [Added(afters[i])];
    }
    assert afters[..|afters|] == afters;
  }

  method AllRemoved(befores: seq<EdgeShape>) returns (changes: seq<EdgeChange>)
    ensures forall c :: multiset(changes)[c] == DueUnpaired(c, befores, [])
  {
    changes := [];
    for i := 0 to |befores|
      invariant forall c :: multiset(changes)[c] == DueUnpaired(c, befores[..i], [])
    {
      assert befores[..i + 1] == befores[..i] + [befores[i]];
      changes := changes + [Removed(befores[i])];
    }
    assert befores[..|befores|] == befores;
  }

  method DiffGroup(k: GroupKey, befores: seq<EdgeShape>, afters: seq<EdgeShape>) returns (changes: seq<EdgeChange>)
    ensures forall c :: multiset(changes)[c] == DueInGroup(c, k, befores, afters)
  {
    if |befores| == 0 {
      assert befores == [];
      changes := AllAdded(afters);
    } else if |afters| == 0 {
      assert afters == [];
      changes := AllRemoved(befores);
    } else if |befores| == 1 && |afters| == 1 {
      changes := if befores[0] != afters[0] then [Replaced(k.0, k.1, befores[0], afters[0])] else [];
    } else {
      changes := DiffCounts(befores, afters);
    }
  }

  // ---- The order of the changes ----

  predicate OptionLeq(a: Option<string>, b: Option<string>) {
    a.None? || (b.Some? && Text.LexLeq(a.value, b.value))
  }

  type SortKey = (string, Option<string>, string)

  function KeyOf(c: EdgeChange): SortKey {
    match c
    case Replaced(from, key, _, _) => (from, key, "")
    case _ => (c.shape.from, c.shape.key, c.shape.to)
  }

  predicate KeyLeq(a: SortKey, b: SortKey) {
    if a.0 != b.0 then Text.LexLeq(a.0, b.0)
    else if a.1 != b.1 then OptionLeq(a.1, b.1)
    else Text.LexLeq(a.2, b.2)
  }

  predicate ChangeLeq(a: EdgeChange, b: EdgeChange) {
    KeyLeq(KeyOf(a), KeyOf(b))
  }

  /** Changes are ordered by source, then key, the default first, then destination. */
  lemma SortedTells(changes: seq<EdgeChange>, i: nat, j: nat)
    requires SortedBy(changes, ChangeLeq) && i < j < |changes|
    ensures var a, b := changes[i].Group(), changes[j].Group();
      && Text.LexLeq(a.0, b.0)
      && (a.0 == b.0 && a.1.Some? ==> b.1.Some? && Text.LexLeq(a.1.value, b.1.value))
      && (a == b && !changes[i].Replaced? && !changes[j].Replaced? ==>
        Text.LexLeq(changes[i].shape.to, changes[j].shape.to))
  {
    assert ChangeLeq(changes[i], changes[j]);
    Text.LexTotal(changes[i].Group().0, changes[i].Group().0);
    if changes[i].Group().1.Some? {
      Text.LexTotal(changes[i].Group().1.value, changes[i].Group().1.value);
    }
  }

  lemma KeyTotal(a: SortKey, b: SortKey)
    ensures KeyLeq(a, b) || KeyLeq(b, a)
  {
    Text.LexTotal(a.0, b.0);
    Text.LexTotal(a.2, b.2);
    if a.1.Some? && b.1.Some? {
      Text.LexTotal(a.1.value, b.1.value);
    }
  }

  lemma OptionTransitive(a: Option<string>, b: Option<string>, c: Option<string>)
    requires OptionLeq(a, b) && OptionLeq(b, c)
    ensures OptionLeq(a, c) && (a == c ==> a == b)
  {
    if a.Some? {
      Text.LexTransitive(a.value, b.value, c.value);
      if a == c {
        Text.LexAntisymmetric(a.value, b.value);
      }
    }
  }

  lemma KeyTransitive(a: SortKey, b: SortKey, c: SortKey)
    requires KeyLeq(a, b) && KeyLeq(b, c)
    ensures KeyLeq(a, c)
  {
    if a.0 != b.0 && b.0 != c.0 {
      Text.LexTransitive(a.0, b.0, c.0);
      if a.0 == c.0 {
        Text.LexAntisymmetric(a.0, b.0);
      }
    } else if a.0 == b.0 && b.0 == c.0 {
      if a.1 != b.1 && b.1 != c.1 {
        OptionTransitive(a.1, b.1, c.1);
      } else if a.1 == b.1 && b.1 == c.1 {
        Text.LexTransitive(a.2, b.2, c.2);
      }
    }
  }

  lemma ChangesOrdered()
    ensures TotalPreorder(ChangeLeq)
  {
    forall a, b ensures ChangeLeq(a, b) || ChangeLeq(b, a) {
      KeyTotal(KeyOf(a), KeyOf(b));
    }
    forall a, b, c | ChangeLeq(a, b) && ChangeLeq(b, c) ensures ChangeLeq(a, c) {
      KeyTransitive(KeyOf(a), KeyOf(b), KeyOf(c));
    }
  }

  /** The changes are exactly the due ones, sorted by source, key and destination. */
  method DiffEdges(before: seq<Edge>, after: seq<Edge>) returns (changes: seq<EdgeChange>)
    ensures Exact(changes, Shapes(before), Shapes(after))
    ensures SortedBy(changes, ChangeLeq)
  {
    ghost var befores, afters := Shapes(before), Shapes(after);
    var beforeGroups := GroupByKey(before);
    var afterGroups := GroupByKey(after);
    changes := [];
    var todo := beforeGroups.Keys + afterGroups.Keys;
    ghost var all := todo;
    forall c: EdgeChange | c.Group() !in all ensures Due(c, befores, afters) == 0 {
      assert GroupIn(beforeGroups, c.Group()) == [] && GroupIn(afterGroups, c.Group()) == [];
      DueHasGroup(c, befores, afters);
    }
    while todo != {}
      invariant todo <= all
      invariant forall c :: multiset(changes)[c] == if c.Group() in todo then 0 else Due(c, befores, afters)
    {
      var k :| k in todo;
      todo := todo - {k};
      var more := DiffGroup(k, GroupIn(beforeGroups, k), GroupIn(afterGroups, k));
      forall c: EdgeChange ensures multiset(more)[c] == if c.Group() == k then Due(c, befores, afters) else 0 {
        GroupDue(c, k, befores, afters);
      }
      changes := changes + more;
    }
    ChangesOrdered();
    StableSortProperties(changes, ChangeLeq);
    changes := StableSort(changes, ChangeLeq);
  }
}
