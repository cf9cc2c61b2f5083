/** The node part of a structural graph diff. */
module NodeDiff {
  import opened Wrappers
  import opened Sorting
  import Text

  /** The description of every node that is compared. */
  type NodeMap = map<string, Option<string>>

  datatype NodeChange =
    | Added(id: string, description: Option<string>)
    | Removed(id: string, description: Option<string>)
    | DescriptionChanged(id: string, before: Option<string>, after: Option<string>)

  predicate Due(c: NodeChange, before: NodeMap, after: NodeMap) {
    match c
    case Added(id, d) => id !in before && id in after && after[id] == d
    case Removed(id, d) => id in before && id !in after && before[id] == d
    case DescriptionChanged(id, b, a) => id in before && id in after && before[id] == b && after[id] == a && a != b
  }

  predicate IdLeq(a: NodeChange, b: NodeChange) {
    Text.LexLeq(a.id, b.id)
  }

  ghost predicate OnePerId(changes: seq<NodeChange>) {
    forall i, j :: 0 <= i < j < |changes| ==> changes[i].id != changes[j].id
  }

  /** The changes are the due ones, one per node, in the order of the ids. */
  ghost predicate Exact(changes: seq<NodeChange>, before: NodeMap, after: NodeMap) {
    && (forall c :: c in changes <==> Due(c, before, after))
    && OnePerId(changes) && SortedBy(changes, IdLeq)
  }

  // ---- The patch ----

  function Apply(c: NodeChange, m: NodeMap): NodeMap {
    match c
    case Added(id, d) => m[id := d]
    case Removed(id, _) => m - {id}
    case DescriptionChanged(id, _, a) => m[id := a]
  }

  function ApplyAll(changes: seq<NodeChange>, m: NodeMap): NodeMap {
    if changes == [] then m else Apply(changes[|changes| - 1], ApplyAll(changes[..|changes| - 1], m))
  }

  function At(m: NodeMap, id: string): Option<Option<string>> {
    if id in m then Some(m[id]) else None
  }

  lemma {:induction false} Untouched(changes: seq<NodeChange>, m: NodeMap, id: string)
    requires forall c :: c in changes ==> c.id != id
    ensures At(ApplyAll(changes, m), id) == At(m, id)
  {
    if changes != [] {
      assert changes[|changes| - 1] in changes;
      Untouched(changes[..|changes| - 1], m, id);
    }
  }

  lemma {:induction false} Touched(changes: seq<NodeChange>, m: NodeMap, i: nat)
    requires OnePerId(changes) && i < |changes|
    ensures At(ApplyAll(changes, m), changes[i].id) == At(Apply(changes[i], m), changes[i].id)
  {
    var n := |changes| - 1;
    if i < n {
      assert changes[i].id != changes[n].id;
      Touched(changes[..n], m, i);
    }
  }

  function DueAt(id: string, before: NodeMap, after: NodeMap): Option<NodeChange> {
    if id in before && id !in after then Some(Removed(id, before[id]))
    else if id !in before && id in after then Some(Added(id, after[id]))
    else if id in before && id in after && before[id] != after[id] then
      Some(DescriptionChanged(id, before[id], after[id]))
    else None
  }

  /** Applying the changes to the nodes before gives the nodes after. */
  lemma PatchesNodes(changes: seq<NodeChange>, before: NodeMap, after: NodeMap)
    requires Exact(changes, before, after)
    ensures ApplyAll(changes, before) == after
  {
    var result := ApplyAll(changes, before);
    forall id ensures At(result, id) == At(after, id) {
      var c := DueAt(id, before, after);
      if c.Some? {
        assert Due(c.value, before, after);
        var i :| 0 <= i < |changes| && changes[i] == c.value;
        Touched(changes, before, i);
      } else {
        Untouched(changes, before, id);
      }
    }
    assert forall id :: id in result <==> At(result, id).Some?;
    assert forall id :: id in after <==> At(after, id).Some?;
    assert forall id | id in result :: Some(result[id]) == At(result, id) == At(after, id);
  }

  lemma EmptyIff(changes: seq<NodeChange>, before: NodeMap, after: NodeMap)
    requires Exact(changes, before, after)
    ensures changes == [] <==> before == after
  {
    PatchesNodes(changes, before, after);
    if changes != [] {
      assert changes[0] in changes;
    }
  }

  function Inverse(c: NodeChange): NodeChange {
    match c
    case Added(id, d) => Removed(id, d)
    case Removed(id, d) => Added(id, d)
    case DescriptionChanged(id, b, a) => DescriptionChanged(id, a, b)
  }

  function InverseAll(changes: seq<NodeChange>): seq<NodeChange> {
    seq(|changes|, i requires 0 <= i < |changes| => Inverse(changes[i]))
  }

  /** Swapping the graphs inverts every change, in place. */
  lemma SwapInverts(changes: seq<NodeChange>, before: NodeMap, after: NodeMap)
    requires Exact(changes, before, after)
    ensures Exact(InverseAll(changes), after, before)
  {
    var inverse := InverseAll(changes);
    forall c ensures c in inverse <==> Due(c, after, before) {
      assert Due(Inverse(c), before, after) <==> Due(c, after, before);
      if Inverse(c) in changes {
        var i :| 0 <= i < |changes| && changes[i] == Inverse(c);
        assert inverse[i] == c;
      }
      if c in inverse {
        var i :| 0 <= i < |inverse| && inverse[i] == c;
        assert changes[i] == Inverse(c) && changes[i] in changes;
      }
    }
    assert forall i | 0 <= i < |changes| :: inverse[i].id == changes[i].id;
  }

  // ---- Computing the diff ----

  /** Every due change occurs once. */
  ghost predicate Counted(changes: seq<NodeChange>, before: NodeMap, after: NodeMap, todo: set<string>) {
    forall c :: multiset(changes)[c] == if c.id !in todo && Due(c, before, after) then 1 else 0
  }

  lemma SortedIsExact(changes: seq<NodeChange>, before: NodeMap, after: NodeMap)
    requires Counted(changes, before, after, {}) && SortedBy(changes, IdLeq)
    ensures Exact(changes, before, after)
  {
    forall c ensures c in changes <==> Due(c, before, after) {
      assert c in changes <==> multiset(changes)[c] > 0;
    }
    forall i, j | 0 <= i < j < |changes| ensures changes[i].id != changes[j].id {
      if changes[i].id == changes[j].id {
        assert changes[i] in changes && changes[j] in changes;
        Twice(changes, i, j);
      }
    }
  }

  lemma Twice(changes: seq<NodeChange>, i: nat, j: nat)
    requires i < j < |changes| && changes[i] == changes[j]
    ensures multiset(changes)[changes[i]] >= 2
  {
    assert changes == changes[..j] + changes[j..];
    assert changes[i] in changes[..j] && changes[j] in changes[j..];
  }

  /** Adds the due changes of these ids, visited in any order. */
  method CollectOver(before: NodeMap, after: NodeMap, ids: set<string>, sofar: seq<NodeChange>, ghost todo: set<string>)
    returns (changes: seq<NodeChange>)
    requires Counted(sofar, before, after, todo) && ids <= todo
    ensures Counted(changes, before, after, todo - ids)
  {
    changes := sofar;
    var rest := ids;
    while rest != {}
      invariant rest <= ids
      invariant Counted(changes, before, after, todo - (ids - rest))
    {
      var id :| id in rest;
      rest := rest - {id};
      var due := DueAt(id, before, after);
      if due.Some? {
        changes := changes + [due.value];
      }
    }
    assert todo - (ids - {}) == todo - ids;
  }

  /** First the removed nodes, then the added ones, then those whose description changed. */
  method CollectChanges(before: NodeMap, after: NodeMap) returns (changes: seq<NodeChange>)
    ensures Counted(changes, before, after, {})
  {
    ghost var all := before.Keys + after.Keys;
    changes := CollectOver(before, after, before.Keys - after.Keys, [], all);
    changes := CollectOver(before, after, after.Keys - before.Keys, changes, all - (before.Keys - after.Keys));
    ghost var common := all - (before.Keys - after.Keys) - (after.Keys - before.Keys);
    changes := CollectOver(before, after, before.Keys * after.Keys, changes, common);
    assert common - before.Keys * after.Keys == {};
  }

  lemma IdsOrdered()
    ensures TotalPreorder(IdLeq)
  {
    Text.LexIsOrder();
  }

  method DiffNodes(before: NodeMap, after: NodeMap) returns (changes: seq<NodeChange>)
    ensures Exact(changes, before, after)
  {
    changes := CollectChanges(before, after);
    IdsOrdered();
    StableSortProperties(changes, IdLeq);
    changes := StableSort(changes, IdLeq);
    SortedIsExact(changes, before, after);
  }
}
