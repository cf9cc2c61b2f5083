/**
 * Coordinated changes across repositories: the twin of the planning core,
 * whose propagation never takes a block back.
 */
module Coordinator {
  import opened DepGraph
  import opened Sorting
  import opened Scheduler
  import Plan
  import Text

  datatype Status = Pending | InProgress | CiPassed | CiFailed | Released | Blocked

  datatype Change = Change(id: Id, status: Status, dependencies: seq<Id>)

  type Changes = map<Id, Change>

  ghost predicate KeyedById(cs: Changes) {
    forall id :: id in cs ==> cs[id].id == id
  }

  function Deps(cs: Changes): Graph {
    map id | id in cs :: cs[id].dependencies
  }

  predicate Waiting(s: Status) {
    s == Pending || s == InProgress
  }

  predicate Bad(s: Status) {
    s == CiFailed || s == Blocked
  }

  function WaitingIds(cs: Changes): set<Id> {
    set id | id in cs && Waiting(cs[id].status)
  }

  function BadIds(cs: Changes): set<Id> {
    set id | id in cs && Bad(cs[id].status)
  }

  /** The change waits, directly or through waiting changes, for a failed or blocked one. */
  ghost predicate Stuck(cs: Changes, id: Id) {
    LeadsTo(Deps(cs), WaitingIds(cs), BadIds(cs), id)
  }

  /** What block propagation makes of the graph. */
  ghost function Propagated(cs: Changes): Changes {
    map id | id in cs :: if Stuck(cs, id) then cs[id].(status := Blocked) else cs[id]
  }

  predicate CanStart(cs: Changes, id: Id) {
    && id in cs && cs[id].status == Pending
    && forall d :: d in cs[id].dependencies ==> d in cs && (cs[d].status == CiPassed || cs[d].status == Released)
  }

  // ---- Operations on the change graph ----

  class ChangeGraph {
    var changes: Changes

    ghost predicate Valid()
      reads this
    {
      KeyedById(changes)
    }

    constructor ()
      ensures Valid() && changes == map[]
    {
      changes := map[];
    }

    method AddChange(change: Change)
      requires Valid()
      modifies this
      ensures Valid() && changes == old(changes)[change.id := change]
    {
      changes := changes[change.id := change];
    }

    /** The ids of the changes that can start, sorted. */
    method ReadyChanges() returns (ready: seq<Id>)
      requires Valid()
      ensures Enumerates(ready, set id | id in changes && CanStart(changes, id))
      ensures SortedBy(ready, Text.LexLeq)
      ensures forall id :: id in ready <==>
        && id in changes && changes[id].status == Pending
        && forall d :: d in changes[id].dependencies ==>
          d in changes && (changes[d].status == CiPassed || changes[d].status == Released)
    {
      ghost var all := set id | id in changes && CanStart(changes, id);
      var found: seq<Id> := [];
      var todo := changes.Keys;
      while todo != {}
        invariant todo <= changes.Keys
        invariant Enumerates(found, all - todo)
      {
        var key :| key in todo;
        ghost var seen := all - todo;
        todo := todo - {key};
        if CanStart(changes, key) {
          EnumeratesSnoc(found, seen, key);
          assert all - todo == seen + {key};
          found := found + [changes[key].id];
        } else {
          assert all - todo == seen;
        }
      }
      assert all - {} == all;
      ready := StableSort(found, Text.LexLeq);
      Text.LexIsOrder();
      StableSortProperties(found, Text.LexLeq);
      SortKeepsEnumeration(found, ready, all);
    }

    /** Sets a status; only a failure is propagated. */
    method MarkStatus(id: Id, status: Status) returns (found: bool)
      requires Valid()
      modifies this
      ensures Valid() && (found <==> id in old(changes))
      ensures changes == Marked(old(changes), id, status)
      ensures found && status != CiFailed ==> changes == old(changes)[id := old(changes)[id].(status := status)]
      ensures found && status == CiFailed ==>
        changes == Propagated(old(changes)[id := old(changes)[id].(status := status)])
      ensures !found ==> changes == old(changes)
    {
      if id !in changes {
        return false;
      }
      changes := changes[id := changes[id].(status := status)];
      if status == CiFailed {
        PropagateBlocks();
      }
      return true;
    }

    method PropagateBlocks()
      requires Valid()
      modifies this
      ensures Valid() && changes == Propagated(old(changes))
      ensures changes.Keys == old(changes).Keys && forall id :: id in changes ==>
        changes[id] == if Stuck(old(changes), id) then old(changes)[id].(status := Blocked) else old(changes)[id]
    {
      ghost var before := changes;
      while true
        invariant Valid() && PartlyBlocked(before, changes)
        decreases WaitingIds(changes)
      {
        var changed := BlockRound(before);
        if !changed {
          SettledIsPropagated(before, changes);
          return;
        }
      }
    }

    /** One round: collect the bad ids, then block what depends on them. */
    method BlockRound(ghost before: Changes) returns (changed: bool)
      requires Valid() && PartlyBlocked(before, changes)
      modifies this
      ensures Valid() && PartlyBlocked(before, changes)
      ensures changed ==> WaitingIds(changes) < WaitingIds(old(changes))
      ensures !changed ==> changes == old(changes) && SettledOn(changes, changes.Keys, BadIds(changes))
    {
      ghost var start := changes;
      var bad := CollectBad();
      changed := false;
      var todo := changes.Keys;
      while todo != {}
        invariant Valid() && PartlyBlocked(before, changes) && todo <= start.Keys
        invariant WaitingIds(changes) <= WaitingIds(start)
        invariant if changed then WaitingIds(changes) < WaitingIds(start) else changes == start
        invariant !changed ==> SettledOn(start, start.Keys - todo, BadIds(start))
      {
        var id :| id in todo;
        todo := todo - {id};
        var hit := BlockIfDependsOn(id, bad, before, start);
        changed := changed || hit;
      }
    }

    method CollectBad() returns (ids: seq<Id>)
      requires Valid()
      ensures forall id :: id in ids <==> id in BadIds(changes)
    {
      ids := [];
      var todo := changes.Keys;
      while todo != {}
        invariant todo <= changes.Keys
        invariant forall id :: id in ids <==> id in BadIds(changes) - todo
      {
        var key :| key in todo;
        todo := todo - {key};
        if Bad(changes[key].status) {
          ids := ids + [changes[key].id];
        }
      }
    }

    method BlockIfDependsOn(id: Id, bad: seq<Id>, ghost before: Changes, ghost start: Changes) returns (hit: bool)
      requires Valid() && id in changes
      requires PartlyBlocked(before, start) && PartlyBlocked(before, changes)
      requires forall x :: x in bad <==> x in BadIds(start)
      modifies this
      ensures Valid() && PartlyBlocked(before, changes)
      ensures if hit then WaitingIds(changes) < WaitingIds(old(changes)) else changes == old(changes)
      ensures !hit ==> SettledOn(changes, {id}, BadIds(start))
    {
      hit := false;
      if Waiting(changes[id].status) {
        var deps := changes[id].dependencies;
        for i := 0 to |deps|
          invariant changes == old(changes)
          invariant forall k :: 0 <= k < i ==> deps[k] !in BadIds(start)
        {
          if deps[i] in bad {
            BlockingIsStuck(before, start, changes, id, deps[i]);
            BlockOne(before, changes, id);
            changes := changes[id := changes[id].(status := Blocked)];
            return true;
          }
        }
      }
    }
  }

  ghost function Marked(cs: Changes, id: Id, status: Status): Changes {
    if id !in cs then cs
    else
      var marked := cs[id := cs[id].(status := status)];
      if status == CiFailed then Propagated(marked) else marked
  }

  lemma SortKeepsEnumeration(found: seq<Id>, sorted: seq<Id>, xs: set<Id>)
    requires Enumerates(found, xs) && multiset(sorted) == multiset(found)
    ensures Enumerates(sorted, xs)
  {
    forall x ensures x in sorted <==> x in found {
      assert x in multiset(sorted) <==> x in multiset(found);
    }
    NoDuplicatesCount(found);
    CountNoDuplicates(sorted);
  }

  lemma {:induction false} NoDuplicatesCount(s: seq<Id>)
    requires NoDuplicates(s)
    ensures forall x :: multiset(s)[x] <= 1
  {
    if s != [] {
      NoDuplicatesCount(s[1..]);
      assert s == [s[0]] + s[1..];
      assert s[0] !in s[1..];
    }
  }

  lemma CountNoDuplicates(s: seq<Id>)
    requires forall x :: multiset(s)[x] <= 1
    ensures NoDuplicates(s)
  {
    forall i, j | 0 <= i < j < |s| ensures s[i] != s[j] {
      assert s == s[..i] + [s[i]] + s[i + 1..j] + [s[j]] + s[j + 1..];
      assert multiset(s)[s[i]] >= if s[i] == s[j] then 2 else 1;
    }
  }

  // ---- Between the rounds ----

  ghost predicate PartlyBlocked(before: Changes, cs: Changes) {
    && cs.Keys == before.Keys
    && forall id :: id in cs ==>
      cs[id] == before[id] || (Stuck(before, id) && cs[id] == before[id].(status := Blocked))
  }

  ghost predicate SettledOn(cs: Changes, ids: set<Id>, bad: set<Id>) {
    forall id, d :: id in ids && id in WaitingIds(cs) && d in cs[id].dependencies ==> d !in bad
  }

  ghost predicate CannotPass(cs: Changes, d: Id) {
    d in cs && (cs[d].status == CiFailed || cs[d].status == Blocked)
  }

  /** A waiting change is stuck exactly when it depends on a failed, blocked or stuck one. */
  lemma StuckUnfold(cs: Changes, id: Id)
    ensures Stuck(cs, id) <==>
      && id in cs && (cs[id].status == Pending || cs[id].status == InProgress)
      && exists d :: d in cs[id].dependencies && (Stuck(cs, d) || CannotPass(cs, d))
  {
    LeadsToUnfold(Deps(cs), WaitingIds(cs), BadIds(cs), id);
    if id in cs {
      forall d ensures Edge(Deps(cs), id, d) <==> d in cs[id].dependencies {}
    }
  }

  lemma BlockingIsStuck(before: Changes, start: Changes, cs: Changes, id: Id, d: Id)
    requires PartlyBlocked(before, start) && PartlyBlocked(before, cs)
    requires id in WaitingIds(cs) && d in cs[id].dependencies && d in BadIds(start)
    ensures Stuck(before, id)
  {
    StuckUnfold(before, id);
  }

  lemma BlockOne(before: Changes, cs: Changes, id: Id)
    requires PartlyBlocked(before, cs) && id in WaitingIds(cs) && Stuck(before, id)
    ensures var cs' := cs[id := cs[id].(status := Blocked)];
      PartlyBlocked(before, cs') && WaitingIds(cs') == WaitingIds(cs) - {id}
  {
  }

  lemma SettledIsPropagated(before: Changes, cs: Changes)
    requires PartlyBlocked(before, cs) && SettledOn(cs, cs.Keys, BadIds(cs))
    ensures cs == Propagated(before)
  {
    var bad := BadIds(cs);
    forall id, d | id in WaitingIds(before) && Edge(Deps(before), id, d) && (d in BadIds(before) || d in bad)
      ensures id in bad
    {
      assert d in bad;
      assert id in WaitingIds(cs) || id in bad;
    }
    LeadsToLeast(Deps(before), WaitingIds(before), BadIds(before), bad);
    forall id | id in cs ensures cs[id] == Propagated(before)[id] {
      if Stuck(before, id) {
        StuckUnfold(before, id);
        assert id in bad;
      }
    }
  }

  // ---- Agreement with the planning core ----

  function PlanStatus(s: Status): Plan.Status {
    match s
    case Pending => Plan.Pending
    case InProgress => Plan.Running
    case CiPassed => Plan.Completed
    case Released => Plan.Completed
    case CiFailed => Plan.Failed
    case Blocked => Plan.Blocked
  }

  /** A change graph, read as a task plan. */
  function AsPlan(cs: Changes): Plan.Tasks {
    map id | id in cs ::
      Plan.NewTask(cs[id].id).(status := PlanStatus(cs[id].status), dependencies := cs[id].dependencies)
  }

  ghost predicate BlocksJustified(cs: Changes) {
    forall id :: id in cs && cs[id].status == Blocked ==> Plan.Doomed(AsPlan(cs), id)
  }

  lemma AsPlanSets(cs: Changes)
    ensures Plan.Deps(AsPlan(cs)) == Deps(cs)
    ensures Plan.CanBlock(AsPlan(cs)) == WaitingIds(cs) + (set id | id in cs && cs[id].status == Blocked)
    ensures Plan.WithStatus(AsPlan(cs), Plan.Failed) == set id | id in cs && cs[id].status == CiFailed
  {
  }

  /** With justified blocks, the two cores find the same waiting changes stuck. */
  lemma StuckIsDoomed(cs: Changes)
    requires BlocksJustified(cs)
    ensures forall id :: id in WaitingIds(cs) ==> (Stuck(cs, id) <==> Plan.Doomed(AsPlan(cs), id))
  {
    var ts := AsPlan(cs);
    AsPlanSets(cs);
    var doomed := set id | id in cs && Plan.Doomed(ts, id);
    forall id, d | id in WaitingIds(cs) && Edge(Deps(cs), id, d) && (d in BadIds(cs) || d in doomed)
      ensures id in doomed
    {
      Plan.DoomedUnfold(ts, id);
      assert d in ts[id].dependencies;
      assert Plan.HasStatus(ts, d, Plan.Failed) || Plan.Doomed(ts, d);
    }
    LeadsToLeast(Deps(cs), WaitingIds(cs), BadIds(cs), doomed);
    var stuck := set id | id in cs && (Stuck(cs, id) || cs[id].status == Blocked);
    forall id, d | id in Plan.CanBlock(ts) && Edge(Plan.Deps(ts), id, d)
      && (d in Plan.WithStatus(ts, Plan.Failed) || d in stuck)
      ensures id in stuck
    {
      StuckUnfold(cs, id);
      assert d in cs[id].dependencies && (d in BadIds(cs) || Stuck(cs, d));
    }
    LeadsToLeast(Plan.Deps(ts), Plan.CanBlock(ts), Plan.WithStatus(ts, Plan.Failed), stuck);
  }

  /**
   * The two propagations agree exactly on graphs whose blocked changes all wait
   * for a failed one; in particular wherever nothing is blocked.
   */
  lemma PropagationsAgreeIff(cs: Changes)
    ensures Plan.Propagated(AsPlan(cs)) == AsPlan(Propagated(cs)) <==> BlocksJustified(cs)
  {
    var ts := AsPlan(cs);
    if BlocksJustified(cs) {
      StuckIsDoomed(cs);
      forall id | id in cs ensures Plan.Propagated(ts)[id] == AsPlan(Propagated(cs))[id] {
        StuckUnfold(cs, id);
        Plan.DoomedUnfold(ts, id);
      }
    } else {
      var id :| id in cs && cs[id].status == Blocked && !Plan.Doomed(ts, id);
      StuckUnfold(cs, id);
      assert Plan.Propagated(ts)[id].status == Plan.Pending;
      assert AsPlan(Propagated(cs))[id].status == Plan.Blocked;
    }
  }

  /** The latch: no marking of another change takes a block back. */
  lemma BlockedStays(cs: Changes, id: Id, other: Id, status: Status)
    requires id in cs && cs[id].status == Blocked && other != id
    ensures id in Marked(cs, other, status) && Marked(cs, other, status)[id].status == Blocked
  {
  }
}
