/**
 * The task plan: a map of tasks with dependencies, block propagation and the
 * graph rewrite that puts a recovery task in front of a failed one.
 */
module Plan {
  import opened Wrappers
  import opened DepGraph

  datatype Status = Pending | Running | Completed | Failed | Blocked

  /** Names, descriptions, payloads and timestamps never decide anything and are left out. */
  datatype Task = Task(
    id: Id,
    status: Status,
    dependencies: seq<Id>,
    error: Option<string>)

  /** `Task::new`: a pending task without dependencies. */
  function NewTask(id: Id): Task {
    Task(id, Pending, [], None)
  }

  type Tasks = map<Id, Task>

  /** Plans are filled by `add_task`, so every task is stored under its own id. */
  ghost predicate KeyedById(ts: Tasks) {
    forall id :: id in ts ==> ts[id].id == id
  }

  function Deps(ts: Tasks): Graph {
    map id | id in ts :: ts[id].dependencies
  }

  predicate HasStatus(ts: Tasks, id: Id, s: Status) {
    id in ts && ts[id].status == s
  }

  function WithStatus(ts: Tasks, s: Status): set<Id> {
    set id | id in ts && ts[id].status == s
  }

  // ---- Block propagation, as a property of the plan ----

  /** A task that propagation may leave Blocked. */
  predicate Blockable(s: Status) {
    s == Pending || s == Running || s == Blocked
  }

  function CanBlock(ts: Tasks): set<Id> {
    set id | id in ts && Blockable(ts[id].status)
  }

  /** The task reaches a failed task through blockable tasks only. */
  ghost predicate Doomed(ts: Tasks, id: Id) {
    LeadsTo(Deps(ts), CanBlock(ts), WithStatus(ts, Failed), id)
  }

  ghost function PropagatedStatus(ts: Tasks, id: Id): Status
    requires id in ts
  {
    if Doomed(ts, id) then Blocked
    else if ts[id].status == Blocked then Pending
    else ts[id].status
  }

  /** What block propagation makes of a plan. */
  ghost function Propagated(ts: Tasks): Tasks {
    map id | id in ts :: ts[id].(status := PropagatedStatus(ts, id))
  }

  /** One step of the way to a failed task. */
  lemma DoomedUnfold(ts: Tasks, id: Id)
    ensures Doomed(ts, id) <==>
      && id in ts && (ts[id].status == Pending || ts[id].status == Running || ts[id].status == Blocked)
      && exists d :: d in ts[id].dependencies && (HasStatus(ts, d, Failed) || Doomed(ts, d))
  {
    LeadsToUnfold(Deps(ts), CanBlock(ts), WithStatus(ts, Failed), id);
    if id in ts {
      forall d ensures Edge(Deps(ts), id, d) <==> d in ts[id].dependencies {}
      forall d ensures d in WithStatus(ts, Failed) <==> HasStatus(ts, d, Failed) {}
    }
  }

  /** The blocking rule: a blockable task with a failed or blocked dependency is blocked. */
  ghost predicate ClosedUnderBlocking(ts: Tasks, s: set<Id>) {
    Absorbs(Deps(ts), CanBlock(ts), WithStatus(ts, Failed), s)
  }

  ghost function BlockedSet(ts: Tasks): set<Id> {
    set id | id in ts && Propagated(ts)[id].status == Blocked
  }

  /** Propagation blocks the least set closed under the blocking rule. */
  lemma PropagationIsLeast(ts: Tasks)
    ensures ClosedUnderBlocking(ts, BlockedSet(ts))
    ensures forall s :: ClosedUnderBlocking(ts, s) ==> BlockedSet(ts) <= s
  {
    forall s | ClosedUnderBlocking(ts, s) ensures BlockedSet(ts) <= s {
      LeadsToLeast(Deps(ts), CanBlock(ts), WithStatus(ts, Failed), s);
    }
    forall id, d | id in CanBlock(ts) && Edge(Deps(ts), id, d) && (d in WithStatus(ts, Failed) || d in BlockedSet(ts))
      ensures id in BlockedSet(ts)
    {
      DoomedUnfold(ts, id);
    }
  }

  /** Plans that agree on dependencies, failures and what may be blocked doom the same tasks. */
  ghost predicate SameShape(ts: Tasks, us: Tasks) {
    && ts.Keys == us.Keys
    && forall id :: id in ts ==>
      && ts[id].dependencies == us[id].dependencies
      && (ts[id].status == Failed <==> us[id].status == Failed)
      && (Blockable(ts[id].status) <==> Blockable(us[id].status))
  }

  lemma SameShapeSameDoom(ts: Tasks, us: Tasks)
    requires SameShape(ts, us)
    ensures forall id :: Doomed(ts, id) <==> Doomed(us, id)
  {
    assert Deps(ts) == Deps(us) && CanBlock(ts) == CanBlock(us) && WithStatus(ts, Failed) == WithStatus(us, Failed);
  }

  lemma PropagatedShape(ts: Tasks)
    ensures SameShape(ts, Propagated(ts)) && Deps(Propagated(ts)) == Deps(ts)
    ensures KeyedById(ts) ==> KeyedById(Propagated(ts))
  {
    forall id | id in ts ensures Doomed(ts, id) ==> Blockable(ts[id].status) {
      DoomedUnfold(ts, id);
    }
  }

  /** Propagating twice is propagating once. */
  lemma PropagationIdempotent(ts: Tasks)
    ensures Propagated(Propagated(ts)) == Propagated(ts)
  {
    PropagatedShape(ts);
    SameShapeSameDoom(ts, Propagated(ts));
  }

  // ---- The recovery rewrite ----

  /** The plan after the edges around the failed task have been moved, before propagation. */
  function Rewired(ts: Tasks, failed: Id, recovery: Task): Tasks
    requires failed in ts
  {
    var added := ts[recovery.id := recovery.(dependencies := ts[failed].dependencies)];
    added[failed := added[failed].(dependencies := [recovery.id], status := Pending, error := None)]
  }

  ghost function Injected(ts: Tasks, failed: Id, recovery: Task): Tasks {
    if failed in ts then Propagated(Rewired(ts, failed, recovery)) else ts
  }

  ghost function StatusUpdated(ts: Tasks, id: Id, status: Status): Tasks {
    if id in ts then Propagated(ts[id := ts[id].(status := status)]) else ts
  }

  /** Edges of the rewired plan, in terms of the old ones. */
  lemma RewiredEdges(ts: Tasks, f: Id, recovery: Task)
    requires f in ts
    ensures var g, h := Deps(ts), Deps(Rewired(ts, f, recovery));
      && (forall b :: Edge(h, f, b) <==> b == recovery.id)
      && (recovery.id != f ==> forall b :: Edge(h, recovery.id, b) <==> Edge(g, f, b))
      && (forall a, b :: a != f && a != recovery.id ==> (Edge(h, a, b) <==> Edge(g, a, b)))
  {
  }

  /** A path of the rewired plan that stays clear of the two rewired tasks is an old path. */
  lemma {:induction false} OldPath(ts: Tasks, f: Id, recovery: Task, p: seq<Id>)
    requires f in ts && recovery.id != f
    requires IsPath(Deps(Rewired(ts, f, recovery)), p) && |p| >= 2
    requires p[0] != f && p[0] != recovery.id
    ensures exists b :: Reaches(Deps(ts), p[0], b) && (b == p[|p| - 1] || b == f || b == recovery.id)
    decreases |p|
  {
    var g, h := Deps(ts), Deps(Rewired(ts, f, recovery));
    RewiredEdges(ts, f, recovery);
    assert Edge(h, p[0], p[1]) && Edge(g, p[0], p[1]);
    EdgeReaches(g, p[0], p[1]);
    if |p| > 2 && p[1] != f && p[1] != recovery.id {
      assert IsPath(h, p[1..]);
      OldPath(ts, f, recovery, p[1..]);
      var b :| Reaches(g, p[1], b) && (b == p[|p| - 1] || b == f || b == recovery.id);
      ReachesTransitive(g, p[0], p[1], b);
    }
  }

  /** A path of an acyclic plan from below the failed task to the recovery id survives the rewrite. */
  lemma {:induction false} NewPath(ts: Tasks, f: Id, recovery: Task, p: seq<Id>)
    requires f in ts && recovery.id != f && !Cyclic(Deps(ts))
    requires IsPath(Deps(ts), p) && p[|p| - 1] == recovery.id && Reaches(Deps(ts), f, p[0])
    ensures p[0] == recovery.id || Reaches(Deps(Rewired(ts, f, recovery)), p[0], recovery.id)
    decreases |p|
  {
    var g, h := Deps(ts), Deps(Rewired(ts, f, recovery));
    if p[0] != recovery.id {
      RewiredEdges(ts, f, recovery);
      assert Edge(g, p[0], p[1]) && Edge(h, p[0], p[1]);
      EdgeReaches(g, p[0], p[1]);
      EdgeReaches(h, p[0], p[1]);
      ReachesTransitive(g, f, p[0], p[1]);
      assert IsPath(g, p[1..]);
      NewPath(ts, f, recovery, p[1..]);
      if p[1] != recovery.id {
        ReachesTransitive(h, p[0], p[1], recovery.id);
      }
    }
  }

  /** A cycle of the rewired plan makes the failed task depend on the recovery id beforehand. */
  lemma RewiredCycle(ts: Tasks, f: Id, recovery: Task, x: Id)
    requires f in ts && recovery.id != f && !Cyclic(Deps(ts))
    requires Reaches(Deps(Rewired(ts, f, recovery)), x, x)
    ensures Reaches(Deps(ts), f, recovery.id)
  {
    var g, h, r := Deps(ts), Deps(Rewired(ts, f, recovery)), recovery.id;
    RewiredEdges(ts, f, recovery);
    var y := x;
    if x != f && x != r {
      // An old path would be an old cycle, so the cycle meets a rewired task.
      var p :| IsPath(h, p) && |p| >= 2 && p[0] == x && p[|p| - 1] == x;
      y := CycleMeets(ts, f, recovery, p);
    }
    // From either rewired task the cycle goes on to a dependency of the failed one.
    var d: Id;
    if y == f {
      var r' := ReachesFirst(h, f, f);
      d := ReachesFirst(h, r, f);
    } else {
      d := ReachesFirst(h, r, r);
    }
    assert Edge(g, f, d);
    EdgeReaches(g, f, d);
    if d != r {
      var q :| IsPath(h, q) && |q| >= 2 && q[0] == d && q[|q| - 1] == y;
      OldPath(ts, f, recovery, q);
      var b :| Reaches(g, d, b) && (b == y || b == f || b == r);
      ReachesTransitive(g, f, d, b);
    }
  }

  /** A cycle of the rewired plan through an unchanged task goes through a rewired one. */
  lemma CycleMeets(ts: Tasks, f: Id, recovery: Task, p: seq<Id>) returns (y: Id)
    requires f in ts && recovery.id != f
    requires IsPath(Deps(Rewired(ts, f, recovery)), p)
    requires |p| >= 2 && p[0] == p[|p| - 1] && p[0] != f && p[0] != recovery.id
    ensures Cyclic(Deps(ts)) ||
      ((y == f || y == recovery.id) && Reaches(Deps(Rewired(ts, f, recovery)), y, y))
  {
    var g, h := Deps(ts), Deps(Rewired(ts, f, recovery));
    if k :| 0 <= k < |p| && (p[k] == f || p[k] == recovery.id) {
      y := p[k];
      assert IsPath(h, p[..k + 1]) && IsPath(h, p[k..]);
      assert Reaches(h, p[0], y) && Reaches(h, y, p[0]);
      ReachesTransitive(h, y, p[0], y);
    } else {
      RewiredEdges(ts, f, recovery);
      assert IsPath(g, p) && Reaches(g, p[0], p[0]);
      y := f;
    }
  }

  /**
   * Injecting a recovery into an acyclic plan keeps it acyclic exactly when the
   * recovery is another task that the failed one does not already depend on.
   */
  lemma InjectionAcyclicIff(ts: Tasks, f: Id, recovery: Task)
    requires f in ts && !Cyclic(Deps(ts))
    ensures !Cyclic(Deps(Injected(ts, f, recovery)))
      <==> recovery.id != f && !Reaches(Deps(ts), f, recovery.id)
  {
    var g, h, r := Deps(ts), Deps(Rewired(ts, f, recovery)), recovery.id;
    PropagatedShape(Rewired(ts, f, recovery));
    if r == f {
      assert Edge(h, f, f);
      EdgeReaches(h, f, f);
    } else {
      if x :| Reaches(h, x, x) {
        RewiredCycle(ts, f, recovery, x);
      }
      if Reaches(g, f, r) {
        var p :| IsPath(g, p) && |p| >= 2 && p[0] == f && p[|p| - 1] == r;
        assert Edge(g, p[0], p[1]);
        EdgeReaches(g, f, p[1]);
        assert IsPath(g, p[1..]);
        NewPath(ts, f, recovery, p[1..]);
        RewiredEdges(ts, f, recovery);
        EdgeReaches(h, r, p[1]);
        if p[1] != r {
          ReachesTransitive(h, r, p[1], r);
        }
      }
    }
  }

  /** A recovery id that the plan does not know keeps an acyclic plan acyclic. */
  lemma FreshInjectionAcyclic(ts: Tasks, f: Id, recovery: Task)
    requires f in ts && !Cyclic(Deps(ts)) && Closed(Deps(ts)) && recovery.id !in ts
    ensures !Cyclic(Deps(Injected(ts, f, recovery)))
  {
    InjectionAcyclicIff(ts, f, recovery);
    if Reaches(Deps(ts), f, recovery.id) {
      var b := ReachesLast(Deps(ts), f, recovery.id);
    }
  }

  /**
   * A recovery task that is used a second time for the same failed task, which
   * by then depends on it alone, always closes a cycle.
   */
  lemma ReusedRecoveryCloses(ts: Tasks, f: Id, recovery: Task)
    requires f in ts && !Cyclic(Deps(ts))
    ensures var once := Injected(ts, f, recovery);
      && f in once && Cyclic(Deps(Injected(once, f, recovery)))
  {
    var once := Injected(ts, f, recovery);
    PropagatedShape(Rewired(ts, f, recovery));
    PropagatedShape(Rewired(once, f, recovery));
    var h := Deps(Rewired(once, f, recovery));
    assert once[f].dependencies == [recovery.id];
    assert Edge(h, recovery.id, recovery.id);
    EdgeReaches(h, recovery.id, recovery.id);
  }

  // ---- The plan object ----

  class EpicPlan {
    var tasks: Tasks

    ghost predicate Valid()
      reads this
    {
      KeyedById(tasks)
    }

    constructor ()
      ensures Valid() && tasks == map[]
    {
      tasks := map[];
    }

    /** A copy read back from the shared context. */
    constructor FromContext(stored: Tasks)
      requires KeyedById(stored)
      ensures Valid() && tasks == stored
    {
      tasks := stored;
    }

    method AddTask(task: Task)
      requires Valid()
      modifies this`tasks
      ensures Valid() && tasks == old(tasks)[task.id := task]
    {
      tasks := tasks[task.id := task];
    }

    method UpdateTaskStatus(id: Id, status: Status) returns (found: bool)
      requires Valid()
      modifies this`tasks
      ensures Valid()
      ensures found <==> id in old(tasks)
      ensures tasks == StatusUpdated(old(tasks), id, status)
    {
      if id in tasks {
        tasks := tasks[id := tasks[id].(status := status)];
        PropagateBlockedStatus();
        return true;
      }
      return false;
    }

    /** Every Blocked task back to Pending. */
    method ResetBlocked()
      requires Valid()
      modifies this`tasks
      ensures Valid() && tasks == Reset(old(tasks))
    {
      ghost var before := tasks;
      var todo := tasks.Keys;
      while todo != {}
        invariant todo <= before.Keys == tasks.Keys
        invariant forall id :: id in before ==>
          tasks[id] == if id in todo then before[id] else ResetTask(before[id])
      {
        var id :| id in todo;
        todo := todo - {id};
        if tasks[id].status == Blocked {
          tasks := tasks[id := tasks[id].(status := Pending)];
        }
      }
    }

    /**
     * Repeats rounds over the whole plan until nothing changes.  Each round
     * collects the failed and blocked ids first and visits the tasks in any order.
     */
    method PropagateBlockedStatus()
      requires Valid()
      modifies this`tasks
      ensures Valid() && tasks == Propagated(old(tasks))
      ensures tasks.Keys == old(tasks).Keys && forall id :: id in tasks ==>
        tasks[id] ==
          if Doomed(old(tasks), id) then old(tasks)[id].(status := Blocked)
          else if old(tasks)[id].status == Blocked then old(tasks)[id].(status := Pending)
          else old(tasks)[id]
    {
      ghost var before := tasks;
      ResetBlocked();
      while true
        invariant Valid() && PartlyBlocked(before, tasks)
        decreases Active(tasks)
      {
        var changed := BlockRound(before);
        if !changed {
          SettledIsPropagated(before, tasks);
          return;
        }
      }
    }

    /** One round of the loop above. */
    method BlockRound(ghost before: Tasks) returns (changed: bool)
      requires Valid() && PartlyBlocked(before, tasks)
      modifies this`tasks
      ensures Valid() && PartlyBlocked(before, tasks)
      ensures changed ==> Active(tasks) < Active(old(tasks))
      ensures !changed ==> tasks == old(tasks) && Settled(tasks)
    {
      ghost var start := tasks;
      var bad := CollectFailedOrBlocked();
      changed := false;
      var todo := tasks.Keys;
      while todo != {}
        invariant Valid() && PartlyBlocked(before, tasks) && todo <= start.Keys
        invariant Active(tasks) <= Active(start)
        invariant if changed then Active(tasks) < Active(start) else tasks == start
        invariant !changed ==> SettledOn(start, start.Keys - todo, bad)
      {
        var id :| id in todo;
        todo := todo - {id};
        var hit := BlockIfDependsOn(id, bad, before, start);
        changed := changed || hit;
      }
    }

    /** Blocks a waiting or running task with a dependency among `bad`. */
    method BlockIfDependsOn(id: Id, bad: set<Id>, ghost before: Tasks, ghost start: Tasks) returns (hit: bool)
      requires Valid() && id in tasks
      requires PartlyBlocked(before, start) && PartlyBlocked(before, tasks)
      requires bad == WithStatus(start, Failed) + WithStatus(start, Blocked)
      modifies this`tasks
      ensures Valid() && PartlyBlocked(before, tasks)
      ensures if hit then Active(tasks) < Active(old(tasks)) else tasks == old(tasks)
      ensures !hit ==> SettledOn(tasks, {id}, bad)
    {
      hit := false;
      if tasks[id].status == Pending || tasks[id].status == Running {
        var deps := tasks[id].dependencies;
        for i := 0 to |deps|
          invariant tasks == old(tasks)
          invariant forall k :: 0 <= k < i ==> deps[k] !in bad
        {
          if deps[i] in bad {
            BlockingIsDoomed(before, start, tasks, id, deps[i]);
            BlockOne(before, tasks, id);
            tasks := tasks[id := tasks[id].(status := Blocked)];
            return true;
          }
        }
      }
    }

    method CollectFailedOrBlocked() returns (ids: set<Id>)
      requires Valid()
      ensures ids == WithStatus(tasks, Failed) + WithStatus(tasks, Blocked)
    {
      ids := {};
      var todo := tasks.Keys;
      while todo != {}
        invariant todo <= tasks.Keys
        invariant ids == WithStatus(tasks, Failed) + WithStatus(tasks, Blocked) - todo
      {
        var key :| key in todo;
        todo := todo - {key};
        if tasks[key].status == Failed || tasks[key].status == Blocked {
          ids := ids + {tasks[key].id};
        }
      }
    }

    method InjectRecoveryTask(failedId: Id, recovery: Task) returns (injected: bool)
      requires Valid()
      modifies this`tasks
      ensures Valid()
      ensures injected <==> failedId in old(tasks)
      ensures tasks == Injected(old(tasks), failedId, recovery)
    {
      if failedId !in tasks {
        return false;
      }
      AddTask(recovery.(dependencies := tasks[failedId].dependencies));
      tasks := tasks[failedId := tasks[failedId].(dependencies := [recovery.id], status := Pending, error := None)];
      PropagateBlockedStatus();
      return true;
    }
  }

  // ---- Between the rounds of propagation ----

  function ResetTask(t: Task): Task {
    if t.status == Blocked then t.(status := Pending) else t
  }

  function Reset(ts: Tasks): Tasks {
    map id | id in ts :: ResetTask(ts[id])
  }

  ghost function Active(ts: Tasks): set<Id> {
    WithStatus(ts, Pending) + WithStatus(ts, Running)
  }

  /** Every task is as after the reset, or Blocked and rightly so. */
  ghost predicate PartlyBlocked(before: Tasks, ts: Tasks) {
    && ts.Keys == before.Keys
    && forall id :: id in ts ==>
      || ts[id] == ResetTask(before[id])
      || (Doomed(before, id) && ts[id] == before[id].(status := Blocked))
  }

  ghost predicate SettledOn(ts: Tasks, ids: set<Id>, bad: set<Id>) {
    forall id, d :: id in ids && id in Active(ts) && d in ts[id].dependencies ==> d !in bad
  }

  ghost predicate Settled(ts: Tasks) {
    SettledOn(ts, ts.Keys, WithStatus(ts, Failed) + WithStatus(ts, Blocked))
  }

  lemma BlockingIsDoomed(before: Tasks, start: Tasks, ts: Tasks, id: Id, d: Id)
    requires PartlyBlocked(before, start) && PartlyBlocked(before, ts)
    requires id in Active(ts) && d in ts[id].dependencies
    requires HasStatus(start, d, Failed) || HasStatus(start, d, Blocked)
    ensures Doomed(before, id)
  {
    DoomedUnfold(before, id);
  }

  lemma BlockOne(before: Tasks, ts: Tasks, id: Id)
    requires PartlyBlocked(before, ts) && id in Active(ts) && Doomed(before, id)
    ensures var ts' := ts[id := ts[id].(status := Blocked)];
      PartlyBlocked(before, ts') && Active(ts') == Active(ts) - {id}
  {
  }

  lemma SettledIsPropagated(before: Tasks, ts: Tasks)
    requires PartlyBlocked(before, ts) && Settled(ts)
    ensures ts == Propagated(before)
  {
    var blocked := WithStatus(ts, Blocked);
    forall id, d | id in CanBlock(before) && Edge(Deps(before), id, d)
      && (d in WithStatus(before, Failed) || d in blocked)
      ensures id in blocked
    {
      assert d in WithStatus(ts, Failed) + WithStatus(ts, Blocked);
      assert id in Active(ts) || id in blocked;
    }
    assert ClosedUnderBlocking(before, blocked);
    PropagationIsLeast(before);
    forall id | id in ts ensures ts[id] == Propagated(before)[id] {
      if Doomed(before, id) {
        assert id in BlockedSet(before);
      }
    }
  }
}
