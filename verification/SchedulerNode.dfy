/**
 * One execution of the scheduler node: failure handling with bounded retries
 * and recovery injection, or the choice of the next task to run.
 */
module SchedulerNode {
  import opened Wrappers
  import opened AgentStates
  import opened DepGraph
  import opened Plan
  import opened Scheduler
  import opened Sorting
  import Text

  datatype FailureClass = Compile | Test | Runtime | Integration | Unknown

  /** `classify` stands for the classification of error texts. */
  datatype Node = Node(
    selfHealing: bool,
    registered: map<Id, Task>,
    policies: map<FailureClass, nat>,
    classify: string -> FailureClass)

  function DefaultMaxAttempts(c: FailureClass): nat {
    match c
    case Compile => 3
    case Test => 2
    case Runtime => 2
    case Integration => 4
    case Unknown => 3
  }

  function MaxAttempts(node: Node, c: FailureClass): nat {
    if c in node.policies then node.policies[c] else DefaultMaxAttempts(c)
  }

  datatype RecoveryRecord = RecoveryRecord(
    taskId: Id, attempt: nat, failureClass: FailureClass, error: string, decision: Decision)

  datatype Decision = InjectRecovery | HaltedAtMaxAttempts

  function AttemptsOf(attempts: map<Id, nat>, id: Id): nat {
    if id in attempts then attempts[id] else 0
  }

  function ErrorOf(task: Task): string {
    match task.error
    case Some(e) => e
    case None => "Unknown error"
  }

  function RecoveryTask(node: Node, task: Task, attempt: nat): Task {
    if task.id in node.registered then node.registered[task.id]
    else NewTask(Text.RecoveryId(task.id, attempt))
  }

  /** The local variables of the failure loop. */
  datatype Healing = Healing(
    plan: Tasks, attempts: map<Id, nat>, history: seq<RecoveryRecord>, any: bool, all: bool)

  /** Handling one failed task. */
  ghost function HealOne(node: Node, h: Healing, task: Task): Healing {
    if node.selfHealing then
      var kind := node.classify(ErrorOf(task));
      var current := AttemptsOf(h.attempts, task.id);
      if current < MaxAttempts(node, kind) then
        h.(plan := Injected(h.plan, task.id, RecoveryTask(node, task, current + 1)),
           attempts := h.attempts[task.id := current + 1],
           history := h.history + [RecoveryRecord(task.id, current + 1, kind, ErrorOf(task), InjectRecovery)],
           any := true)
      else
        h.(history := h.history + [RecoveryRecord(task.id, current, kind, ErrorOf(task), HaltedAtMaxAttempts)],
           all := false)
    else if task.id in node.registered then
      h.(plan := Injected(h.plan, task.id, node.registered[task.id]), any := true)
    else
      h.(all := false)
  }

  /** Handling failed tasks one after the other. */
  ghost function HealAll(node: Node, h: Healing, failed: seq<Task>): Healing {
    if failed == [] then h
    else HealOne(node, HealAll(node, h, failed[..|failed| - 1]), failed[|failed| - 1])
  }

  function TaskAt(ts: Tasks, id: Id): Task {
    if id in ts then ts[id] else NewTask(id)
  }

  /** The tasks of a list of ids of the plan. */
  ghost function TasksOf(ts: Tasks, ids: seq<Id>): seq<Task> {
    seq(|ids|, i requires 0 <= i < |ids| => TaskAt(ts, ids[i]))
  }

  // ---- The shared context ----

  /** The context entries that the scheduler node reads and writes. */
  datatype Context = Context(
    plan: Option<Tasks>,
    attempts: map<Id, nat>,
    history: seq<RecoveryRecord>,
    isComplete: bool,
    currentTask: Option<Id>)

  class SharedContext {
    var plan: Option<Tasks>
    var attempts: map<Id, nat>
    var history: seq<RecoveryRecord>
    var isComplete: bool
    var currentTask: Option<Id>

    ghost predicate Valid()
      reads this
    {
      plan.Some? ==> KeyedById(plan.value)
    }

    ghost function Value(): Context
      reads this
    {
      Context(plan, attempts, history, isComplete, currentTask)
    }
  }

  type Answer = Result<NodeOutput, string>

  const NO_PLAN := "No 'epic_plan' found in context"
  const HAS_CYCLES := "EpicPlan contains dependency cycles"

  /** What one execution may do, as a relation: the plan's map order is arbitrary. */
  ghost predicate Executes(node: Node, c: Context, c': Context, r: Answer) {
    match c.plan
    case None => r == Err(NO_PLAN) && c' == c
    case Some(ts) =>
      if Cyclic(Deps(ts)) then
        r == Err(HAS_CYCLES) && c' == c
      else if WithStatus(ts, Failed) != {} then
        exists order :: Enumerates(order, WithStatus(ts, Failed)) && Heals(node, c, order, c', r)
      else if ReadySet(ts) == {} then
        SettlesWithout(ts, c, c', r)
      else
        exists next :: Selects(ts, next, c, c', r)
  }

  /** The failure loop starts from the context's plan and counters. */
  function StartOf(c: Context): Healing
    requires c.plan.Some?
  {
    Healing(c.plan.value, c.attempts, c.history, false, true)
  }

  ghost predicate Heals(node: Node, c: Context, order: seq<Id>, c': Context, r: Answer)
    requires c.plan.Some?
  {
    var h := HealAll(node, StartOf(c), TasksOf(c.plan.value, order));
    if h.any && h.all then
      && r == Ok(Transition("replan_injected"))
      && c' == c.(plan := Some(h.plan), attempts := h.attempts, history := h.history)
    else
      && r == Ok(Transition("replan_needed"))
      && c' == c.(attempts := h.attempts, history := h.history)
  }

  /** Nothing failed and nothing is ready. */
  ghost predicate SettlesWithout(ts: Tasks, c: Context, c': Context, r: Answer) {
    if WithStatus(ts, Completed) == ts.Keys then
      r == Ok(Transition("complete")) && c' == c.(isComplete := true)
    else if WithStatus(ts, Blocked) != {} then
      r == Ok(Transition("blocked")) && c' == c
    else
      r == Ok(Continue(None)) && c' == c
  }

  /** A ready task that the most tasks wait for is started. */
  ghost predicate Selects(ts: Tasks, next: Id, c: Context, c': Context, r: Answer) {
    && Ready(ts, next)
    && (forall id :: Ready(ts, id) ==> |Dependents(Deps(ts), id)| <= |Dependents(Deps(ts), next)|)
    && r == Ok(Transition("execute_task"))
    && c' == c.(plan := Some(StatusUpdated(ts, next, Running)), currentTask := Some(next))
  }

  // ---- The node ----

  method FailedTasks(ts: Tasks) returns (failed: seq<Task>, ghost order: seq<Id>)
    requires KeyedById(ts)
    ensures Enumerates(order, WithStatus(ts, Failed)) && failed == TasksOf(ts, order)
    ensures forall t :: t in failed <==> HasStatus(ts, t.id, Failed) && ts[t.id] == t
  {
    failed, order := [], [];
    var todo := ts.Keys;
    while todo != {}
      invariant todo <= ts.Keys
      invariant Enumerates(order, WithStatus(ts, Failed) - todo)
      invariant failed == TasksOf(ts, order)
      invariant forall t :: t in failed <==> t.id !in todo && HasStatus(ts, t.id, Failed) && ts[t.id] == t
    {
      var key :| key in todo;
      ghost var seen := WithStatus(ts, Failed) - todo;
      todo := todo - {key};
      if ts[key].status == Failed {
        EnumeratesSnoc(order, seen, key);
        assert WithStatus(ts, Failed) - todo == seen + {key};
        failed := failed + [ts[key]];
        order := order + [key];
      } else {
        assert WithStatus(ts, Failed) - todo == seen;
      }
    }
    assert WithStatus(ts, Failed) - {} == WithStatus(ts, Failed);
  }

  /** The loop over the failed tasks, on a copy of the plan. */
  method HandleFailures(node: Node, plan: EpicPlan, attempts0: map<Id, nat>, history0: seq<RecoveryRecord>,
          failed: seq<Task>)
    returns (attempts: map<Id, nat>, history: seq<RecoveryRecord>, replannedAny: bool, replannedAll: bool)
    requires plan.Valid()
    modifies plan
    ensures plan.Valid()
    ensures Healing(plan.tasks, attempts, history, replannedAny, replannedAll)
      == HealAll(node, Healing(old(plan.tasks), attempts0, history0, false, true), failed)
  {
    attempts, history, replannedAny, replannedAll := attempts0, history0, false, true;
    ghost var start := Healing(plan.tasks, attempts0, history0, false, true);
    for i := 0 to |failed|
      invariant plan.Valid()
      invariant Healing(plan.tasks, attempts, history, replannedAny, replannedAll) == HealAll(node, start, failed[..i])
    {
      var task := failed[i];
      assert failed[..i + 1][..i] == failed[..i];
      if node.selfHealing {
        var kind := node.classify(ErrorOf(task));
        var current := AttemptsOf(attempts, task.id);
        if current < MaxAttempts(node, kind) {
          var attempt := current + 1;
          attempts := attempts[task.id := attempt];
          history := history + [RecoveryRecord(task.id, attempt, kind, ErrorOf(task), InjectRecovery)];
          var _ := plan.InjectRecoveryTask(task.id, RecoveryTask(node, task, attempt));
          replannedAny := true;
        } else {
          history := history + [RecoveryRecord(task.id, current, kind, ErrorOf(task), HaltedAtMaxAttempts)];
          replannedAll := false;
        }
      } else if task.id in node.registered {
        var _ := plan.InjectRecoveryTask(task.id, node.registered[task.id]);
        replannedAny := true;
      } else {
        replannedAll := false;
      }
    }
    assert failed[..|failed|] == failed;
  }

  method Execute(node: Node, context: SharedContext) returns (r: Answer)
    requires context.Valid()
    modifies context
    ensures Executes(node, old(context.Value()), context.Value(), r)
  {
    if context.plan.None? {
      return Err(NO_PLAN);
    }
    var ts := context.plan.value;
    var cyclic := HasCycles(Deps(ts));
    if cyclic {
      return Err(HAS_CYCLES);
    }
    var failed, order := FailedTasks(ts);
    if failed != [] {
      assert order[0] in WithStatus(ts, Failed);
      var plan := new EpicPlan.FromContext(ts);
      var attempts, history, replannedAny, replannedAll :=
        HandleFailures(node, plan, context.attempts, context.history, failed);
      context.attempts := attempts;
      context.history := history;
      if replannedAny && replannedAll {
        context.plan := Some(plan.tasks);
        r := Ok(Transition("replan_injected"));
      } else {
        r := Ok(Transition("replan_needed"));
      }
      assert Heals(node, old(context.Value()), order, context.Value(), r);
      return;
    }
    assert WithStatus(ts, Failed) == {};
    var ready := NextTasks(ts);
    if ready == [] {
      r := Settle(context, ts);
      return;
    }
    assert ready[0] in ReadySet(ts);
    r := StartNext(context, ts, ready);
  }

  method Settle(context: SharedContext, ts: Tasks) returns (r: Answer)
    modifies context
    ensures SettlesWithout(ts, old(context.Value()), context.Value(), r)
  {
    if forall id :: id in ts ==> ts[id].status == Completed {
      assert WithStatus(ts, Completed) == ts.Keys;
      context.isComplete := true;
      return Ok(Transition("complete"));
    }
    if exists id :: id in ts && ts[id].status == Blocked {
      assert WithStatus(ts, Blocked) != {} by {
        var id :| id in ts && ts[id].status == Blocked;
        assert id in WithStatus(ts, Blocked);
      }
      return Ok(Transition("blocked"));
    }
    return Ok(Continue(None));
  }

  method StartNext(context: SharedContext, ts: Tasks, ready: seq<Id>) returns (r: Answer)
    requires context.plan == Some(ts) && KeyedById(ts)
    requires Enumerates(ready, ReadySet(ts)) && ready != []
    modifies context
    ensures exists next :: Selects(ts, next, old(context.Value()), context.Value(), r)
  {
    var prioritized := PrioritizeTasks(ts, ready);
    var next := prioritized[0];
    FirstIsBusiest(ts, ready, prioritized);
    var plan := new EpicPlan.FromContext(ts);
    var _ := plan.UpdateTaskStatus(next, Running);
    context.plan := Some(plan.tasks);
    context.currentTask := Some(next);
    r := Ok(Transition("execute_task"));
    assert Selects(ts, next, old(context.Value()), context.Value(), r);
  }

  lemma FirstIsBusiest(ts: Tasks, ready: seq<Id>, sorted: seq<Id>)
    requires Enumerates(ready, ReadySet(ts)) && ready != []
    requires SortedBy(sorted, ByDependents(Deps(ts))) && multiset(sorted) == multiset(ready) && |sorted| == |ready|
    ensures Ready(ts, sorted[0])
    ensures forall id :: Ready(ts, id) ==> |Dependents(Deps(ts), id)| <= |Dependents(Deps(ts), sorted[0])|
  {
    assert sorted[0] in multiset(sorted);
    assert sorted[0] in multiset(ready);
    assert sorted[0] in ready;
    assert sorted[0] in ReadySet(ts);
    forall id | Ready(ts, id) ensures |Dependents(Deps(ts), id)| <= |Dependents(Deps(ts), sorted[0])| {
      assert id in ReadySet(ts) && id in ready;
      assert id in multiset(ready);
      assert id in multiset(sorted);
      var i :| 0 <= i < |sorted| && sorted[i] == id;
      assert i > 0 ==> ByDependents(Deps(ts))(sorted[0], sorted[i]);
    }
  }

  // ---- The answers, by the plan alone ----

  /** Every dependency is in the plan and completed. */
  ghost predicate Startable(ts: Tasks, id: Id) {
    && id in ts && ts[id].status == Pending
    && forall d :: d in ts[id].dependencies ==> d in ts && ts[d].status == Completed
  }

  /** Without a plan, or with a cyclic one, the node answers with that error and changes nothing. */
  lemma ErrorsAnswered(node: Node, c: Context, c': Context, r: Answer)
    requires Executes(node, c, c', r)
    ensures c.plan.None? ==> r == Err("No 'epic_plan' found in context") && c' == c
    ensures c.plan.Some? && Cyclic(Deps(c.plan.value)) ==>
      r == Err("EpicPlan contains dependency cycles") && c' == c
    ensures c.plan.Some? && !Cyclic(Deps(c.plan.value)) ==> r.Ok?
  {
    if c.plan.Some? && !Cyclic(Deps(c.plan.value)) {
      if WithStatus(c.plan.value, Failed) != {} {
        var order :| Enumerates(order, WithStatus(c.plan.value, Failed)) && Heals(node, c, order, c', r);
      } else if ReadySet(c.plan.value) != {} {
        var next :| Selects(c.plan.value, next, c, c', r);
      }
    }
  }

  /**
   * A startable task for which the most tasks wait is running now; blocks are
   * taken back, and nothing else has changed.
   */
  ghost predicate OneStarted(ts: Tasks, next: Id, us: Tasks) {
    && Startable(ts, next)
    && (forall id :: Startable(ts, id) ==> |Dependents(Deps(ts), id)| <= |Dependents(Deps(ts), next)|)
    && us.Keys == ts.Keys && us[next] == ts[next].(status := Running)
    && forall id :: id in ts && id != next ==>
      us[id] == if ts[id].status == Blocked then ts[id].(status := Pending) else ts[id]
  }

  /**
   * With nothing failed: a startable task is started, else the answer is
   * "complete" when all tasks are, "blocked" when one is, and a bare continue.
   */
  lemma PlanDecides(node: Node, c: Context, c': Context, r: Answer)
    requires Executes(node, c, c', r) && c.plan.Some? && !Cyclic(Deps(c.plan.value))
    requires forall id :: id in c.plan.value ==> c.plan.value[id].status != Failed
    ensures var ts := c.plan.value;
      if exists id :: Startable(ts, id) then
        && r == Ok(Transition("execute_task")) && c'.currentTask.Some? && c'.plan.Some?
        && c' == c.(plan := c'.plan, currentTask := c'.currentTask)
        && OneStarted(ts, c'.currentTask.value, c'.plan.value)
      else if forall id :: id in ts ==> ts[id].status == Completed then
        r == Ok(Transition("complete")) && c' == c.(isComplete := true)
      else if exists id :: id in ts && ts[id].status == Blocked then
        r == Ok(Transition("blocked")) && c' == c
      else
        r == Ok(Continue(None)) && c' == c
  {
    var ts := c.plan.value;
    assert WithStatus(ts, Failed) == {};
    assert forall id :: Startable(ts, id) <==> id in ReadySet(ts);
    if ReadySet(ts) != {} {
      var next :| Selects(ts, next, c, c', r);
      StartedAlone(ts, next);
    } else {
      SettlesAs(ts, c, c', r);
    }
  }

  lemma SettlesAs(ts: Tasks, c: Context, c': Context, r: Answer)
    requires SettlesWithout(ts, c, c', r)
    ensures
      if forall id :: id in ts ==> ts[id].status == Completed then
        r == Ok(Transition("complete")) && c' == c.(isComplete := true)
      else if exists id :: id in ts && ts[id].status == Blocked then
        r == Ok(Transition("blocked")) && c' == c
      else
        r == Ok(Continue(None)) && c' == c
  {
    assert forall id :: id in ts && ts[id].status == Blocked <==> id in WithStatus(ts, Blocked);
    assert forall id :: id in ts && ts[id].status == Completed <==> id in WithStatus(ts, Completed);
    assert WithStatus(ts, Completed) == ts.Keys <==> forall id :: id in ts ==> id in WithStatus(ts, Completed);
  }

  /** Starting a task where nothing has failed leaves no block. */
  lemma StartedAlone(ts: Tasks, next: Id)
    requires forall id :: id in ts ==> ts[id].status != Failed
    requires Startable(ts, next)
    requires forall id :: Ready(ts, id) ==> |Dependents(Deps(ts), id)| <= |Dependents(Deps(ts), next)|
    ensures OneStarted(ts, next, StatusUpdated(ts, next, Running))
  {
    var us := ts[next := ts[next].(status := Running)];
    assert forall id :: !Doomed(us, id);
    assert forall id :: Startable(ts, id) ==> Ready(ts, id);
  }
}
