/** When the scheduler node replans, and what it counts and records, whatever the order of the failures. */
module Replanning {
  import opened Wrappers
  import opened AgentStates
  import opened DepGraph
  import opened Plan
  import opened Scheduler
  import opened SchedulerNode

  /** There is a recovery for the task: attempts are left, or a registered one without self-healing. */
  predicate CanHeal(node: Node, attempts: map<Id, nat>, task: Task) {
    if node.selfHealing then AttemptsOf(attempts, task.id) < MaxAttempts(node, node.classify(ErrorOf(task)))
    else task.id in node.registered
  }

  /** The record that self-healing leaves for a failed task. */
  function RecordFor(node: Node, attempts: map<Id, nat>, task: Task): RecoveryRecord {
    var current := AttemptsOf(attempts, task.id);
    var kind := node.classify(ErrorOf(task));
    if CanHeal(node, attempts, task) then RecoveryRecord(task.id, current + 1, kind, ErrorOf(task), InjectRecovery)
    else RecoveryRecord(task.id, current, kind, ErrorOf(task), HaltedAtMaxAttempts)
  }

  function RecordsFor(node: Node, attempts: map<Id, nat>, failed: seq<Task>): seq<RecoveryRecord> {
    seq(|failed|, i requires 0 <= i < |failed| => RecordFor(node, attempts, failed[i]))
  }

  ghost predicate DistinctTasks(failed: seq<Task>) {
    forall i, j :: 0 <= i < j < |failed| ==> failed[i].id != failed[j].id
  }

  /** One of the tasks has this id and is given a counted attempt. */
  ghost predicate Counted(node: Node, attempts: map<Id, nat>, failed: seq<Task>, x: Id) {
    exists i :: 0 <= i < |failed| && failed[i].id == x && node.selfHealing && CanHeal(node, attempts, failed[i])
  }

  ghost predicate AllHeal(node: Node, attempts: map<Id, nat>, failed: seq<Task>) {
    forall i :: 0 <= i < |failed| ==> CanHeal(node, attempts, failed[i])
  }

  /** Each failed task is counted on its own: once if it can be healed, and not at all otherwise. */
  lemma {:induction false} AttemptsAfter(node: Node, h: Healing, failed: seq<Task>, x: Id)
    requires DistinctTasks(failed)
    ensures AttemptsOf(HealAll(node, h, failed).attempts, x)
         == AttemptsOf(h.attempts, x) + if Counted(node, h.attempts, failed, x) then 1 else 0
    decreases |failed|
  {
    if failed != [] {
      var n := |failed| - 1;
      var t, before := failed[n], failed[..n];
      AttemptsAfter(node, h, before, x);
      AttemptsAfter(node, h, before, t.id);
      assert !Counted(node, h.attempts, before, t.id);
      CountedSnoc(node, h.attempts, before, t, x);
      assert failed == before + [t];
    }
  }

  lemma CountedSnoc(node: Node, attempts: map<Id, nat>, before: seq<Task>, t: Task, x: Id)
    ensures Counted(node, attempts, before + [t], x)
       <==> Counted(node, attempts, before, x) || (t.id == x && node.selfHealing && CanHeal(node, attempts, t))
  {
    var failed := before + [t];
    if Counted(node, attempts, before, x) {
      var i :| 0 <= i < |before| && before[i].id == x && node.selfHealing && CanHeal(node, attempts, before[i]);
      assert failed[i] == before[i];
    }
    if t.id == x && node.selfHealing && CanHeal(node, attempts, t) {
      assert failed[|before|] == t;
    }
  }

  /** Earlier failures do not use up the attempts of later ones. */
  lemma StillHeals(node: Node, h: Healing, before: seq<Task>, t: Task)
    requires DistinctTasks(before + [t])
    ensures AttemptsOf(HealAll(node, h, before).attempts, t.id) == AttemptsOf(h.attempts, t.id)
  {
    var failed := before + [t];
    forall i | 0 <= i < |before| ensures before[i].id != t.id {
      assert failed[i].id != failed[|before|].id;
    }
    forall i, j | 0 <= i < j < |before| ensures before[i].id != before[j].id {
      assert failed[i].id != failed[j].id;
    }
    AttemptsAfter(node, h, before, t.id);
  }

  /** Handling one task, judged by attempts that are still those from before the loop. */
  lemma HealOneByAttempts(node: Node, attempts: map<Id, nat>, g: Healing, t: Task)
    requires AttemptsOf(g.attempts, t.id) == AttemptsOf(attempts, t.id)
    ensures HealOne(node, g, t).all <==> g.all && CanHeal(node, attempts, t)
    ensures HealOne(node, g, t).any <==> g.any || CanHeal(node, attempts, t)
    ensures node.selfHealing ==> HealOne(node, g, t).history == g.history + [RecordFor(node, attempts, t)]
  {
  }

  /** The loop's flags, from the attempts before the loop alone. */
  lemma {:induction false} FlagsAfter(node: Node, h: Healing, failed: seq<Task>)
    requires DistinctTasks(failed)
    ensures HealAll(node, h, failed).all <==> h.all && AllHeal(node, h.attempts, failed)
    ensures h.all && AllHeal(node, h.attempts, failed) && failed != [] ==> HealAll(node, h, failed).any
    decreases |failed|
  {
    if failed != [] {
      var n := |failed| - 1;
      assert failed == failed[..n] + [failed[n]];
      FlagsAfter(node, h, failed[..n]);
      StillHeals(node, h, failed[..n], failed[n]);
      HealOneByAttempts(node, h.attempts, HealAll(node, h, failed[..n]), failed[n]);
    }
  }

  lemma RecordsSnoc(node: Node, attempts: map<Id, nat>, failed: seq<Task>, n: nat)
    requires |failed| == n + 1
    ensures RecordsFor(node, attempts, failed) ==
      RecordsFor(node, attempts, failed[..n]) + [RecordFor(node, attempts, failed[n])]
  {
  }

  lemma HealAllStep(node: Node, h: Healing, failed: seq<Task>, n: nat)
    requires |failed| == n + 1
    ensures HealAll(node, h, failed) == HealOne(node, HealAll(node, h, failed[..n]), failed[n])
  {
  }

  /** The loop's history, from the attempts before the loop alone. */
  lemma {:induction false} HistoryAfter(node: Node, h: Healing, failed: seq<Task>)
    requires DistinctTasks(failed) && node.selfHealing
    ensures HealAll(node, h, failed).history == h.history + RecordsFor(node, h.attempts, failed)
    decreases |failed|
  {
    if failed != [] {
      var n := |failed| - 1;
      LastHistory(node, h, failed, n);
      HistoryAfter(node, h, failed[..n]);
      RecordsSnoc(node, h.attempts, failed, n);
    }
  }

  lemma LastHistory(node: Node, h: Healing, failed: seq<Task>, n: nat)
    requires DistinctTasks(failed) && node.selfHealing && |failed| == n + 1
    ensures HealAll(node, h, failed).history ==
      HealAll(node, h, failed[..n]).history + [RecordFor(node, h.attempts, failed[n])]
  {
    assert failed == failed[..n] + [failed[n]];
    StillHeals(node, h, failed[..n], failed[n]);
    HealAllStep(node, h, failed, n);
    HealOneByAttempts(node, h.attempts, HealAll(node, h, failed[..n]), failed[n]);
  }

  // ---- The node's answer ----

  lemma FailedDistinct(ts: Tasks, order: seq<Id>)
    requires KeyedById(ts) && Enumerates(order, WithStatus(ts, Failed))
    ensures DistinctTasks(TasksOf(ts, order))
    ensures forall i :: 0 <= i < |order| ==> HasStatus(ts, order[i], Failed) && TasksOf(ts, order)[i] == ts[order[i]]
  {
    forall i | 0 <= i < |order| ensures HasStatus(ts, order[i], Failed) && TasksOf(ts, order)[i] == ts[order[i]] {
      assert order[i] in order;
    }
  }

  /** Every failed task can be healed. */
  ghost predicate Healable(node: Node, c: Context)
    requires c.plan.Some?
  {
    forall f :: HasStatus(c.plan.value, f, Failed) ==> CanHeal(node, c.attempts, c.plan.value[f])
  }

  lemma HealableIff(node: Node, c: Context, order: seq<Id>)
    requires c.plan.Some? && KeyedById(c.plan.value) && Enumerates(order, WithStatus(c.plan.value, Failed))
    ensures AllHeal(node, c.attempts, TasksOf(c.plan.value, order)) <==> Healable(node, c)
  {
    var ts := c.plan.value;
    FailedDistinct(ts, order);
    if AllHeal(node, c.attempts, TasksOf(ts, order)) {
      forall f | HasStatus(ts, f, Failed) ensures CanHeal(node, c.attempts, ts[f]) {
        assert f in WithStatus(ts, Failed);
        assert f in order;
        var i :| 0 <= i < |order| && order[i] == f;
        assert TasksOf(ts, order)[i] == ts[f];
      }
    }
  }

  /** The failures in the plan have made the node answer. */
  ghost predicate Replans(node: Node, c: Context, c': Context, r: Answer) {
    && c.plan.Some? && KeyedById(c.plan.value) && !Cyclic(Deps(c.plan.value)) && WithStatus(c.plan.value, Failed) != {}
    && Executes(node, c, c', r)
  }

  lemma OrderUsed(node: Node, c: Context, c': Context, r: Answer) returns (order: seq<Id>)
    requires Replans(node, c, c', r)
    ensures Enumerates(order, WithStatus(c.plan.value, Failed)) && order != [] && Heals(node, c, order, c', r)
  {
    order :| Enumerates(order, WithStatus(c.plan.value, Failed)) && Heals(node, c, order, c', r);
    var f :| f in WithStatus(c.plan.value, Failed);
    assert f in order;
  }

  /**
   * The node replans exactly when every failed task can be healed, judged by the
   * attempts before the execution; otherwise the plan stays as it is.
   */
  lemma ReplanIff(node: Node, c: Context, c': Context, r: Answer)
    requires Replans(node, c, c', r)
    ensures r == Ok(Transition("replan_injected")) <==> Healable(node, c)
    ensures !Healable(node, c) ==> r == Ok(Transition("replan_needed")) && c'.plan == c.plan
  {
    var order := OrderUsed(node, c, c', r);
    FailedDistinct(c.plan.value, order);
    HealableIff(node, c, order);
    FlagsAfter(node, StartOf(c), TasksOf(c.plan.value, order));
    assert |"replan_injected"| != |"replan_needed"|;
  }

  /** Each failed task that can be healed uses one attempt, whether or not the node replans; no other does. */
  lemma AttemptsUsed(node: Node, c: Context, c': Context, r: Answer, x: Id)
    requires Replans(node, c, c', r)
    ensures AttemptsOf(c'.attempts, x) == AttemptsOf(c.attempts, x) +
      if node.selfHealing && HasStatus(c.plan.value, x, Failed) && CanHeal(node, c.attempts, c.plan.value[x])
      then 1 else 0
  {
    var ts := c.plan.value;
    var order := OrderUsed(node, c, c', r);
    FailedDistinct(ts, order);
    var failed := TasksOf(ts, order);
    AttemptsAfter(node, StartOf(c), failed, x);
    if node.selfHealing && HasStatus(ts, x, Failed) && CanHeal(node, c.attempts, ts[x]) {
      assert x in WithStatus(ts, Failed);
      var i :| 0 <= i < |order| && order[i] == x;
      assert failed[i].id == x && Counted(node, c.attempts, failed, x);
    }
  }

  /** Self-healing adds one record per failed task, saying the attempt and the decision. */
  lemma HistoryGrows(node: Node, c: Context, c': Context, r: Answer) returns (order: seq<Id>)
    requires Replans(node, c, c', r) && node.selfHealing
    ensures Enumerates(order, WithStatus(c.plan.value, Failed))
    ensures c'.history == c.history + RecordsFor(node, c.attempts, TasksOf(c.plan.value, order))
  {
    order := OrderUsed(node, c, c', r);
    FailedDistinct(c.plan.value, order);
    HistoryAfter(node, StartOf(c), TasksOf(c.plan.value, order));
  }

  // ---- What decides, by the node's own fields ----

  /** The attempts that the context holds for a task. */
  function Tried(c: Context, f: Id): int {
    if f in c.attempts then c.attempts[f] else 0
  }

  /** The attempts that a class of failure is allowed when no policy is configured for it. */
  const DEFAULT_LIMITS: map<FailureClass, nat> :=
    map[Compile := 3, Test := 2, Runtime := 2, Integration := 4, Unknown := 3]

  /** How many attempts each class of failure is allowed: the defaults, unless there is a policy for it. */
  lemma Limits(node: Node, kind: FailureClass)
    ensures var limits := DEFAULT_LIMITS + node.policies;
      kind in limits && MaxAttempts(node, kind) == limits[kind]
  {
    match kind case Compile => case Test => case Runtime => case Integration => case Unknown =>
  }

  /** The attempts left for a failed task are those that the class of its stored error is allowed. */
  lemma LimitOf(node: Node, c: Context, f: Id)
    requires c.plan.Some? && KeyedById(c.plan.value) && f in c.plan.value && node.selfHealing
    ensures var limits := DEFAULT_LIMITS + node.policies;
      var error := c.plan.value[f].error;
      var kind := node.classify(if error.Some? then error.value else "Unknown error");
      kind in limits && (CanHeal(node, c.attempts, c.plan.value[f]) <==> Tried(c, f) < limits[kind])
  {
    Limits(node, node.classify(ErrorOf(c.plan.value[f])));
  }

  /**
   * With self-healing the node replans exactly when every failed task has fewer
   * attempts counted than its failure class is allowed; the class is that of the
   * stored error, and a configured policy replaces the default of its class.
   */
  lemma LimitsDecide(node: Node, c: Context, c': Context, r: Answer)
    requires Replans(node, c, c', r) && node.selfHealing
    ensures var limits := DEFAULT_LIMITS + node.policies;
      r == Ok(Transition("replan_injected")) <==>
      forall f :: HasStatus(c.plan.value, f, Failed) ==>
        var error := c.plan.value[f].error;
        var kind := node.classify(if error.Some? then error.value else "Unknown error");
        kind in limits && Tried(c, f) < limits[kind]
  {
    ReplanIff(node, c, c', r);
    forall f | HasStatus(c.plan.value, f, Failed)
      ensures var limits := DEFAULT_LIMITS + node.policies;
        var error := c.plan.value[f].error;
        var kind := node.classify(if error.Some? then error.value else "Unknown error");
        kind in limits && (CanHeal(node, c.attempts, c.plan.value[f]) <==> Tried(c, f) < limits[kind])
    {
      LimitOf(node, c, f);
    }
  }

  /** With one limit configured for every class, that limit alone decides. */
  lemma PolicyDecides(node: Node, c: Context, c': Context, r: Answer, n: nat)
    requires Replans(node, c, c', r) && node.selfHealing
    requires forall kind: FailureClass :: kind in node.policies && node.policies[kind] == n
    ensures r == Ok(Transition("replan_injected")) <==>
      forall f :: HasStatus(c.plan.value, f, Failed) ==> (if f in c.attempts then c.attempts[f] else 0) < n
  {
    LimitsDecide(node, c, c', r);
  }

  /** Without self-healing the node replans exactly when every failed task has a registered recovery. */
  lemma RegistryDecides(node: Node, c: Context, c': Context, r: Answer)
    requires Replans(node, c, c', r) && !node.selfHealing
    ensures r == Ok(Transition("replan_injected")) <==>
      forall f :: HasStatus(c.plan.value, f, Failed) ==> f in node.registered
    ensures c'.history == c.history && forall x :: Tried(c', x) == Tried(c, x)
  {
    ReplanIff(node, c, c', r);
    var order := OrderUsed(node, c, c', r);
    NothingCounted(node, StartOf(c), TasksOf(c.plan.value, order));
  }

  lemma {:induction false} NothingCounted(node: Node, h: Healing, failed: seq<Task>)
    requires !node.selfHealing
    ensures HealAll(node, h, failed).attempts == h.attempts && HealAll(node, h, failed).history == h.history
    decreases |failed|
  {
    if failed != [] {
      NothingCounted(node, h, failed[..|failed| - 1]);
    }
  }

  /**
   * The record of each failed task tells its id, its stored error and that
   * error's class, the attempt that is now counted for it, and whether the class
   * was allowed one more.
   */
  lemma RecordsTell(node: Node, c: Context, c': Context, r: Answer) returns (order: seq<Id>)
    requires Replans(node, c, c', r) && node.selfHealing
    ensures Enumerates(order, WithStatus(c.plan.value, Failed)) && |c'.history| == |c.history| + |order|
    ensures c.history <= c'.history
    ensures forall i :: 0 <= i < |order| ==>
      order[i] in c.plan.value
      && RecordTells(node, c, c', c'.history[|c.history| + i], order[i], c.plan.value[order[i]].error)
  {
    order := HistoryGrows(node, c, c', r);
    FailedDistinct(c.plan.value, order);
    forall i | 0 <= i < |order|
      ensures RecordTells(node, c, c', c'.history[|c.history| + i], order[i], c.plan.value[order[i]].error)
    {
      AttemptsUsed(node, c, c', r, order[i]);
      LimitOf(node, c, order[i]);
    }
  }

  ghost predicate RecordTells(node: Node, c: Context, c': Context, record: RecoveryRecord, f: Id,
          error: Option<string>) {
    && record.taskId == f && record.error == (if error.Some? then error.value else "Unknown error")
    && record.failureClass == node.classify(record.error) && record.attempt == Tried(c', f)
    && (record.decision == InjectRecovery <==> Tried(c', f) == Tried(c, f) + 1)
    && (record.decision == HaltedAtMaxAttempts <==> Tried(c', f) == Tried(c, f))
  }
}
