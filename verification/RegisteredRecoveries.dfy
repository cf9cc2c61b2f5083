/** A caller's condition under which every registered recovery is used at most once. */
module RegisteredRecoveries {
  import opened Wrappers
  import opened AgentStates
  import opened DepGraph
  import opened Plan
  import opened Scheduler
  import opened SchedulerNode
  import opened PlanRun

  /** Different tasks have different registered recoveries, none of them in the initial plan. */
  ghost predicate OwnRecoveries(node: Node, ts: Tasks) {
    && (forall f :: f in node.registered ==> node.registered[f].id !in ts)
    && (forall f, g ::
        f in node.registered && g in node.registered && f != g ==> node.registered[f].id != node.registered[g].id)
  }

  /** The task has failed in one of these events. */
  ghost predicate HasFailed(events: seq<Event>, f: Id) {
    exists j :: 0 <= j < |events| && events[j].Fail? && events[j].id == f
  }

  /** No task with a registered recovery fails twice. */
  ghost predicate FailsOnce(node: Node, events: seq<Event>) {
    forall i ::
      0 <= i < |events| && events[i].Fail? && events[i].id in node.registered ==> !HasFailed(events[..i], events[i].id)
  }

  /** Failed tasks have failed; a registered recovery is there only after its task has failed and been replanned. */
  ghost predicate Provenance(node: Node, ts: Tasks, events: seq<Event>) {
    && (forall f :: HasStatus(ts, f, Failed) ==> HasFailed(events, f))
    && (forall f ::
        f in node.registered && node.registered[f].id in ts ==> HasFailed(events, f) && !HasStatus(ts, f, Failed))
  }

  lemma ProvenanceUnused(node: Node, initial: Tasks, ts: Tasks, events: seq<Event>)
    requires OwnRecoveries(node, initial) && Provenance(node, ts, events)
    ensures Unused(node, ts)
  {
  }

  lemma FailedStays(events: seq<Event>, e: Event, f: Id)
    ensures HasFailed(events + [e], f) <==> HasFailed(events, f) || (e.Fail? && e.id == f)
  {
    var all := events + [e];
    if HasFailed(events, f) {
      var j :| 0 <= j < |events| && events[j].Fail? && events[j].id == f;
      assert all[j] == events[j];
    }
    if e.Fail? && e.id == f {
      assert all[|events|] == e;
    }
  }

  /** The plan's ids stay, and only a failing task joins the failed ones. */
  ghost predicate SameIds(ts: Tasks, e: Event, us: Tasks) {
    && us.Keys == ts.Keys
    && WithStatus(us, Failed) <= WithStatus(ts, Failed) + if e.Fail? then {e.id} else {}
  }

  /** The failed tasks have been given their recoveries. */
  ghost predicate NewIds(node: Node, c: Context, us: Tasks)
    requires c.plan.Some?
  {
    && us.Keys == c.plan.value.Keys + Chosen(FreshIds(node, StartOf(c)), WithStatus(c.plan.value, Failed))
    && WithStatus(us, Failed) == {}
  }

  lemma StepIds(node: Node, c: Context, e: Event, c': Context)
    requires Registry(node) && Inv(node, c) && Unused(node, c.plan.value) && Step(node, c, e, c')
    ensures c'.plan.Some? && (SameIds(c.plan.value, e, c'.plan.value) || NewIds(node, c, c'.plan.value))
  {
    var ts := c.plan.value;
    if !e.Schedule? {
      EndedPlan(ts, e, c'.plan.value);
    } else if WithStatus(ts, Failed) != {} {
      if c'.plan != c.plan {
        ReplanIsExact(node, c, c');
      }
    } else if ReadySet(ts) != {} {
      var next :| Selects(ts, next, c, c', e.answer);
      StartSets(ts, next);
    }
  }

  lemma SameIdsKeep(node: Node, ts: Tasks, events: seq<Event>, e: Event, us: Tasks)
    requires Provenance(node, ts, events) && SameIds(ts, e, us)
    requires e.Fail? && e.id in node.registered ==> !HasFailed(events, e.id)
    ensures Provenance(node, us, events + [e])
  {
    forall f | HasStatus(us, f, Failed) ensures HasFailed(events + [e], f) {
      assert f in WithStatus(us, Failed);
      FailedStays(events, e, f);
    }
    forall f | f in node.registered && node.registered[f].id in us
      ensures HasFailed(events + [e], f) && !HasStatus(us, f, Failed)
    {
      FailedStays(events, e, f);
      assert f !in WithStatus(ts, Failed) && f !in WithStatus(us, Failed);
    }
  }

  lemma NewIdsKeep(node: Node, initial: Tasks, c: Context, events: seq<Event>, e: Event, us: Tasks)
    requires Registry(node) && OwnRecoveries(node, initial)
    requires c.plan.Some? && Provenance(node, c.plan.value, events) && NewIds(node, c, us)
    ensures Provenance(node, us, events + [e])
  {
    forall f | f in node.registered && node.registered[f].id in us
      ensures HasFailed(events + [e], f) && !HasStatus(us, f, Failed)
    {
      FailedStays(events, e, f);
      assert f !in WithStatus(us, Failed);
      if node.registered[f].id !in c.plan.value {
        var g :| g in WithStatus(c.plan.value, Failed) && FreshIds(node, StartOf(c))(g) == node.registered[f].id;
        assert NewRecovery(node.registered[f]);
        assert g == f;
      }
    }
    assert forall f :: HasStatus(us, f, Failed) ==> f in WithStatus(us, Failed);
  }

  lemma StepProvenance(node: Node, initial: Tasks, c: Context, events: seq<Event>, e: Event, c': Context)
    requires Registry(node) && OwnRecoveries(node, initial) && Inv(node, c) && Step(node, c, e, c')
    requires Provenance(node, c.plan.value, events)
    requires e.Fail? && e.id in node.registered ==> !HasFailed(events, e.id)
    ensures Inv(node, c') && Provenance(node, c'.plan.value, events + [e])
  {
    ProvenanceUnused(node, initial, c.plan.value, events);
    StepKeeps(node, c, e, c');
    StepIds(node, c, e, c');
    if SameIds(c.plan.value, e, c'.plan.value) {
      SameIdsKeep(node, c.plan.value, events, e, c'.plan.value);
    } else {
      NewIdsKeep(node, initial, c, events, e, c'.plan.value);
    }
  }

  lemma {:induction false} RunProvenance(node: Node, ts: Tasks, run: Run, i: nat)
    requires Registry(node) && Initial(ts) && IsRun(node, ts, run) && i < |run.contexts|
    requires OwnRecoveries(node, ts) && FailsOnce(node, run.events)
    ensures Inv(node, run.contexts[i]) && Provenance(node, run.contexts[i].plan.value, run.events[..i])
    decreases i
  {
    if i == 0 {
      InitialIsGood(ts);
    } else {
      RunProvenance(node, ts, run, i - 1);
      assert StepAt(node, run, i - 1);
      StepProvenance(node, ts, run.contexts[i - 1], run.events[..i - 1], run.events[i - 1], run.contexts[i]);
      PrefixSnoc(run.events, i - 1);
    }
  }

  /** If no task with a registered recovery fails twice, every registered recovery is used at most once. */
  lemma FailingOnceIsEnough(node: Node, ts: Tasks, run: Run)
    requires Registry(node) && Initial(ts) && IsRun(node, ts, run)
    requires OwnRecoveries(node, ts) && FailsOnce(node, run.events)
    ensures UsedOnce(node, run)
  {
    forall i | 0 <= i < |run.events| && i < |run.contexts| && Injects(run.events[i])
      ensures UnusedIn(node, run.contexts[i])
    {
      RunProvenance(node, ts, run, i);
      ProvenanceUnused(node, ts, run.contexts[i].plan.value, run.events[..i]);
    }
  }
}
