/**
 * Whole runs of a plan: the scheduler node is executed and running tasks
 * complete or fail, in any interleaving.  Recovery tasks are generated or
 * registered, and a registered one is never used a second time.
 */
module PlanRun {
  import opened Wrappers
  import opened AgentStates
  import opened DepGraph
  import opened Plan
  import opened Scheduler
  import opened SchedulerNode
  import opened Replanning
  import Text

  // ---- What every plan of a run satisfies ----

  predicate Started(s: Status) {
    s == Running || s == Completed || s == Failed
  }

  /** Tasks that have been started have all their dependencies completed. */
  ghost predicate Supported(ts: Tasks) {
    forall id, d :: id in ts && Started(ts[id].status) && d in ts[id].dependencies ==> HasStatus(ts, d, Completed)
  }

  ghost predicate Sound(ts: Tasks) {
    KeyedById(ts) && Closed(Deps(ts)) && !Cyclic(Deps(ts)) && Supported(ts)
  }

  /** Sound, and what is blocked is exactly what propagation would block. */
  ghost predicate Good(ts: Tasks) {
    Sound(ts) && Propagated(ts) == ts
  }

  /** Generated ids in the plan belong to attempts that have been counted. */
  ghost predicate CountedIds(ts: Tasks, attempts: map<Id, nat>) {
    forall x, k: nat :: Text.RecoveryId(x, k) in ts ==> k <= AttemptsOf(attempts, x)
  }

  function MaxOf(a: nat, b: nat): nat {
    if a < b then b else a
  }

  /** The largest number of attempts any failure class allows. */
  function AttemptLimit(node: Node): nat {
    MaxOf(MaxOf(MaxAttempts(node, Compile), MaxAttempts(node, Test)),
      MaxOf(MaxAttempts(node, Runtime), MaxOf(MaxAttempts(node, Integration), MaxAttempts(node, Unknown))))
  }

  ghost predicate Bounded(node: Node, attempts: map<Id, nat>) {
    forall x :: AttemptsOf(attempts, x) <= AttemptLimit(node)
  }

  ghost predicate Inv(node: Node, c: Context) {
    && c.plan.Some? && Good(c.plan.value)
    && CountedIds(c.plan.value, c.attempts) && Bounded(node, c.attempts)
  }

  /** A plan to start from: pending tasks, no cycle, nothing missing, no id that could be generated. */
  ghost predicate Initial(ts: Tasks) {
    && KeyedById(ts) && Closed(Deps(ts)) && !Cyclic(Deps(ts))
    && (forall id :: id in ts ==> ts[id].status == Pending)
    && (forall x, k: nat :: k > 0 ==> Text.RecoveryId(x, k) !in ts)
  }

  // ---- Propagation on supported plans ----

  /** A started task is never doomed. */
  lemma StartedNotDoomed(ts: Tasks, id: Id)
    requires Supported(ts) && id in ts && Started(ts[id].status)
    ensures !Doomed(ts, id)
  {
    DoomedUnfold(ts, id);
    if Doomed(ts, id) {
      var d :| d in ts[id].dependencies && (HasStatus(ts, d, Failed) || Doomed(ts, d));
      assert HasStatus(ts, d, Completed);
      DoomedUnfold(ts, d);
    }
  }

  /** The same tasks are running, completed and failed. */
  ghost predicate SameStarted(ts: Tasks, us: Tasks) {
    && WithStatus(us, Running) == WithStatus(ts, Running)
    && WithStatus(us, Completed) == WithStatus(ts, Completed)
    && WithStatus(us, Failed) == WithStatus(ts, Failed)
  }

  /** Propagation leaves started tasks alone and starts none. */
  lemma PropagationKeepsStarted(ts: Tasks)
    requires Supported(ts)
    ensures forall id :: id in ts && Started(ts[id].status) ==> Propagated(ts)[id] == ts[id]
    ensures Reset(Propagated(ts)) == Reset(ts)
    ensures SameStarted(ts, Propagated(ts))
  {
    var us := Propagated(ts);
    forall id | id in ts
      ensures Started(ts[id].status) ==> us[id] == ts[id]
      ensures !Started(ts[id].status) ==> !Started(us[id].status)
      ensures ResetTask(us[id]) == ResetTask(ts[id])
    {
      if Started(ts[id].status) {
        StartedNotDoomed(ts, id);
      }
    }
  }

  /** Propagating a sound plan gives a good one. */
  lemma PropagatedIsGood(ts: Tasks)
    requires Sound(ts)
    ensures Good(Propagated(ts))
  {
    var us := Propagated(ts);
    PropagatedShape(ts);
    PropagationIdempotent(ts);
    PropagationKeepsStarted(ts);
    forall id, d | id in us && Started(us[id].status) && d in us[id].dependencies
      ensures HasStatus(us, d, Completed)
    {
      assert id in WithStatus(us, us[id].status);
      assert Started(ts[id].status) && HasStatus(ts, d, Completed);
    }
  }

  lemma DoomNeedsFailure(ts: Tasks, id: Id)
    ensures Doomed(ts, id) ==> WithStatus(ts, Failed) != {}
  {
    if WithStatus(ts, Failed) == {} {
      LeadsToLeast(Deps(ts), CanBlock(ts), {}, {});
    }
  }

  lemma InitialIsGood(ts: Tasks)
    requires Initial(ts)
    ensures Good(ts) && CountedIds(ts, map[])
  {
    forall id | id in ts ensures Propagated(ts)[id] == ts[id] {
      DoomNeedsFailure(ts, id);
    }
  }

  /** In a good plan a task is blocked only if something has failed. */
  lemma NoFailureNoBlock(ts: Tasks)
    requires Good(ts) && WithStatus(ts, Failed) == {}
    ensures WithStatus(ts, Blocked) == {}
  {
    forall id | id in ts ensures ts[id].status != Blocked {
      assert ts[id] == Propagated(ts)[id];
      DoomNeedsFailure(ts, id);
    }
  }

  // ---- Starting, completing and failing a task ----

  ghost function Moved(xs: set<Id>, t: Id, here: bool): set<Id> {
    if here then xs + {t} else xs - {t}
  }

  /** The started tasks after the status of one task has been set. */
  lemma MovedSets(ts: Tasks, t: Id, s: Status, u: Tasks)
    requires t in ts && Started(s) && u == ts[t := ts[t].(status := s)]
    ensures WithStatus(u, Running) == Moved(WithStatus(ts, Running), t, s == Running)
    ensures WithStatus(u, Completed) == Moved(WithStatus(ts, Completed), t, s == Completed)
    ensures WithStatus(u, Failed) == Moved(WithStatus(ts, Failed), t, s == Failed)
  {
  }

  /** A task whose dependencies are completed moves on to Running, Completed or Failed. */
  lemma MoveOn(ts: Tasks, t: Id, s: Status)
    requires Sound(ts) && t in ts && Started(s)
    requires ts[t].status == Pending || ts[t].status == Running
    requires forall d :: d in ts[t].dependencies ==> HasStatus(ts, d, Completed)
    ensures var u := StatusUpdated(ts, t, s); Good(u) && u.Keys == ts.Keys
    ensures var u := StatusUpdated(ts, t, s);
      && WithStatus(u, Running) == Moved(WithStatus(ts, Running), t, s == Running)
      && WithStatus(u, Completed) == Moved(WithStatus(ts, Completed), t, s == Completed)
      && WithStatus(u, Failed) == Moved(WithStatus(ts, Failed), t, s == Failed)
  {
    var u := ts[t := ts[t].(status := s)];
    MoveOnSound(ts, t, s);
    MovedSets(ts, t, s, u);
    PropagatedIsGood(u);
    PropagationKeepsStarted(u);
  }

  lemma MoveOnSound(ts: Tasks, t: Id, s: Status)
    requires Sound(ts) && t in ts && Started(s)
    requires ts[t].status == Pending || ts[t].status == Running
    requires forall d :: d in ts[t].dependencies ==> HasStatus(ts, d, Completed)
    ensures Sound(ts[t := ts[t].(status := s)])
  {
    var u := ts[t := ts[t].(status := s)];
    assert Deps(u) == Deps(ts);
    forall id, d | id in u && Started(u[id].status) && d in u[id].dependencies ensures HasStatus(u, d, Completed) {
      assert HasStatus(ts, d, Completed);
    }
  }

  ghost function FailedPlan(ts: Tasks, t: Id, error: Option<string>): Tasks
    requires t in ts
  {
    var u := StatusUpdated(ts, t, Failed);
    u[t := u[t].(error := error)]
  }

  lemma ErrorKeepsSound(ts: Tasks, t: Id, error: Option<string>)
    requires Sound(ts) && t in ts
    ensures Sound(ts[t := ts[t].(error := error)])
  {
    var u := ts[t := ts[t].(error := error)];
    assert Deps(u) == Deps(ts);
    forall id, d | id in u && Started(u[id].status) && d in u[id].dependencies ensures HasStatus(u, d, Completed) {
      assert HasStatus(ts, d, Completed);
    }
  }

  lemma ErrorKeepsPropagated(ts: Tasks, t: Id, error: Option<string>)
    requires Propagated(ts) == ts && t in ts
    ensures var u := ts[t := ts[t].(error := error)]; Propagated(u) == u
  {
    var u := ts[t := ts[t].(error := error)];
    SameShapeSameDoom(ts, u);
    forall id | id in u ensures Propagated(u)[id] == u[id] {
      assert Propagated(ts)[id] == ts[id];
    }
  }

  lemma ErrorKeepsGood(ts: Tasks, t: Id, error: Option<string>)
    requires Good(ts) && t in ts
    ensures var u := ts[t := ts[t].(error := error)];
      Good(u) && SameStarted(ts, u)
  {
    ErrorKeepsSound(ts, t, error);
    ErrorKeepsPropagated(ts, t, error);
  }

  // ---- Injecting a generated recovery ----

  /** The plan after a new task `r` has been put in front of the failed task `f`. */
  ghost function Remedied(ts: Tasks, f: Id, r: Id): Tasks {
    Injected(ts, f, NewTask(r))
  }

  lemma RewiredSound(ts: Tasks, f: Id, r: Id, u: Tasks)
    requires Sound(ts) && HasStatus(ts, f, Failed) && r !in ts && u == Rewired(ts, f, NewTask(r))
    ensures Sound(u)
  {
    RewiredEdges(ts, f, NewTask(r));
    forall a, b | Edge(Deps(u), a, b) ensures b in u {
      if a == r {
        assert Edge(Deps(ts), f, b);
      } else if a != f {
        assert Edge(Deps(ts), a, b);
      }
    }
    forall id, d | id in u && Started(u[id].status) && d in u[id].dependencies ensures HasStatus(u, d, Completed) {
      assert HasStatus(ts, d, Completed);
    }
    FreshInjectionAcyclic(ts, f, NewTask(r));
    PropagatedShape(u);
  }

  /** The started tasks after the rewrite. */
  lemma RewiredSets(ts: Tasks, f: Id, r: Id, u: Tasks)
    requires HasStatus(ts, f, Failed) && r !in ts && u == Rewired(ts, f, NewTask(r))
    ensures u.Keys == ts.Keys + {r}
    ensures WithStatus(u, Running) == WithStatus(ts, Running)
    ensures WithStatus(u, Completed) == WithStatus(ts, Completed)
    ensures WithStatus(u, Failed) == WithStatus(ts, Failed) - {f}
    ensures forall g :: HasStatus(ts, g, Failed) && g != f ==> u[g] == ts[g]
  {
  }

  lemma RemediedGood(ts: Tasks, f: Id, r: Id, u: Tasks)
    requires Sound(ts) && HasStatus(ts, f, Failed) && r !in ts && u == Remedied(ts, f, r)
    ensures Good(u) && u.Keys == ts.Keys + {r}
    ensures WithStatus(u, Running) == WithStatus(ts, Running)
    ensures WithStatus(u, Completed) == WithStatus(ts, Completed)
    ensures WithStatus(u, Failed) == WithStatus(ts, Failed) - {f}
    ensures forall g :: HasStatus(ts, g, Failed) && g != f ==> u[g] == ts[g]
    ensures Reset(u) == Reset(Rewired(ts, f, NewTask(r)))
  {
    var w := Rewired(ts, f, NewTask(r));
    RewiredSound(ts, f, r, w);
    RewiredSets(ts, f, r, w);
    PropagatedIsGood(w);
    PropagationKeepsStarted(w);
  }

  // ---- Recovery ids and attempts ----

  /**
   * Registered recoveries are tasks as they are created: pending, without an
   * error, and with an id that is never generated.
   */
  ghost predicate Registry(node: Node) {
    forall f :: f in node.registered ==> NewRecovery(node.registered[f])
  }

  ghost predicate NewRecovery(task: Task) {
    && task.status == Pending && task.error == None
    && forall x, k: nat :: k > 0 ==> task.id != Text.RecoveryId(x, k)
  }

  /** The registered recoveries that are due have not been used, and none is due twice. */
  ghost predicate Unused(node: Node, ts: Tasks) {
    && (forall f :: HasStatus(ts, f, Failed) && f in node.registered ==> node.registered[f].id !in ts)
    && (forall f, g ::
        HasStatus(ts, f, Failed) && HasStatus(ts, g, Failed) && f != g ==>
        f in node.registered && g in node.registered ==>
        node.registered[f].id != node.registered[g].id)
  }

  /** The id of the recovery for the next attempt at a failed task. */
  function RecId(node: Node, attempts: map<Id, nat>, f: Id): Id {
    if f in node.registered then node.registered[f].id else Text.RecoveryId(f, AttemptsOf(attempts, f) + 1)
  }

  /** The counters after one more attempt; without self-healing nothing is counted. */
  function Count(node: Node, attempts: map<Id, nat>, f: Id): map<Id, nat> {
    if node.selfHealing then attempts[f := AttemptsOf(attempts, f) + 1] else attempts
  }

  /** Recoveries still to come have ids that the plan does not know. */
  ghost predicate DueFresh(node: Node, due: set<Id>, ts: Tasks) {
    && (forall f :: f in due && f in node.registered ==> node.registered[f].id !in ts)
    && (forall f, g :: f in due && g in due && f != g && f in node.registered && g in node.registered
          ==> node.registered[f].id != node.registered[g].id)
  }

  lemma RecIdFresh(node: Node, due: set<Id>, ts: Tasks, attempts: map<Id, nat>, f: Id)
    requires CountedIds(ts, attempts) && DueFresh(node, due, ts) && f in due
    ensures RecId(node, attempts, f) !in ts
  {
  }

  lemma DueStaysFresh(node: Node, due: set<Id>, ts: Tasks, attempts: map<Id, nat>, f: Id, us: Tasks)
    requires Registry(node) && DueFresh(node, due, ts) && f in due
    requires us.Keys == ts.Keys + {RecId(node, attempts, f)}
    ensures DueFresh(node, due - {f}, us)
  {
    forall g | g in due - {f} && g in node.registered ensures node.registered[g].id !in us {
      assert NewRecovery(node.registered[g]);
    }
  }

  lemma CountKeeps(node: Node, ts: Tasks, attempts: map<Id, nat>, f: Id, us: Tasks)
    requires Registry(node) && CountedIds(ts, attempts) && us.Keys == ts.Keys + {RecId(node, attempts, f)}
    requires node.selfHealing || f in node.registered
    ensures CountedIds(us, Count(node, attempts, f))
  {
    forall x, k: nat | Text.RecoveryId(x, k) in us ensures k <= AttemptsOf(Count(node, attempts, f), x) {
      if Text.RecoveryId(x, k) !in ts {
        if f in node.registered {
          assert NewRecovery(node.registered[f]);
        } else {
          Text.RecoveryIdInjective(x, k, f, AttemptsOf(attempts, f) + 1);
        }
      }
    }
  }

  // ---- What a replan makes of the plan ----

  /**
   * The whole plan after every task `f` of `done` has been given the recovery
   * task `ids(f)`: it waits for its recovery alone, which took over its
   * dependencies; blocked tasks are pending again; nothing else has changed.
   */
  ghost predicate Replanned(ts: Tasks, ids: Id -> Id, done: set<Id>, us: Tasks)
  {
    && us.Keys == ts.Keys + Chosen(ids, done)
    && (forall f :: f in done ==> Recovered(ts, f, ids(f), us))
    && (forall id :: id in ts && id !in done ==> us[id] == ResetTask(ts[id]))
  }

  function Chosen(ids: Id -> Id, done: set<Id>): set<Id>
  {
    set f | f in done :: ids(f)
  }

  ghost predicate Recovered(ts: Tasks, f: Id, r: Id, us: Tasks) {
    && f in ts && f in us && r in us && r !in ts
    && us[f] == ts[f].(dependencies := [r], status := Pending, error := None)
    && us[r] == NewTask(r).(dependencies := ts[f].dependencies)
  }

  lemma RewiredPointwise(us: Tasks, f: Id, r: Id, vs: Tasks)
    requires f in us && r !in us && vs == Reset(Rewired(us, f, NewTask(r)))
    ensures vs.Keys == Reset(us).Keys + {r} && r !in Reset(us)
    ensures vs[f] == us[f].(dependencies := [r], status := Pending, error := None)
    ensures vs[r] == NewTask(r).(dependencies := us[f].dependencies)
    ensures forall id :: id in us && id != f ==> vs[id] == Reset(us)[id]
  {
  }

  lemma ChosenAdd(ids: Id -> Id, done: set<Id>, f: Id)
    ensures Chosen(ids, done + {f}) == Chosen(ids, done) + {ids(f)}
  {
    assert ids(f) in Chosen(ids, done + {f});
  }

  lemma ReplannedOneMore(ts: Tasks, ids: Id -> Id, done: set<Id>, ws: Tasks, f: Id, vs: Tasks)
    requires Replanned(ts, ids, done, ws)
    requires f in ts && f !in done && ids(f) !in ws && vs.Keys == ws.Keys + {ids(f)}
    requires vs[f] == ts[f].(dependencies := [ids(f)], status := Pending, error := None)
    requires vs[ids(f)] == NewTask(ids(f)).(dependencies := ts[f].dependencies)
    requires forall id :: id in ws && id != f ==> vs[id] == ws[id]
    ensures Replanned(ts, ids, done + {f}, vs)
  {
    ChosenAdd(ids, done, f);
    forall g | g in done ensures Recovered(ts, g, ids(g), vs) {
      assert Recovered(ts, g, ids(g), ws);
    }
    assert Recovered(ts, f, ids(f), vs);
  }

  // ---- The failure loop ----

  /** The attempt counters between the start of the loop and now. */
  ghost predicate AttemptsGrow(attempts: map<Id, nat>, done: set<Id>, now: map<Id, nat>) {
    && (forall x :: AttemptsOf(attempts, x) <= AttemptsOf(now, x))
    && (forall x :: x !in done ==> AttemptsOf(now, x) == AttemptsOf(attempts, x))
  }

  /** The counters' side of the loop. */
  ghost predicate CountSide(node: Node, attempts: map<Id, nat>, done: set<Id>, now: map<Id, nat>) {
    Bounded(node, now) && AttemptsGrow(attempts, done, now)
  }

  lemma CountSideOne(node: Node, attempts: map<Id, nat>, done: set<Id>, now: map<Id, nat>, f: Id)
    requires CountSide(node, attempts, done, now)
    ensures CountSide(node, attempts, done + {f}, now)
    ensures (node.selfHealing ==> AttemptsOf(now, f) < AttemptLimit(node)) ==>
      CountSide(node, attempts, done + {f}, Count(node, now, f))
  {
    assert forall x :: x != f ==> AttemptsOf(Count(node, now, f), x) == AttemptsOf(now, x);
  }

  /** The loop's copy of the plan: same running and completed tasks, fewer failed ones. */
  ghost predicate HealedSets(ts: Tasks, done: set<Id>, us: Tasks) {
    && ts.Keys <= us.Keys
    && WithStatus(us, Running) == WithStatus(ts, Running)
    && WithStatus(us, Completed) == WithStatus(ts, Completed)
    && WithStatus(us, Failed) <= WithStatus(ts, Failed)
    && (forall f :: HasStatus(ts, f, Failed) && f !in done ==> us[f] == ts[f])
  }

  /** The loop's copy is good and has as many recoveries more as failures less. */
  ghost predicate HealedPlan(ts: Tasks, done: set<Id>, us: Tasks) {
    && Good(us) && HealedSets(ts, done, us)
    && |us.Keys| + |WithStatus(us, Failed)| == |ts.Keys| + |WithStatus(ts, Failed)|
  }

  /** One failure less, one recovery more. */
  lemma OneForOne(us: Tasks, f: Id, r: Id, vs: Tasks)
    requires f in WithStatus(us, Failed) && r !in us && vs.Keys == us.Keys + {r}
    requires WithStatus(vs, Failed) == WithStatus(us, Failed) - {f}
    ensures |vs.Keys| + |WithStatus(vs, Failed)| == |us.Keys| + |WithStatus(us, Failed)|
  {
    assert |vs.Keys| == |us.Keys| + 1;
    assert |WithStatus(vs, Failed)| == |WithStatus(us, Failed)| - 1;
  }

  lemma HealedSetsOneMore(ts: Tasks, done: set<Id>, us: Tasks, f: Id, vs: Tasks)
    requires HealedSets(ts, done, us) && us.Keys <= vs.Keys
    requires WithStatus(vs, Running) == WithStatus(us, Running)
    requires WithStatus(vs, Completed) == WithStatus(us, Completed)
    requires WithStatus(vs, Failed) == WithStatus(us, Failed) - {f}
    requires forall g :: HasStatus(us, g, Failed) && g != f ==> vs[g] == us[g]
    ensures HealedSets(ts, done + {f}, vs)
  {
  }

  lemma HealedOneMore(ts: Tasks, done: set<Id>, us: Tasks, f: Id, r: Id, vs: Tasks)
    requires HealedPlan(ts, done, us) && HasStatus(ts, f, Failed) && f !in done
    requires r !in us && vs == Remedied(us, f, r)
    ensures HealedPlan(ts, done + {f}, vs) && vs.Keys == us.Keys + {r}
    ensures WithStatus(vs, Failed) == WithStatus(us, Failed) - {f}
  {
    RemediedGood(us, f, r, vs);
    HealedSetsOneMore(ts, done, us, f, vs);
    OneForOne(us, f, r, vs);
  }

  /** The failed tasks the loop has not come to. */
  ghost function Due(ts: Tasks, done: set<Id>): set<Id> {
    WithStatus(ts, Failed) - done
  }

  /** The ids' side of the loop: what is there is counted, what is due is not there yet. */
  ghost predicate IdSide(node: Node, ts: Tasks, done: set<Id>, us: Tasks, now: map<Id, nat>) {
    CountedIds(us, now) && DueFresh(node, Due(ts, done), us)
  }

  lemma IdSideOne(node: Node, ts: Tasks, done: set<Id>, us: Tasks, now: map<Id, nat>, f: Id, vs: Tasks)
    requires Registry(node) && IdSide(node, ts, done, us, now) && HasStatus(ts, f, Failed) && f !in done
    requires node.selfHealing || f in node.registered
    ensures RecId(node, now, f) !in us
    ensures vs.Keys == us.Keys + {RecId(node, now, f)} ==> IdSide(node, ts, done + {f}, vs, Count(node, now, f))
  {
    RecIdFresh(node, Due(ts, done), us, now, f);
    if vs.Keys == us.Keys + {RecId(node, now, f)} {
      DueStaysFresh(node, Due(ts, done), us, now, f, vs);
      assert Due(ts, done) - {f} == Due(ts, done + {f});
      CountKeeps(node, us, now, f, vs);
    }
  }

  /** The plan's side when nothing has been given up. */
  lemma ReplannedSideOne(ts: Tasks, ids: Id -> Id, done: set<Id>, us: Tasks, f: Id, vs: Tasks)
    requires Sound(us) && Replanned(ts, ids, done, Reset(us))
    requires HasStatus(ts, f, Failed) && f !in done && f in us && us[f] == ts[f]
    requires ids(f) !in us && vs == Remedied(us, f, ids(f))
    ensures Replanned(ts, ids, done + {f}, Reset(vs))
  {
    RemediedGood(us, f, ids(f), vs);
    RewiredPointwise(us, f, ids(f), Reset(vs));
    ReplannedOneMore(ts, ids, done, Reset(us), f, Reset(vs));
  }

  /** Where the failure loop stands after the failed tasks `done`. */
  ghost predicate HealInv(node: Node, start: Healing, done: set<Id>, h: Healing) {
    && HealedPlan(start.plan, done, h.plan) && IdSide(node, start.plan, done, h.plan, h.attempts)
    && (h.all ==> WithStatus(h.plan, Failed) !! done)
    && (h.all && done != {} ==> h.any)
  }

  /** `h'` is `h` after the injection of the next recovery for `f`. */
  ghost predicate Injection(node: Node, h: Healing, f: Id, h': Healing) {
    && (node.selfHealing || f in node.registered)
    && h'.plan == Remedied(h.plan, f, RecId(node, h.attempts, f)) && h'.attempts == Count(node, h.attempts, f)
    && (node.selfHealing ==> AttemptsOf(h.attempts, f) < AttemptLimit(node))
    && h'.any && h'.all == h.all
  }

  lemma LimitCovers(node: Node, kind: FailureClass)
    ensures MaxAttempts(node, kind) <= AttemptLimit(node)
  {
    match kind case Compile => case Test => case Runtime => case Integration => case Unknown =>
  }

  /** Only the id of a new recovery matters: its dependencies are replaced. */
  lemma InjectedById(ts: Tasks, f: Id, recovery: Task)
    requires recovery.status == Pending && recovery.error == None
    ensures Injected(ts, f, recovery) == Remedied(ts, f, recovery.id)
  {
    if f in ts {
      assert Rewired(ts, f, recovery) == Rewired(ts, f, NewTask(recovery.id));
    }
  }

  /** A failed task is either given its next recovery or given up. */
  lemma HealOneCases(node: Node, h: Healing, task: Task)
    requires Registry(node)
    ensures var h' := HealOne(node, h, task);
      || Injection(node, h, task.id, h')
      || (!h'.all && h'.plan == h.plan && h'.attempts == h.attempts)
  {
    LimitCovers(node, node.classify(ErrorOf(task)));
    if task.id in node.registered {
      assert NewRecovery(node.registered[task.id]);
      InjectedById(h.plan, task.id, node.registered[task.id]);
    }
  }

  lemma InjectionKeeps(node: Node, start: Healing, done: set<Id>, h: Healing, f: Id, h': Healing)
    requires Registry(node) && HealInv(node, start, done, h) && HasStatus(start.plan, f, Failed) && f !in done
    requires Injection(node, h, f, h')
    ensures HealInv(node, start, done + {f}, h')
  {
    IdSideOne(node, start.plan, done, h.plan, h.attempts, f, h'.plan);
    HealedOneMore(start.plan, done, h.plan, f, RecId(node, h.attempts, f), h'.plan);
  }

  /** The ids of the recoveries for the failed tasks. */
  function FreshIds(node: Node, start: Healing): Id -> Id {
    f => RecId(node, start.attempts, f)
  }

  lemma HealOneKeeps(node: Node, start: Healing, done: set<Id>, h: Healing, f: Id, h': Healing)
    requires Registry(node) && HealInv(node, start, done, h)
    requires HasStatus(start.plan, f, Failed) && start.plan[f].id == f && f !in done
    requires h' == HealOne(node, h, start.plan[f])
    ensures HealInv(node, start, done + {f}, h')
  {
    HealOneCases(node, h, start.plan[f]);
    if Injection(node, h, f, h') {
      InjectionKeeps(node, start, done, h, f, h');
    }
  }

  ghost function Healed(node: Node, start: Healing, order: seq<Id>): Healing {
    HealAll(node, start, TasksOf(start.plan, order))
  }

  /** The loop, task by task. */
  lemma HealedUnfold(node: Node, start: Healing, order: seq<Id>, n: nat)
    requires |order| == n + 1 && order[n] in start.plan
    ensures Healed(node, start, order) == HealOne(node, Healed(node, start, order[..n]), start.plan[order[n]])
  {
    assert TasksOf(start.plan, order)[..n] == TasksOf(start.plan, order[..n]);
  }

  ghost function Members(order: seq<Id>): set<Id> {
    set x | x in order
  }

  ghost predicate FailedOnes(ts: Tasks, order: seq<Id>) {
    NoDuplicates(order) && forall f :: f in order ==> HasStatus(ts, f, Failed)
  }

  lemma LastMember(ts: Tasks, order: seq<Id>, n: nat)
    requires FailedOnes(ts, order) && |order| == n + 1
    ensures FailedOnes(ts, order[..n]) && HasStatus(ts, order[n], Failed)
    ensures order[n] !in Members(order[..n]) && Members(order) == Members(order[..n]) + {order[n]}
  {
  }

  /** The state before the first failed task. */
  ghost predicate StartInv(node: Node, start: Healing) {
    && Good(start.plan) && CountedIds(start.plan, start.attempts) && Bounded(node, start.attempts)
    && Unused(node, start.plan)
    && start.all && !start.any
  }

  lemma {:induction false} HealAllKeeps(node: Node, start: Healing, order: seq<Id>)
    requires Registry(node) && StartInv(node, start) && FailedOnes(start.plan, order)
    ensures HealInv(node, start, Members(order), Healed(node, start, order))
    decreases |order|
  {
    if order == [] {
      assert Members(order) == {};
    } else {
      var n := |order| - 1;
      var h, h' := Healed(node, start, order[..n]), Healed(node, start, order);
      LastMember(start.plan, order, n);
      HealedUnfold(node, start, order, n);
      HealAllKeeps(node, start, order[..n]);
      HealOneKeeps(node, start, Members(order[..n]), h, order[n], h');
    }
  }

  /** The counters, whatever ids the recoveries have. */
  lemma {:induction false} HealAllCounts(node: Node, start: Healing, order: seq<Id>)
    requires Registry(node) && KeyedById(start.plan) && FailedOnes(start.plan, order)
    requires Bounded(node, start.attempts)
    ensures CountSide(node, start.attempts, Members(order), Healed(node, start, order).attempts)
    decreases |order|
  {
    if order != [] {
      var n := |order| - 1;
      LastMember(start.plan, order, n);
      HealedUnfold(node, start, order, n);
      HealAllCounts(node, start, order[..n]);
      HealOneCases(node, Healed(node, start, order[..n]), start.plan[order[n]]);
      CountSideOne(node, start.attempts, Members(order[..n]), Healed(node, start, order[..n]).attempts, order[n]);
    }
  }

  /** The loop before its last failed task, when nothing has been given up. */
  lemma LastInjection(node: Node, start: Healing, order: seq<Id>, n: nat, h: Healing, f: Id)
    requires Registry(node) && KeyedById(start.plan) && FailedOnes(start.plan, order) && |order| == n + 1
    requires Healed(node, start, order).all && h == Healed(node, start, order[..n]) && f == order[n]
    ensures h.all && Injection(node, h, f, Healed(node, start, order))
  {
    assert HasStatus(start.plan, f, Failed);
    HealedUnfold(node, start, order, n);
    HealOneCases(node, h, start.plan[f]);
  }

  /** The loop before its last failed task had counted nothing for it yet. */
  lemma NotYetCounted(node: Node, start: Healing, order: seq<Id>, n: nat)
    requires KeyedById(start.plan) && FailedOnes(start.plan, order) && |order| == n + 1
    ensures FreshIds(node, start)(order[n]) == RecId(node, Healed(node, start, order[..n]).attempts, order[n])
  {
    LastMember(start.plan, order, n);
    var before, t := TasksOf(start.plan, order[..n]), start.plan[order[n]];
    assert forall i :: 0 <= i < n ==> order[i] in order && order[i] != order[n];
    assert DistinctTasks(before + [t]);
    StillHeals(node, start, before, t);
  }

  lemma {:induction false} HealAllReplans(node: Node, start: Healing, order: seq<Id>, h': Healing)
    requires Registry(node) && StartInv(node, start) && FailedOnes(start.plan, order)
    requires h' == Healed(node, start, order) && h'.all
    ensures Replanned(start.plan, FreshIds(node, start), Members(order), Reset(h'.plan))
    decreases |order|
  {
    if order == [] {
      assert Members(order) == {} && Chosen(FreshIds(node, start), {}) == {};
    } else {
      var n := |order| - 1;
      var h, f := Healed(node, start, order[..n]), order[n];
      LastMember(start.plan, order, n);
      LastInjection(node, start, order, n, h, f);
      HealAllReplans(node, start, order[..n], h);
      HealAllKeeps(node, start, order[..n]);
      NotYetCounted(node, start, order, n);
      ReplansOneMore(node, start, Members(order[..n]), h, f, h');
    }
  }

  lemma ReplansOneMore(node: Node, start: Healing, done: set<Id>, h: Healing, f: Id, h': Healing)
    requires Registry(node) && HealInv(node, start, done, h) && HasStatus(start.plan, f, Failed) && f !in done
    requires Injection(node, h, f, h') && FreshIds(node, start)(f) == RecId(node, h.attempts, f)
    requires Replanned(start.plan, FreshIds(node, start), done, Reset(h.plan))
    ensures Replanned(start.plan, FreshIds(node, start), done + {f}, Reset(h'.plan))
  {
    IdSideOne(node, start.plan, done, h.plan, h.attempts, f, h'.plan);
    ReplannedSideOne(start.plan, FreshIds(node, start), done, h.plan, f, h'.plan);
  }

  /** When all failed tasks have been handled, the loop's plan has none left, and nothing is blocked. */
  lemma AllHealed(node: Node, start: Healing, h: Healing)
    requires h.all && HealInv(node, start, WithStatus(start.plan, Failed), h)
    ensures WithStatus(h.plan, Failed) == {} && WithStatus(h.plan, Blocked) == {} && Reset(h.plan) == h.plan
    ensures |h.plan.Keys| == |start.plan.Keys| + |WithStatus(start.plan, Failed)|
  {
    assert WithStatus(h.plan, Failed) == {};
    NoFailureNoBlock(h.plan);
    forall id | id in h.plan ensures ResetTask(h.plan[id]) == h.plan[id] {
      assert id !in WithStatus(h.plan, Blocked);
    }
  }

  lemma AllFailed(ts: Tasks, order: seq<Id>)
    requires Enumerates(order, WithStatus(ts, Failed))
    ensures FailedOnes(ts, order) && Members(order) == WithStatus(ts, Failed)
  {
  }

  /** The loop over all failed tasks, when nothing had to be given up. */
  lemma LoopReplans(node: Node, start: Healing, order: seq<Id>, h: Healing)
    requires Registry(node) && StartInv(node, start) && Enumerates(order, WithStatus(start.plan, Failed))
    requires h == Healed(node, start, order) && h.all
    ensures Replanned(start.plan, FreshIds(node, start), WithStatus(start.plan, Failed), h.plan)
    ensures WithStatus(h.plan, Failed) == {} && WithStatus(h.plan, Blocked) == {}
    ensures |h.plan.Keys| == |start.plan.Keys| + |WithStatus(start.plan, Failed)|
  {
    AllFailed(start.plan, order);
    HealAllKeeps(node, start, order);
    HealAllReplans(node, start, order, h);
    AllHealed(node, start, h);
  }

  /**
   * When the node answers "replan_injected", the saved plan is the replanned
   * one, whatever the order in which the failures were handled: nothing is
   * failed or blocked, there is one more task per failure, every recovery task
   * can start at once, and self-healing has counted one attempt for each failure.
   */
  lemma ReplanIsExact(node: Node, c: Context, c': Context)
    requires Registry(node) && Inv(node, c) && Unused(node, c.plan.value)
    requires Executes(node, c, c', Ok(Transition("replan_injected")))
    ensures c'.plan.Some?
    ensures Replanned(c.plan.value, FreshIds(node, StartOf(c)), WithStatus(c.plan.value, Failed), c'.plan.value)
    ensures WithStatus(c'.plan.value, Failed) == {} && WithStatus(c'.plan.value, Blocked) == {}
    ensures |c'.plan.value.Keys| == |c.plan.value.Keys| + |WithStatus(c.plan.value, Failed)|
    ensures forall f :: HasStatus(c.plan.value, f, Failed) ==> Ready(c'.plan.value, FreshIds(node, StartOf(c))(f))
    ensures CountedOnce(node, c, c')
  {
    var order := ReplanOrder(node, c, c');
    LoopReplans(node, StartOf(c), order, Healed(node, StartOf(c), order));
    RecoveriesReady(c.plan.value, FreshIds(node, StartOf(c)), c'.plan.value);
    ReplanCounts(node, c, c');
  }

  /**
   * The recovery of a failed task is the registered one, or else the one named
   * after the task and the attempt.  It is new and takes over the dependencies;
   * the failed task is pending again, without its error, and waits for it alone.
   */
  lemma RecoveryTakesOver(node: Node, c: Context, c': Context, f: Id, r: Id)
    requires Registry(node) && Inv(node, c) && Unused(node, c.plan.value)
    requires Executes(node, c, c', Ok(Transition("replan_injected"))) && HasStatus(c.plan.value, f, Failed)
    requires RecoveryIs(node, c, f, r)
    ensures c'.plan.Some? && r !in c.plan.value && r in c'.plan.value && f in c'.plan.value
    ensures c'.plan.value[r] == Task(r, Pending, c.plan.value[f].dependencies, None)
    ensures c'.plan.value[f] == Task(f, Pending, [r], None)
  {
    ReplanIsExact(node, c, c');
    FreshIdIs(node, c, f, r);
    RecoveredAs(c.plan.value, FreshIds(node, StartOf(c)), c'.plan.value, f, r);
  }

  lemma FreshIdIs(node: Node, c: Context, f: Id, r: Id)
    requires c.plan.Some? && RecoveryIs(node, c, f, r)
    ensures FreshIds(node, StartOf(c))(f) == r
  {
  }

  lemma RecoveredAs(ts: Tasks, ids: Id -> Id, us: Tasks, f: Id, r: Id)
    requires Replanned(ts, ids, WithStatus(ts, Failed), us) && KeyedById(ts)
    requires HasStatus(ts, f, Failed) && r == ids(f)
    ensures r !in ts && r in us && f in us
    ensures us[r] == Task(r, Pending, ts[f].dependencies, None)
    ensures us[f] == Task(f, Pending, [r], None)
  {
    assert f in WithStatus(ts, Failed);
    assert Recovered(ts, f, r, us);
  }

  /** The registered recovery, or else the generated one for the next attempt. */
  ghost predicate RecoveryIs(node: Node, c: Context, f: Id, r: Id) {
    if f in node.registered then r == node.registered[f].id
    else r == "recovery_" + f + "_" + Text.Decimal(if f in c.attempts then c.attempts[f] + 1 else 1)
  }

  /** With self-healing every failed task has been counted once, and nothing else has. */
  ghost predicate CountedOnce(node: Node, c: Context, c': Context)
    requires c.plan.Some?
  {
    forall x :: AttemptsOf(c'.attempts, x) ==
      AttemptsOf(c.attempts, x) + if node.selfHealing && HasStatus(c.plan.value, x, Failed) then 1 else 0
  }

  lemma ReplanCounts(node: Node, c: Context, c': Context)
    requires Inv(node, c) && Executes(node, c, c', Ok(Transition("replan_injected")))
    ensures CountedOnce(node, c, c')
  {
    var r: Answer := Ok(Transition("replan_injected"));
    assert Replans(node, c, c', r);
    ReplanIff(node, c, c', r);
    forall x ensures AttemptsOf(c'.attempts, x) ==
      AttemptsOf(c.attempts, x) + if node.selfHealing && HasStatus(c.plan.value, x, Failed) then 1 else 0
    {
      AttemptsUsed(node, c, c', r, x);
    }
  }

  lemma ReplanOrder(node: Node, c: Context, c': Context) returns (order: seq<Id>)
    requires Inv(node, c) && Unused(node, c.plan.value) && Executes(node, c, c', Ok(Transition("replan_injected")))
    ensures Enumerates(order, WithStatus(c.plan.value, Failed)) && StartInv(node, StartOf(c))
    ensures var h := Healed(node, StartOf(c), order); h.all && c'.plan == Some(h.plan) && c'.attempts == h.attempts
  {
    assert WithStatus(c.plan.value, Failed) != {};
    order :| Enumerates(order, WithStatus(c.plan.value, Failed))
      && Heals(node, c, order, c', Ok(Transition("replan_injected")));
  }

  lemma RecoveriesReady(ts: Tasks, ids: Id -> Id, us: Tasks)
    requires Sound(ts)
    requires Replanned(ts, ids, WithStatus(ts, Failed), us)
    ensures forall f :: HasStatus(ts, f, Failed) ==> Ready(us, ids(f))
  {
    forall f | HasStatus(ts, f, Failed) ensures Ready(us, ids(f)) {
      RecoveryReady(ts, ids, us, f);
    }
  }

  lemma RecoveryReady(ts: Tasks, ids: Id -> Id, us: Tasks, f: Id)
    requires Sound(ts) && HasStatus(ts, f, Failed)
    requires Replanned(ts, ids, WithStatus(ts, Failed), us)
    ensures Ready(us, ids(f))
  {
    assert f in WithStatus(ts, Failed);
    assert Recovered(ts, f, ids(f), us);
    forall d | d in ts[f].dependencies ensures HasStatus(us, d, Completed) {
      assert HasStatus(ts, d, Completed);
      assert d !in WithStatus(ts, Failed);
    }
  }

  // ---- Steps and runs ----

  datatype Event =
    | Schedule(answer: Answer)
    | Complete(id: Id)
    | Fail(id: Id, error: Option<string>)

  /** One execution of the scheduler node, or the end of a running task. */
  ghost predicate Step(node: Node, c: Context, e: Event, c': Context) {
    match e
    case Schedule(r) => Executes(node, c, c', r)
    case Complete(t) =>
      && c.plan.Some? && HasStatus(c.plan.value, t, Running)
      && c' == c.(plan := Some(StatusUpdated(c.plan.value, t, Completed)))
    case Fail(t, error) =>
      && c.plan.Some? && HasStatus(c.plan.value, t, Running)
      && c' == c.(plan := Some(FailedPlan(c.plan.value, t, error)))
  }

  const EXECUTE_TASK: Event := Schedule(Ok(Transition("execute_task")))

  function Starts(e: Event): nat {
    if e == EXECUTE_TASK then 1 else 0
  }

  function Fails(e: Event): nat {
    if e.Fail? then 1 else 0
  }

  /** Tasks of the plan, with the failed ones counted twice. */
  ghost function Weight(ts: Tasks): nat {
    |ts.Keys| + |WithStatus(ts, Failed)|
  }

  /** Tasks that have been started and have not failed. */
  ghost function Load(ts: Tasks): nat {
    |WithStatus(ts, Completed)| + |WithStatus(ts, Running)|
  }

  /** How starts and failures change the counts. */
  ghost predicate Balance(ts: Tasks, e: Event, us: Tasks) {
    && Weight(us) == Weight(ts) + Fails(e)
    && Load(us) + Fails(e) == Load(ts) + Starts(e)
  }

  /** What a step may do to a running task: let it run, or end it as the event says. */
  predicate RunsOn(e: Event, us: Tasks, id: Id) {
    || HasStatus(us, id, Running)
    || (e == Complete(id) && HasStatus(us, id, Completed))
    || (e.Fail? && e.id == id && HasStatus(us, id, Failed))
  }

  /** What a step may do to the started tasks of the plan. */
  ghost predicate Progress(ts: Tasks, e: Event, us: Tasks) {
    && ts.Keys <= us.Keys
    && WithStatus(ts, Completed) <= WithStatus(us, Completed)
    && (forall id :: HasStatus(ts, id, Running) ==> RunsOn(e, us, id))
  }

  /** The started tasks after one has been started. */
  lemma StartSets(ts: Tasks, next: Id)
    requires Good(ts) && Ready(ts, next)
    ensures var us := StatusUpdated(ts, next, Running);
      && Good(us) && us.Keys == ts.Keys
      && WithStatus(us, Running) == WithStatus(ts, Running) + {next}
      && WithStatus(us, Completed) == WithStatus(ts, Completed)
      && WithStatus(us, Failed) == WithStatus(ts, Failed)
  {
    MoveOn(ts, next, Running);
    assert next !in WithStatus(ts, Completed) && next !in WithStatus(ts, Failed);
  }

  lemma StartBalance(ts: Tasks, next: Id, us: Tasks)
    requires HasStatus(ts, next, Pending) && us.Keys == ts.Keys
    requires WithStatus(us, Running) == WithStatus(ts, Running) + {next}
    requires WithStatus(us, Completed) == WithStatus(ts, Completed)
    requires WithStatus(us, Failed) == WithStatus(ts, Failed)
    ensures Balance(ts, EXECUTE_TASK, us) && Progress(ts, EXECUTE_TASK, us)
  {
    assert next !in WithStatus(ts, Running);
    NothingStops(ts, EXECUTE_TASK, us);
  }

  lemma StartStep(node: Node, c: Context, next: Id, c': Context)
    requires Inv(node, c) && Selects(c.plan.value, next, c, c', Ok(Transition("execute_task")))
    ensures Inv(node, c') && Progress(c.plan.value, EXECUTE_TASK, c'.plan.value)
    ensures Balance(c.plan.value, EXECUTE_TASK, c'.plan.value)
  {
    StartSets(c.plan.value, next);
    StartBalance(c.plan.value, next, c'.plan.value);
  }

  lemma NothingStops(ts: Tasks, e: Event, us: Tasks)
    requires ts.Keys <= us.Keys && WithStatus(ts, Completed) <= WithStatus(us, Completed)
    requires WithStatus(ts, Running) <= WithStatus(us, Running)
    ensures Progress(ts, e, us)
  {
    forall id | HasStatus(ts, id, Running) ensures RunsOn(e, us, id) {
      assert id in WithStatus(ts, Running);
      assert id in WithStatus(us, Running);
    }
  }

  lemma EndBalance(ts: Tasks, t: Id, e: Event, us: Tasks)
    requires HasStatus(ts, t, Running) && !e.Schedule? && ts.Keys == us.Keys
    requires WithStatus(us, Running) == WithStatus(ts, Running) - {t}
    requires WithStatus(us, Completed) == Moved(WithStatus(ts, Completed), t, e.Complete?)
    requires WithStatus(us, Failed) == Moved(WithStatus(ts, Failed), t, e.Fail?)
    ensures Balance(ts, e, us)
  {
    assert t in WithStatus(ts, Running) && t !in WithStatus(ts, Completed) && t !in WithStatus(ts, Failed);
  }

  /** The plan after a running task has ended. */
  lemma EndedPlan(ts: Tasks, e: Event, us: Tasks)
    requires Good(ts) && !e.Schedule? && HasStatus(ts, e.id, Running)
    requires us == if e.Fail? then FailedPlan(ts, e.id, e.error) else StatusUpdated(ts, e.id, Completed)
    ensures Good(us) && ts.Keys == us.Keys
    ensures WithStatus(us, Running) == WithStatus(ts, Running) - {e.id}
    ensures WithStatus(us, Completed) == Moved(WithStatus(ts, Completed), e.id, e.Complete?)
    ensures WithStatus(us, Failed) == Moved(WithStatus(ts, Failed), e.id, e.Fail?)
  {
    forall d | d in ts[e.id].dependencies ensures HasStatus(ts, d, Completed) {}
    MoveOn(ts, e.id, if e.Complete? then Completed else Failed);
    if e.Fail? {
      ErrorKeepsGood(StatusUpdated(ts, e.id, Failed), e.id, e.error);
    }
  }

  lemma EndStep(node: Node, c: Context, e: Event, c': Context)
    requires Inv(node, c) && !e.Schedule? && Step(node, c, e, c')
    ensures Inv(node, c') && Progress(c.plan.value, e, c'.plan.value)
    ensures Balance(c.plan.value, e, c'.plan.value)
  {
    EndedPlan(c.plan.value, e, c'.plan.value);
    EndBalance(c.plan.value, e.id, e, c'.plan.value);
    EndProgress(c.plan.value, e, c'.plan.value);
  }

  lemma EndProgress(ts: Tasks, e: Event, us: Tasks)
    requires !e.Schedule? && HasStatus(ts, e.id, Running) && ts.Keys == us.Keys
    requires WithStatus(us, Running) == WithStatus(ts, Running) - {e.id}
    requires WithStatus(us, Completed) == Moved(WithStatus(ts, Completed), e.id, e.Complete?)
    requires WithStatus(us, Failed) == Moved(WithStatus(ts, Failed), e.id, e.Fail?)
    ensures Progress(ts, e, us)
  {
    assert e.id !in WithStatus(ts, Completed);
    assert e.id in if e.Complete? then WithStatus(us, Completed) else WithStatus(us, Failed);
    forall id | HasStatus(ts, id, Running) ensures RunsOn(e, us, id) {
      assert id in WithStatus(ts, Running);
      assert id != e.id ==> id in WithStatus(us, Running);
    }
  }

  lemma MoreAttempts(ts: Tasks, attempts: map<Id, nat>, now: map<Id, nat>)
    requires CountedIds(ts, attempts) && forall x :: AttemptsOf(attempts, x) <= AttemptsOf(now, x)
    ensures CountedIds(ts, now)
  {
    forall x, k: nat | Text.RecoveryId(x, k) in ts ensures k <= AttemptsOf(now, x) {
      assert AttemptsOf(attempts, x) <= AttemptsOf(now, x);
    }
  }

  /** When the plan is saved, the context stays sound. */
  lemma HealedInv(node: Node, c: Context, done: set<Id>, h: Healing, c': Context)
    requires c.plan.Some? && HealInv(node, StartOf(c), done, h) && CountSide(node, c.attempts, done, h.attempts)
    requires c'.attempts == h.attempts && c'.plan == Some(h.plan)
    ensures Inv(node, c')
  {
  }

  /** When only the counters are saved, too. */
  lemma CountedInv(node: Node, c: Context, done: set<Id>, c': Context)
    requires Inv(node, c) && CountSide(node, c.attempts, done, c'.attempts) && c'.plan == c.plan
    ensures Inv(node, c')
  {
    MoreAttempts(c.plan.value, c.attempts, c'.attempts);
  }

  lemma HealedProgress(ts: Tasks, done: set<Id>, us: Tasks, r: Answer)
    requires us == ts || HealedPlan(ts, done, us)
    ensures Progress(ts, Schedule(r), us)
    ensures Weight(us) == Weight(ts) && Load(us) == Load(ts)
  {
    NothingStops(ts, Schedule(r), us);
  }

  lemma HealStep(node: Node, c: Context, order: seq<Id>, c': Context, r: Answer)
    requires Registry(node) && Inv(node, c) && (Injects(Schedule(r)) ==> Unused(node, c.plan.value))
    requires Enumerates(order, WithStatus(c.plan.value, Failed)) && Heals(node, c, order, c', r)
    ensures Inv(node, c') && Progress(c.plan.value, Schedule(r), c'.plan.value)
    ensures Balance(c.plan.value, Schedule(r), c'.plan.value)
  {
    var done := Members(order);
    AllFailed(c.plan.value, order);
    HealAllCounts(node, StartOf(c), order);
    if Injects(Schedule(r)) {
      HealAllKeeps(node, StartOf(c), order);
      HealedInv(node, c, done, Healed(node, StartOf(c), order), c');
    } else {
      CountedInv(node, c, done, c');
    }
    HealedProgress(c.plan.value, done, c'.plan.value, r);
  }

  /** Every step keeps the invariant and the balance, and touches no other running task. */
  lemma StepKeeps(node: Node, c: Context, e: Event, c': Context)
    requires Registry(node) && Inv(node, c) && Step(node, c, e, c') && (Injects(e) ==> UnusedIn(node, c))
    ensures Inv(node, c') && Progress(c.plan.value, e, c'.plan.value)
    ensures Balance(c.plan.value, e, c'.plan.value)
  {
    if !e.Schedule? {
      EndStep(node, c, e, c');
      return;
    }
    var ts := c.plan.value;
    if WithStatus(ts, Failed) != {} {
      var order :| Enumerates(order, WithStatus(ts, Failed)) && Heals(node, c, order, c', e.answer);
      HealStep(node, c, order, c', e.answer);
    } else if ReadySet(ts) == {} {
      assert c'.plan == c.plan && c'.attempts == c.attempts && Starts(e) == 0;
    } else {
      var next :| Selects(ts, next, c, c', e.answer);
      StartStep(node, c, next, c');
    }
  }

  /** A run: contexts and the events between them, from an initial plan and an empty history. */
  datatype Run = Run(contexts: seq<Context>, events: seq<Event>)

  ghost predicate IsRun(node: Node, ts: Tasks, run: Run) {
    && |run.contexts| == |run.events| + 1
    && run.contexts[0] == Context(Some(ts), map[], [], false, None)
    && forall i :: 0 <= i < |run.events| ==> StepAt(node, run, i)
  }

  ghost predicate StepAt(node: Node, run: Run, i: nat)
    requires i < |run.events| && i + 1 < |run.contexts|
  {
    Step(node, run.contexts[i], run.events[i], run.contexts[i + 1])
  }

  /** Whenever recoveries are injected, the registered ones among them are new, and none is injected twice. */
  ghost predicate UsedOnce(node: Node, run: Run) {
    forall i ::
      0 <= i < |run.events| && i < |run.contexts| && Injects(run.events[i]) ==> UnusedIn(node, run.contexts[i])
  }

  predicate Injects(e: Event) {
    e.Schedule? && e.answer == Ok(Transition("replan_injected"))
  }

  ghost predicate UnusedIn(node: Node, c: Context) {
    c.plan.Some? ==> Unused(node, c.plan.value)
  }

  function StartCount(events: seq<Event>): nat {
    if events == [] then 0 else StartCount(events[..|events| - 1]) + Starts(events[|events| - 1])
  }

  function FailCount(events: seq<Event>): nat {
    if events == [] then 0 else FailCount(events[..|events| - 1]) + Fails(events[|events| - 1])
  }

  /** The invariant holds, and starts and failures are accounted for. */
  ghost predicate Accounted(node: Node, n: nat, c: Context, es: seq<Event>) {
    && Inv(node, c)
    && Weight(c.plan.value) == n + FailCount(es)
    && StartCount(es) == Load(c.plan.value) + FailCount(es)
  }

  lemma StartAccounts(node: Node, ts: Tasks)
    requires Initial(ts)
    ensures Accounted(node, |ts.Keys|, Context(Some(ts), map[], [], false, None), [])
  {
    InitialIsGood(ts);
    assert WithStatus(ts, Failed) == {} && WithStatus(ts, Completed) == {} && WithStatus(ts, Running) == {};
  }

  lemma CountsSnoc(es: seq<Event>, e: Event)
    ensures StartCount(es + [e]) == StartCount(es) + Starts(e) && FailCount(es + [e]) == FailCount(es) + Fails(e)
  {
    assert (es + [e])[..|es|] == es;
  }

  lemma StepAccounts(node: Node, n: nat, c: Context, es: seq<Event>, e: Event, c': Context)
    requires Accounted(node, n, c, es) && Registry(node)
    requires Step(node, c, e, c') && (Injects(e) ==> UnusedIn(node, c))
    ensures Accounted(node, n, c', es + [e])
  {
    StepKeeps(node, c, e, c');
    CountsSnoc(es, e);
  }

  lemma PrefixSnoc(es: seq<Event>, k: nat)
    requires k < |es|
    ensures es[..k + 1] == es[..k] + [es[k]]
  {
  }

  /** Along a run the invariant holds and starts and failures are accounted for. */
  lemma {:induction false} RunInvariant(node: Node, ts: Tasks, run: Run, i: nat)
    requires Registry(node) && Initial(ts) && IsRun(node, ts, run) && UsedOnce(node, run) && i < |run.contexts|
    ensures Accounted(node, |ts.Keys|, run.contexts[i], run.events[..i])
    decreases i
  {
    if i == 0 {
      StartAccounts(node, ts);
    } else {
      RunInvariant(node, ts, run, i - 1);
      assert StepAt(node, run, i - 1);
      StepAccounts(node, |ts.Keys|, run.contexts[i - 1], run.events[..i - 1], run.events[i - 1], run.contexts[i]);
      PrefixSnoc(run.events, i - 1);
    }
  }

  /**
   * Run safety: at every point the plan is acyclic and complete, every started
   * task has all its dependencies completed, and a task is blocked exactly when
   * it waits, directly or not, for a failed one.
   */
  lemma RunSafety(node: Node, ts: Tasks, run: Run, i: nat)
    requires Registry(node) && Initial(ts) && IsRun(node, ts, run) && UsedOnce(node, run) && i < |run.contexts|
    ensures run.contexts[i].plan.Some?
    ensures var us := run.contexts[i].plan.value;
      && !Cyclic(Deps(us)) && Closed(Deps(us)) && KeyedById(us)
      && (forall id, d :: id in us && d in us[id].dependencies ==>
          us[id].status == Pending || us[id].status == Blocked || HasStatus(us, d, Completed))
      && (forall id :: HasStatus(us, id, Blocked) <==> Doomed(us, id))
  {
    RunInvariant(node, ts, run, i);
    var us := run.contexts[i].plan.value;
    forall id ensures HasStatus(us, id, Blocked) <==> Doomed(us, id) {
      if id in us {
        assert Propagated(us)[id] == us[id];
      } else {
        DoomedUnfold(us, id);
      }
    }
  }

  /** Running tasks only stop running by their own end; completed tasks stay completed. */
  lemma RunProgress(node: Node, ts: Tasks, run: Run, i: nat)
    requires Registry(node) && Initial(ts) && IsRun(node, ts, run) && UsedOnce(node, run) && i < |run.events|
    ensures run.contexts[i].plan.Some? && run.contexts[i + 1].plan.Some?
    ensures Progress(run.contexts[i].plan.value, run.events[i], run.contexts[i + 1].plan.value)
  {
    RunInvariant(node, ts, run, i);
    assert StepAt(node, run, i);
    StepKeeps(node, run.contexts[i], run.events[i], run.contexts[i + 1]);
  }

  /** Attempts are bounded by the largest limit of any failure class, and the next generated id is always new. */
  lemma AttemptsBounded(node: Node, ts: Tasks, run: Run, i: nat, f: Id)
    requires Registry(node) && Initial(ts) && IsRun(node, ts, run) && UsedOnce(node, run) && i < |run.contexts|
    ensures AttemptsOf(run.contexts[i].attempts, f) <= AttemptLimit(node)
    ensures exists kind :: kind in DEFAULT_LIMITS && Tried(run.contexts[i], f) <= (DEFAULT_LIMITS + node.policies)[kind]
    ensures run.contexts[i].plan.Some?
    ensures forall k: nat | k > AttemptsOf(run.contexts[i].attempts, f) ::
      Text.RecoveryId(f, k) !in run.contexts[i].plan.value
  {
    RunInvariant(node, ts, run, i);
    var kind := LargestLimit(node);
    Limits(node, kind);
  }

  lemma LargestLimit(node: Node) returns (kind: FailureClass)
    ensures MaxAttempts(node, kind) == AttemptLimit(node) && kind in DEFAULT_LIMITS
  {
    kind :| MaxAttempts(node, kind) == AttemptLimit(node);
    match kind case Compile => case Test => case Runtime => case Integration => case Unknown =>
  }

  /** Without failed and running tasks, all tasks are completed or one is ready. */
  lemma NoStall(ts: Tasks)
    requires Good(ts) && WithStatus(ts, Failed) == {} && WithStatus(ts, Running) == {}
    ensures WithStatus(ts, Completed) == ts.Keys || ReadySet(ts) != {}
  {
    NoFailureNoBlock(ts);
    forall x | x in ts ensures ts[x].status == Pending || ts[x].status == Completed {
      assert x !in WithStatus(ts, Failed) && x !in WithStatus(ts, Running) && x !in WithStatus(ts, Blocked);
    }
    if id :| id in ts && ts[id].status != Completed {
      var r := FirstReady(ts, id);
      assert r in ReadySet(ts);
    } else {
      assert WithStatus(ts, Completed) == ts.Keys;
    }
  }

  /** Below a pending task of a plan with nothing else unfinished there is a ready one. */
  lemma {:induction false} FirstReady(ts: Tasks, id: Id) returns (r: Id)
    requires Sound(ts) && HasStatus(ts, id, Pending)
    requires forall x :: x in ts ==> ts[x].status == Pending || ts[x].status == Completed
    ensures Ready(ts, r)
    decreases |ReachSet(Deps(ts), id)|
  {
    if d :| d in ts[id].dependencies && !HasStatus(ts, d, Completed) {
      assert Edge(Deps(ts), id, d);
      ReachSetShrinks(Deps(ts), id, d);
      r := FirstReady(ts, d);
    } else {
      r := id;
    }
  }

  /**
   * What the scheduler node can answer in a run: never an error, never
   * "blocked", and a bare continue only while something is running.
   */
  lemma RunAnswers(node: Node, ts: Tasks, run: Run, i: nat)
    requires Registry(node) && Initial(ts) && IsRun(node, ts, run) && UsedOnce(node, run)
    requires i < |run.events| && run.events[i].Schedule?
    ensures run.events[i].answer.Ok? && run.events[i].answer.value != Transition("blocked")
    ensures run.contexts[i].plan.Some?
    ensures run.events[i].answer.value == Continue(None) ==> WithStatus(run.contexts[i].plan.value, Running) != {}
    ensures run.events[i].answer.value == Transition("complete") <==>
      WithStatus(run.contexts[i].plan.value, Completed) == run.contexts[i].plan.value.Keys
  {
    var c, r := run.contexts[i], run.events[i].answer;
    RunInvariant(node, ts, run, i);
    assert StepAt(node, run, i);
    assert Executes(node, c, run.contexts[i + 1], r);
    AnswersOf(node, c, run.contexts[i + 1], r);
  }

  lemma AnswersOf(node: Node, c: Context, c': Context, r: Answer)
    requires Inv(node, c) && Executes(node, c, c', r)
    ensures r.Ok? && r.value != Transition("blocked")
    ensures r.value == Continue(None) ==> WithStatus(c.plan.value, Running) != {}
    ensures r.value == Transition("complete") <==> WithStatus(c.plan.value, Completed) == c.plan.value.Keys
  {
    var ts := c.plan.value;
    if WithStatus(ts, Failed) != {} {
      var f :| f in WithStatus(ts, Failed);
      assert f in ts.Keys && f !in WithStatus(ts, Completed);
    } else if ReadySet(ts) == {} {
      NoFailureNoBlock(ts);
      if WithStatus(ts, Running) == {} {
        NoStall(ts);
      }
    } else {
      var x :| x in ReadySet(ts);
      assert x in ts.Keys && x !in WithStatus(ts, Completed);
    }
  }

  /**
   * A run that is answered "complete" has started n + 2F tasks: every task of
   * the initial plan once, and two more for each of the F failures, the recovery
   * task and the failed task again.
   */
  lemma CompleteRunStarts(node: Node, ts: Tasks, run: Run, i: nat)
    requires Registry(node) && Initial(ts) && IsRun(node, ts, run) && UsedOnce(node, run) && i < |run.events|
    requires run.events[i] == Schedule(Ok(Transition("complete")))
    ensures run.contexts[i].plan.Some?
    ensures StartCount(run.events[..i]) == |ts.Keys| + 2 * FailCount(run.events[..i])
    ensures |run.contexts[i].plan.value.Keys| == |ts.Keys| + FailCount(run.events[..i])
  {
    RunInvariant(node, ts, run, i);
    RunAnswers(node, ts, run, i);
    var us := run.contexts[i].plan.value;
    forall id | id in us ensures us[id].status == Completed {
      assert id in WithStatus(us, Completed);
    }
    assert WithStatus(us, Failed) == {} && WithStatus(us, Running) == {};
  }

  /** At every point a run has started at most n + 2F tasks. */
  lemma StartsBounded(node: Node, ts: Tasks, run: Run, i: nat)
    requires Registry(node) && Initial(ts) && IsRun(node, ts, run) && UsedOnce(node, run) && i < |run.contexts|
    ensures StartCount(run.events[..i]) <= |ts.Keys| + 2 * FailCount(run.events[..i])
  {
    RunInvariant(node, ts, run, i);
    var us := run.contexts[i].plan.value;
    var started := WithStatus(us, Completed) + WithStatus(us, Running);
    assert WithStatus(us, Completed) * WithStatus(us, Running) == {};
    assert |started| == Load(us);
    SubsetSize(started, us.Keys);
  }
}
