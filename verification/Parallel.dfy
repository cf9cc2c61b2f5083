/** Running subgraphs in parallel: joining their results and merging them into the parent. */
module Parallel {
  import opened Wrappers
  import opened AgentStates
  import opened Graph
  import opened Execution
  import Sorting

  datatype SubgraphResult =
    | Completed(id: string, state: AgentState)
    | Failed(id: string, error: RuntimeError)
    | Cancelled(id: string)

  datatype JoinStrategy = WaitAll | WaitFirst | FailFast | WaitN(n: nat)

  type Merger = (AgentState, AgentState) -> AgentState

  datatype SubgraphConfig = SubgraphConfig(id: string, graph: Compiled, mapper: AgentState -> AgentState,
    merger: Merger)

  // ---- Joining ----

  function CompletedCount(rs: seq<SubgraphResult>): nat {
    if rs == [] then 0 else CompletedCount(rs[..|rs| - 1]) + if rs[|rs| - 1].Completed? then 1 else 0
  }

  /** The strategy is satisfied, or has to give up, once these results are in. */
  predicate Stops(strategy: JoinStrategy, rs: seq<SubgraphResult>) {
    rs != [] && match strategy
      case WaitAll => false
      case WaitFirst => true
      case FailFast => rs[|rs| - 1].Failed?
      case WaitN(n) => rs[|rs| - 1].Failed? || CompletedCount(rs) >= n
  }

  /** `rs` is the shortest beginning of the arrivals at which the strategy stops, or all of them. */
  ghost predicate Joined(strategy: JoinStrategy, arrivals: seq<SubgraphResult>, rs: seq<SubgraphResult>) {
    && rs <= arrivals
    && (forall k :: 0 <= k < |rs| ==> !Stops(strategy, arrivals[..k]))
    && (Stops(strategy, rs) || rs == arrivals)
  }

  method Join(strategy: JoinStrategy, arrivals: seq<SubgraphResult>) returns (rs: seq<SubgraphResult>)
    ensures Joined(strategy, arrivals, rs)
  {
    assert arrivals[..|arrivals|] == arrivals;
    match strategy {
      case WaitAll =>
        return arrivals;
      case WaitFirst =>
        return if arrivals == [] then [] else arrivals[..1];
      case FailFast =>
        for i := 0 to |arrivals|
          invariant forall k :: 0 <= k <= i ==> !Stops(strategy, arrivals[..k])
        {
          assert arrivals[..i + 1][i] == arrivals[i];
          if arrivals[i].Failed? {
            return arrivals[..i + 1];
          }
        }
        return arrivals;
      case WaitN(n) =>
        var completed := 0;
        for i := 0 to |arrivals|
          invariant completed == CompletedCount(arrivals[..i])
          invariant forall k :: 0 <= k <= i ==> !Stops(strategy, arrivals[..k])
        {
          assert arrivals[..i + 1][i] == arrivals[i] && arrivals[..i + 1][..i] == arrivals[..i];
          if arrivals[i].Failed? {
            return arrivals[..i + 1];
          }
          if arrivals[i].Completed? {
            completed := completed + 1;
          }
          if completed >= n {
            return arrivals[..i + 1];
          }
        }
        return arrivals;
    }
  }

  predicate AnyFailed(rs: seq<SubgraphResult>) {
    exists i :: 0 <= i < |rs| && rs[i].Failed?
  }

  /** FailFast and WaitN keep at most one failure, and it is the last result. */
  lemma FailureIsLast(strategy: JoinStrategy, arrivals: seq<SubgraphResult>, rs: seq<SubgraphResult>, i: nat)
    requires strategy.FailFast? || strategy.WaitN?
    requires Joined(strategy, arrivals, rs) && i < |rs| && rs[i].Failed?
    ensures i == |rs| - 1
  {
    assert arrivals[..i + 1][i] == rs[i];
    assert Stops(strategy, arrivals[..i + 1]);
  }

  lemma {:induction false} CountMonotone(rs: seq<SubgraphResult>, k: nat)
    requires k <= |rs|
    ensures CompletedCount(rs[..k]) <= CompletedCount(rs) <= CompletedCount(rs[..k]) + |rs| - k
  {
    if k == |rs| {
      assert rs[..k] == rs;
    } else {
      assert rs[..|rs| - 1][..k] == rs[..k];
      CountMonotone(rs[..|rs| - 1], k);
    }
  }

  /** Without failures WaitN stops at `n` completions, or has them all; WaitN(0) takes one result. */
  lemma WaitNCounts(n: nat, arrivals: seq<SubgraphResult>, rs: seq<SubgraphResult>)
    requires Joined(WaitN(n), arrivals, rs) && !AnyFailed(arrivals)
    ensures n > 0 ==> CompletedCount(rs) == if CompletedCount(arrivals) < n then CompletedCount(arrivals) else n
    ensures n == 0 ==> |rs| == if arrivals == [] then 0 else 1
  {
    var m := |rs|;
    assert rs == arrivals[..m];
    CountMonotone(arrivals, m);
    if m > 0 {
      assert !arrivals[m - 1].Failed?;
      assert !Stops(WaitN(n), arrivals[..m - 1]);
      assert arrivals[..m][..m - 1] == arrivals[..m - 1];
    }
  }

  /** Results that completed, counted. */
  lemma {:induction false} CountsCompleted(rs: seq<SubgraphResult>)
    ensures CompletedCount(rs) == |set i | 0 <= i < |rs| && rs[i].Completed?|
  {
    if rs != [] {
      var n := |rs| - 1;
      CountsCompleted(rs[..n]);
      var before, now := set i | 0 <= i < n && rs[..n][i].Completed?, set i | 0 <= i < |rs| && rs[i].Completed?;
      assert n !in before;
      assert now == before + if rs[n].Completed? then {n} else {};
    }
  }

  /** WaitAll joins every result. */
  lemma WaitAllJoinsAll(arrivals: seq<SubgraphResult>, rs: seq<SubgraphResult>)
    ensures Joined(WaitAll, arrivals, rs) <==> rs == arrivals
  {
  }

  /** WaitFirst joins the first result alone, completed or not. */
  lemma WaitFirstJoinsOne(arrivals: seq<SubgraphResult>, rs: seq<SubgraphResult>)
    ensures Joined(WaitFirst, arrivals, rs) <==> rs == if arrivals == [] then [] else [arrivals[0]]
  {
    if arrivals != [] {
      assert arrivals[..1] == [arrivals[0]];
      assert Stops(WaitFirst, arrivals[..1]);
      if Joined(WaitFirst, arrivals, rs) {
        assert rs == arrivals[..|rs|];
      }
    }
  }

  /** FailFast joins all results up to the first failure, that failure included. */
  lemma FailFastJoins(arrivals: seq<SubgraphResult>, rs: seq<SubgraphResult>)
    ensures Joined(FailFast, arrivals, rs) <==>
      && rs <= arrivals && (forall i :: 0 <= i < |rs| - 1 ==> !arrivals[i].Failed?)
      && (rs == arrivals || (rs != [] && rs[|rs| - 1].Failed?))
  {
    forall k | 0 < k <= |arrivals| ensures Stops(FailFast, arrivals[..k]) <==> arrivals[k - 1].Failed? {}
    if Joined(FailFast, arrivals, rs) {
      forall i | 0 <= i < |rs| - 1 ensures !arrivals[i].Failed? {
        assert !Stops(FailFast, arrivals[..i + 1]);
      }
    }
  }

  /** WaitN joins all results up to the first failure or the n-th completion. */
  lemma WaitNJoins(n: nat, arrivals: seq<SubgraphResult>, rs: seq<SubgraphResult>)
    ensures Joined(WaitN(n), arrivals, rs) <==>
      && rs <= arrivals && (forall i :: 0 <= i < |rs| - 1 ==> !arrivals[i].Failed?)
      && (forall i :: 0 < i < |rs| ==> CompletedCount(arrivals[..i]) < n)
      && (rs == arrivals || (rs != [] && (rs[|rs| - 1].Failed? || CompletedCount(rs) >= n)))
  {
    forall k | 0 < k <= |arrivals|
      ensures Stops(WaitN(n), arrivals[..k]) <==> arrivals[k - 1].Failed? || CompletedCount(arrivals[..k]) >= n {}
    if Joined(WaitN(n), arrivals, rs) {
      forall i | 0 <= i < |rs| - 1 ensures !arrivals[i].Failed? {
        assert !Stops(WaitN(n), arrivals[..i + 1]);
      }
    }
  }

  // ---- Answering ----

  datatype NodeError = ExecutionFailed(id: string, error: RuntimeError)

  function FirstFailure(rs: seq<SubgraphResult>): Option<NodeError> {
    if rs == [] then None
    else if rs[0].Failed? then Some(ExecutionFailed(rs[0].id, rs[0].error))
    else FirstFailure(rs[1..])
  }

  function ConfigFor(configs: seq<SubgraphConfig>, id: string): Option<SubgraphConfig> {
    if configs == [] then None
    else if configs[|configs| - 1].id == id then Some(configs[|configs| - 1])
    else ConfigFor(configs[..|configs| - 1], id)
  }

  /** Merging one result; results that did not complete leave the parent alone. */
  function Merge(configs: seq<SubgraphConfig>, parent: AgentState, r: SubgraphResult): AgentState {
    if r.Completed? && ConfigFor(configs, r.id).Some?
    then ConfigFor(configs, r.id).value.merger(parent, r.state)
    else parent
  }

  function MergeAll(configs: seq<SubgraphConfig>, parent: AgentState, rs: seq<SubgraphResult>): AgentState
    decreases |rs|
  {
    if rs == [] then parent else MergeAll(configs, Merge(configs, parent, rs[0]), rs[1..])
  }

  /** The parent and the error, if any, after these results. */
  function Settled(configs: seq<SubgraphConfig>, parent: AgentState, rs: seq<SubgraphResult>): (Option<NodeError>,
          AgentState) {
    match FirstFailure(rs)
    case Some(e) => (Some(e), parent)
    case None => (None, MergeAll(configs, parent, rs))
  }

  lemma {:induction false} FirstFailureIff(rs: seq<SubgraphResult>)
    ensures FirstFailure(rs).Some? <==> AnyFailed(rs)
  {
    if rs != [] {
      FirstFailureIff(rs[1..]);
      if AnyFailed(rs) && !rs[0].Failed? {
        var i :| 0 <= i < |rs| && rs[i].Failed?;
        assert rs[1..][i - 1].Failed?;
      }
    }
  }

  lemma {:induction false} FirstFailureOfPrefix(rs: seq<SubgraphResult>, all: seq<SubgraphResult>)
    requires rs <= all && AnyFailed(rs)
    ensures FirstFailure(rs) == FirstFailure(all)
    decreases |rs|
  {
    if rs[0] == all[0] && !rs[0].Failed? {
      var i :| 0 <= i < |rs| && rs[i].Failed?;
      assert rs[1..][i - 1].Failed?;
      FirstFailureOfPrefix(rs[1..], all[1..]);
    }
  }

  /** The error is that of the first failed result. */
  lemma {:induction false} FirstFailureAt(rs: seq<SubgraphResult>, i: nat)
    requires i < |rs| && rs[i].Failed? && forall k :: 0 <= k < i ==> !rs[k].Failed?
    ensures FirstFailure(rs) == Some(ExecutionFailed(rs[i].id, rs[i].error))
  {
    if i > 0 {
      FirstFailureAt(rs[1..], i - 1);
    }
  }

  /** Of configurations with the same id the last one merges. */
  lemma {:induction false} LastConfig(configs: seq<SubgraphConfig>, id: string, i: nat)
    requires i < |configs| && configs[i].id == id && forall k :: i < k < |configs| ==> configs[k].id != id
    ensures ConfigFor(configs, id) == Some(configs[i])
  {
    if i < |configs| - 1 {
      LastConfig(configs[..|configs| - 1], id, i);
    }
  }

  /** One more result is merged last, by its configuration's merger; what did not complete is left out. */
  lemma MergesNext(configs: seq<SubgraphConfig>, parent: AgentState, rs: seq<SubgraphResult>, x: SubgraphResult, i: nat)
    requires i < |configs| && configs[i].id == x.id && forall k :: i < k < |configs| ==> configs[k].id != x.id
    ensures MergeAll(configs, parent, rs + [x]) ==
      var before := MergeAll(configs, parent, rs);
      if x.Completed? then configs[i].merger(before, x.state) else before
  {
    LastConfig(configs, x.id, i);
    MergeConcat(configs, parent, rs, [x]);
  }

  /** FailFast only saves time: it answers as WaitAll does on the same arrivals. */
  lemma FailFastAgrees(configs: seq<SubgraphConfig>, parent: AgentState, arrivals: seq<SubgraphResult>,
          rs: seq<SubgraphResult>)
    requires Joined(FailFast, arrivals, rs)
    ensures Settled(configs, parent, rs) == Settled(configs, parent, arrivals)
  {
    if rs != arrivals {
      assert rs[|rs| - 1].Failed?;
      FirstFailureOfPrefix(rs, arrivals);
      FirstFailureIff(rs);
    }
  }

  // ---- The order of completion ----

  /** Merging these two results in either order is the same, whatever the parent. */
  ghost predicate Commute(configs: seq<SubgraphConfig>, x: SubgraphResult, y: SubgraphResult) {
    forall s :: Merge(configs, Merge(configs, s, x), y) == Merge(configs, Merge(configs, s, y), x)
  }

  ghost predicate AllCommute(configs: seq<SubgraphConfig>, rs: seq<SubgraphResult>) {
    forall x, y :: x in rs && y in rs ==> Commute(configs, x, y)
  }

  /** A result that commutes with those before it may as well come first. */
  lemma {:induction false} MergeFirst(configs: seq<SubgraphConfig>, parent: AgentState, before: seq<SubgraphResult>,
          x: SubgraphResult, after: seq<SubgraphResult>)
    requires forall y :: y in before ==> Commute(configs, x, y)
    ensures MergeAll(configs, parent, before + ([x] + after)) ==
      MergeAll(configs, Merge(configs, parent, x), before + after)
    decreases |before|
  {
    if before == [] {
      assert before + ([x] + after) == [x] + after && ([x] + after)[1..] == after && before + after == after;
    } else {
      var y := before[0];
      assert (before + ([x] + after))[1..] == before[1..] + ([x] + after);
      assert (before + after)[1..] == before[1..] + after;
      MergeFirst(configs, Merge(configs, parent, y), before[1..], x, after);
      assert Commute(configs, x, y);
    }
  }

  /** Results that commute give the same parent in every order of completion. */
  lemma {:induction false} OrderIrrelevant(configs: seq<SubgraphConfig>, parent: AgentState, a: seq<SubgraphResult>,
          b: seq<SubgraphResult>)
    requires multiset(a) == multiset(b) && AllCommute(configs, a)
    ensures MergeAll(configs, parent, a) == MergeAll(configs, parent, b)
    decreases |a|
  {
    if a == [] {
      assert |multiset(b)| == |multiset(a)|;
      assert b == [];
    } else {
      var before, after := Sorting.HeadOf(a, b);
      CommuteWithin(configs, a, b, before);
      MergeFirst(configs, parent, before, a[0], after);
      OrderIrrelevant(configs, Merge(configs, parent, a[0]), a[1..], before + after);
    }
  }

  lemma CommuteWithin(configs: seq<SubgraphConfig>, a: seq<SubgraphResult>, b: seq<SubgraphResult>,
          part: seq<SubgraphResult>)
    requires multiset(a) == multiset(b) && AllCommute(configs, a) && a != [] && part <= b
    ensures forall y :: y in part ==> Commute(configs, a[0], y)
  {
    forall y | y in part ensures Commute(configs, a[0], y) {
      assert y in multiset(b);
      assert y in a && a[0] in a;
    }
  }

  // ---- The default mergers ----

  /** Stores the child's context in the parent's under the subgraph's id. */
  function NamespaceMerger(id: string): Merger {
    (parent: AgentState, child: AgentState) => parent.SetContext(id, Object(child.context))
  }

  ghost predicate DefaultMergers(configs: seq<SubgraphConfig>) {
    forall i :: 0 <= i < |configs| ==> configs[i].merger == NamespaceMerger(configs[i].id)
  }

  ghost predicate Known(configs: seq<SubgraphConfig>, id: string) {
    exists i :: 0 <= i < |configs| && configs[i].id == id
  }

  lemma {:induction false} ConfigForKnown(configs: seq<SubgraphConfig>, id: string)
    requires Known(configs, id)
    ensures ConfigFor(configs, id).Some? && ConfigFor(configs, id).value.id == id &&
      ConfigFor(configs, id).value in configs
  {
    if configs[|configs| - 1].id != id {
      var i :| 0 <= i < |configs| && configs[i].id == id;
      assert configs[..|configs| - 1][i].id == id;
      ConfigForKnown(configs[..|configs| - 1], id);
    }
  }

  /** With the default mergers a completed result sets its own key and nothing else. */
  lemma MergesUnderId(configs: seq<SubgraphConfig>, s: AgentState, r: SubgraphResult)
    requires DefaultMergers(configs) && Known(configs, r.id)
    ensures Merge(configs, s, r) == if r.Completed? then s.SetContext(r.id, Object(r.state.context)) else s
  {
    ConfigForKnown(configs, r.id);
  }

  /** No two completed results bring different contexts under one id. */
  predicate Consistent(x: SubgraphResult, y: SubgraphResult) {
    x.Completed? && y.Completed? && x.id == y.id ==> x.state.context == y.state.context
  }

  lemma DefaultsCommuteIff(configs: seq<SubgraphConfig>, x: SubgraphResult, y: SubgraphResult)
    requires DefaultMergers(configs) && Known(configs, x.id) && Known(configs, y.id)
    ensures Commute(configs, x, y) <==> Consistent(x, y)
  {
    forall s
      ensures Consistent(x, y) ==> Merge(configs, Merge(configs, s, x), y) == Merge(configs, Merge(configs, s, y), x)
    {
      MergesUnderId(configs, s, x);
      MergesUnderId(configs, s, y);
      MergesUnderId(configs, Merge(configs, s, x), y);
      MergesUnderId(configs, Merge(configs, s, y), x);
    }
    var s := AgentState(map[], 0, false, [], []);
    MergesUnderId(configs, s, x);
    MergesUnderId(configs, s, y);
    MergesUnderId(configs, Merge(configs, s, x), y);
    MergesUnderId(configs, Merge(configs, s, y), x);
    if Commute(configs, x, y) && x.Completed? && y.Completed? && x.id == y.id {
      assert Merge(configs, Merge(configs, s, x), y).context[x.id] == Object(y.state.context);
      assert Merge(configs, Merge(configs, s, y), x).context[x.id] == Object(x.state.context);
    }
  }

  ghost predicate AllKnown(configs: seq<SubgraphConfig>, rs: seq<SubgraphResult>) {
    forall r :: r in rs ==> Known(configs, r.id)
  }

  ghost predicate AllConsistent(rs: seq<SubgraphResult>) {
    forall i, j :: 0 <= i < j < |rs| ==> Consistent(rs[i], rs[j])
  }

  /** The merged parent is the same for every order of completion. */
  ghost predicate OrderFree(configs: seq<SubgraphConfig>, parent: AgentState, rs: seq<SubgraphResult>) {
    forall others ::
      multiset(others) == multiset(rs) ==> MergeAll(configs, parent, others) == MergeAll(configs, parent, rs)
  }

  /** With the default mergers, the order is irrelevant exactly when no id brings two contexts. */
  lemma OrderFreeIff(configs: seq<SubgraphConfig>, parent: AgentState, rs: seq<SubgraphResult>)
    requires DefaultMergers(configs) && AllKnown(configs, rs)
    ensures OrderFree(configs, parent, rs) <==> AllConsistent(rs)
  {
    if AllConsistent(rs) {
      forall x, y | x in rs && y in rs ensures Commute(configs, x, y) {
        var i :| 0 <= i < |rs| && rs[i] == x;
        var j :| 0 <= j < |rs| && rs[j] == y;
        assert Consistent(rs[i], rs[j]) && Consistent(rs[j], rs[i]);
        DefaultsCommuteIff(configs, x, y);
      }
      forall others | multiset(others) == multiset(rs)
        ensures MergeAll(configs, parent, others) == MergeAll(configs, parent, rs)
      {
        OrderIrrelevant(configs, parent, rs, others);
      }
    } else {
      var i, j :| 0 <= i < j < |rs| && !Consistent(rs[i], rs[j]);
      LastTwo(rs, i, j);
      OrdersDiffer(configs, parent, rs, rs[..i] + rs[i + 1..j] + rs[j + 1..], rs[i], rs[j]);
    }
  }

  lemma {:induction false} MergeConcat(configs: seq<SubgraphConfig>, parent: AgentState, a: seq<SubgraphResult>,
          b: seq<SubgraphResult>)
    ensures MergeAll(configs, parent, a + b) == MergeAll(configs, MergeAll(configs, parent, a), b)
    decreases |a|
  {
    if a == [] {
      assert a + b == b;
    } else {
      assert (a + b)[1..] == a[1..] + b;
      MergeConcat(configs, Merge(configs, parent, a[0]), a[1..], b);
    }
  }

  lemma MergeLast(configs: seq<SubgraphConfig>, parent: AgentState, before: seq<SubgraphResult>, r: SubgraphResult)
    requires DefaultMergers(configs) && Known(configs, r.id) && r.Completed?
    ensures r.id in MergeAll(configs, parent, before + [r]).context
    ensures MergeAll(configs, parent, before + [r]).context[r.id] == Object(r.state.context)
  {
    MergeConcat(configs, parent, before, [r]);
    MergesUnderId(configs, MergeAll(configs, parent, before), r);
  }

  lemma LastWins(configs: seq<SubgraphConfig>, parent: AgentState, rest: seq<SubgraphResult>, x: SubgraphResult,
          y: SubgraphResult)
    requires DefaultMergers(configs) && Known(configs, x.id) && Known(configs, y.id) && !Consistent(x, y)
    ensures MergeAll(configs, parent, rest + [x] + [y]) != MergeAll(configs, parent, rest + [y] + [x])
  {
    MergeLast(configs, parent, rest + [x], y);
    MergeLast(configs, parent, rest + [y], x);
  }

  /** Two results with one id and different contexts: whichever comes last wins. */
  lemma OrdersDiffer(configs: seq<SubgraphConfig>, parent: AgentState, rs: seq<SubgraphResult>,
          rest: seq<SubgraphResult>, x: SubgraphResult, y: SubgraphResult)
    requires DefaultMergers(configs) && Known(configs, x.id) && Known(configs, y.id) && !Consistent(x, y)
    requires multiset(rest + [x] + [y]) == multiset(rs) == multiset(rest + [y] + [x])
    ensures !OrderFree(configs, parent, rs)
  {
    LastWins(configs, parent, rest, x, y);
  }

  lemma LastTwo(rs: seq<SubgraphResult>, i: nat, j: nat)
    requires i < j < |rs|
    ensures var rest := rs[..i] + rs[i + 1..j] + rs[j + 1..];
      multiset(rest + [rs[i]] + [rs[j]]) == multiset(rs) == multiset(rest + [rs[j]] + [rs[i]])
  {
    assert rs == rs[..i] + [rs[i]] + rs[i + 1..j] + [rs[j]] + rs[j + 1..];
  }

  // ---- The node ----

  function ResultOf(c: SubgraphConfig, parent: AgentState, max: nat): SubgraphResult {
    match Answer(Run(c.graph, Config(c.graph.entryPoint, c.mapper(parent)), max), max)
    case Ok(s) => SubgraphResult.Completed(c.id, s)
    case Err(e) => SubgraphResult.Failed(c.id, e)
  }

  /** The subgraphs in an order in which they may happen to finish. */
  ghost predicate IsOrder(order: seq<SubgraphConfig>, configs: seq<SubgraphConfig>) {
    multiset(order) == multiset(configs)
  }

  /** The results as they come in. */
  function Arrivals(order: seq<SubgraphConfig>, parent: AgentState, max: nat): seq<SubgraphResult> {
    if order == [] then [] else [ResultOf(order[0], parent, max)] + Arrivals(order[1..], parent, max)
  }

  lemma {:induction false} ArrivalsConcat(a: seq<SubgraphConfig>, b: seq<SubgraphConfig>, parent: AgentState, max: nat)
    ensures Arrivals(a + b, parent, max) == Arrivals(a, parent, max) + Arrivals(b, parent, max)
  {
    if a == [] {
      assert a + b == b;
    } else {
      assert (a + b)[1..] == a[1..] + b;
      ArrivalsConcat(a[1..], b, parent, max);
    }
  }

  lemma ArrivalsWith(before: seq<SubgraphConfig>, c: SubgraphConfig, after: seq<SubgraphConfig>, parent: AgentState,
          max: nat)
    ensures multiset(Arrivals(before + ([c] + after), parent, max))
         == multiset{ResultOf(c, parent, max)} + multiset(Arrivals(before + after, parent, max))
  {
    ArrivalsConcat(before, after, parent, max);
    ArrivalsConcat(before, [c] + after, parent, max);
    assert ([c] + after)[1..] == after;
  }

  lemma {:induction false} ArrivalsPermute(a: seq<SubgraphConfig>, b: seq<SubgraphConfig>, parent: AgentState, max: nat)
    requires multiset(a) == multiset(b)
    ensures multiset(Arrivals(a, parent, max)) == multiset(Arrivals(b, parent, max))
    decreases |a|
  {
    if a == [] {
      assert |multiset(b)| == |multiset(a)|;
      assert b == [];
    } else {
      var before, after := Sorting.HeadOf(a, b);
      ArrivalsPermute(a[1..], before + after, parent, max);
      ArrivalsWith([], a[0], a[1..], parent, max);
      ArrivalsWith(before, a[0], after, parent, max);
      assert a == [] + ([a[0]] + a[1..]) && [] + a[1..] == a[1..];
    }
  }

  ghost predicate DistinctIds(configs: seq<SubgraphConfig>) {
    forall i, j :: 0 <= i < j < |configs| ==> configs[i].id != configs[j].id
  }

  lemma {:induction false} ArrivalsAt(order: seq<SubgraphConfig>, parent: AgentState, max: nat)
    ensures |Arrivals(order, parent, max)| == |order|
    ensures forall k :: 0 <= k < |order| ==> Arrivals(order, parent, max)[k] == ResultOf(order[k], parent, max)
  {
    if order != [] {
      ArrivalsAt(order[1..], parent, max);
    }
  }

  /** Distinct subgraphs bring distinct ids, all of them known. */
  lemma ArrivalsConsistent(configs: seq<SubgraphConfig>, parent: AgentState, max: nat)
    requires DistinctIds(configs)
    ensures AllConsistent(Arrivals(configs, parent, max)) && AllKnown(configs, Arrivals(configs, parent, max))
  {
    ArrivalsAt(configs, parent, max);
    var rs := Arrivals(configs, parent, max);
    forall r | r in rs ensures Known(configs, r.id) {
      var k :| 0 <= k < |rs| && rs[k] == r;
      assert configs[k].id == r.id;
    }
  }

  /** WaitAll with distinct subgraphs and default mergers does not depend on the order of completion. */
  lemma WaitAllDeterministic(configs: seq<SubgraphConfig>, parent: AgentState, max: nat, order: seq<SubgraphConfig>)
    requires DistinctIds(configs) && DefaultMergers(configs) && IsOrder(order, configs)
    ensures var a, b := Settled(configs, parent, Arrivals(order, parent, max)),
      Settled(configs, parent, Arrivals(configs, parent, max));
      a.0.Some? == b.0.Some? && a.1 == b.1
  {
    var a, b := Arrivals(order, parent, max), Arrivals(configs, parent, max);
    ArrivalsPermute(order, configs, parent, max);
    ArrivalsConsistent(configs, parent, max);
    OrderFreeIff(configs, parent, b);
    FirstFailureIff(a);
    FirstFailureIff(b);
    SameFailures(a, b);
  }

  lemma SameFailures(a: seq<SubgraphResult>, b: seq<SubgraphResult>)
    requires multiset(a) == multiset(b)
    ensures AnyFailed(a) <==> AnyFailed(b)
  {
    assert forall r :: r in a <==> r in multiset(a);
    assert forall r :: r in b <==> r in multiset(b);
    if AnyFailed(a) {
      var i :| 0 <= i < |a| && a[i].Failed?;
      assert a[i] in b;
    }
    if AnyFailed(b) {
      var i :| 0 <= i < |b| && b[i].Failed?;
      assert b[i] in a;
    }
  }

  // ---- The node, end to end ----

  /** The subgraph, started at its entry point from its mapped state, completes in this state. */
  ghost predicate Finishes(c: SubgraphConfig, parent: AgentState, max: nat, s: AgentState) {
    Run(c.graph, Config(c.graph.entryPoint, c.mapper(parent)), max) == Outcome.Completed(s)
  }

  ghost predicate FinishesSomehow(c: SubgraphConfig, parent: AgentState, max: nat) {
    exists s :: Finishes(c, parent, max, s)
  }

  lemma ResultTells(c: SubgraphConfig, parent: AgentState, max: nat)
    ensures ResultOf(c, parent, max).id == c.id && !ResultOf(c, parent, max).Cancelled?
    ensures forall s :: ResultOf(c, parent, max) == SubgraphResult.Completed(c.id, s) <==> Finishes(c, parent, max, s)
    ensures ResultOf(c, parent, max).Failed? <==> !FinishesSomehow(c, parent, max)
  {
    var r := ResultOf(c, parent, max);
    if r.Completed? {
      assert Finishes(c, parent, max, r.state);
    }
  }

  /** The key of the context holds the final context of the subgraph with that id. */
  ghost predicate HoldsChild(c: SubgraphConfig, parent: AgentState, max: nat, merged: AgentState) {
    exists s :: Finishes(c, parent, max, s) && c.id in merged.context && merged.context[c.id] == Object(s.context)
  }

  ghost predicate AllFinish(configs: seq<SubgraphConfig>, parent: AgentState, max: nat) {
    forall i :: 0 <= i < |configs| ==> FinishesSomehow(configs[i], parent, max)
  }

  ghost predicate HoldsChildren(configs: seq<SubgraphConfig>, parent: AgentState, max: nat, merged: AgentState) {
    forall i :: 0 <= i < |configs| ==> HoldsChild(configs[i], parent, max, merged)
  }

  ghost predicate NoOtherKey(configs: seq<SubgraphConfig>, parent: AgentState, merged: AgentState) {
    && merged.(context := parent.context) == parent
    && forall k :: (forall i :: 0 <= i < |configs| ==> configs[i].id != k) ==>
      (k in merged.context <==> k in parent.context)
      && (k in parent.context ==> merged.context[k] == parent.context[k])
  }

  ghost predicate AllConfigured(configs: seq<SubgraphConfig>, order: seq<SubgraphConfig>) {
    forall i :: 0 <= i < |order| ==> Known(configs, order[i].id)
  }

  /** The parent after the results in this order. */
  function MergedFrom(configs: seq<SubgraphConfig>, order: seq<SubgraphConfig>, parent: AgentState,
          max: nat): AgentState {
    MergeAll(configs, parent, Arrivals(order, parent, max))
  }

  lemma AllButLast(configs: seq<SubgraphConfig>, order: seq<SubgraphConfig>, n: nat, parent: AgentState, max: nat)
    requires |order| == n + 1 && DistinctIds(order) && AllConfigured(configs, order) && AllFinish(order, parent, max)
    ensures DistinctIds(order[..n]) && AllConfigured(configs, order[..n]) && AllFinish(order[..n], parent, max)
    ensures Known(configs, order[n].id) && FinishesSomehow(order[n], parent, max)
  {
  }

  /** Merging completed subgraphs with distinct ids stores each one's context under its id and nothing else. */
  lemma {:induction false} MergedChildren(configs: seq<SubgraphConfig>, order: seq<SubgraphConfig>, parent: AgentState,
          max: nat)
    requires DistinctIds(order) && DefaultMergers(configs)
    requires AllConfigured(configs, order) && AllFinish(order, parent, max)
    ensures HoldsChildren(order, parent, max, MergedFrom(configs, order, parent, max))
    ensures NoOtherKey(order, parent, MergedFrom(configs, order, parent, max))
    decreases |order|
  {
    if order != [] {
      var n := |order| - 1;
      AllButLast(configs, order, n, parent, max);
      MergedChildren(configs, order[..n], parent, max);
      var s := LastChild(configs, order, n, parent, max);
      OneMoreChild(order, n, parent, max, MergedFrom(configs, order[..n], parent, max), s);
    }
  }

  /** The last of the subgraphs is merged into what the others have left. */
  lemma LastChild(configs: seq<SubgraphConfig>, order: seq<SubgraphConfig>, n: nat, parent: AgentState, max: nat)
    returns (s: AgentState)
    requires DefaultMergers(configs) && |order| == n + 1
    requires Known(configs, order[n].id) && FinishesSomehow(order[n], parent, max)
    ensures Finishes(order[n], parent, max, s)
    ensures MergedFrom(configs, order, parent, max) ==
      MergedFrom(configs, order[..n], parent, max).SetContext(order[n].id, Object(s.context))
  {
    var c := order[n];
    var r := ResultOf(c, parent, max);
    ArrivalsConcat(order[..n], [c], parent, max);
    assert order == order[..n] + [c] && Arrivals([c], parent, max) == [r];
    MergeConcat(configs, parent, Arrivals(order[..n], parent, max), [r]);
    ResultTells(c, parent, max);
    MergesUnderId(configs, MergeAll(configs, parent, Arrivals(order[..n], parent, max)), r);
    s := r.state;
  }

  lemma OneMoreChild(order: seq<SubgraphConfig>, n: nat, parent: AgentState, max: nat, before: AgentState,
          s: AgentState)
    requires |order| == n + 1 && DistinctIds(order) && Finishes(order[n], parent, max, s)
    requires HoldsChildren(order[..n], parent, max, before) && NoOtherKey(order[..n], parent, before)
    ensures HoldsChildren(order, parent, max, before.SetContext(order[n].id, Object(s.context)))
    ensures NoOtherKey(order, parent, before.SetContext(order[n].id, Object(s.context)))
  {
    OneMoreKey(order, n, parent, before, Object(s.context));
    forall i | 0 <= i < n ensures HoldsChild(order[i], parent, max, before.SetContext(order[n].id, Object(s.context))) {
      assert order[..n][i] == order[i];
      StillHeld(order[i], parent, max, before, order[n].id, Object(s.context));
    }
  }

  lemma OneMoreKey(order: seq<SubgraphConfig>, n: nat, parent: AgentState, before: AgentState, value: Json)
    requires |order| == n + 1 && NoOtherKey(order[..n], parent, before)
    ensures NoOtherKey(order, parent, before.SetContext(order[n].id, value))
  {
  }

  lemma StillHeld(c: SubgraphConfig, parent: AgentState, max: nat, before: AgentState, id: string, value: Json)
    requires HoldsChild(c, parent, max, before) && c.id != id
    ensures HoldsChild(c, parent, max, before.SetContext(id, value))
  {
    var t :| Finishes(c, parent, max, t) && c.id in before.context && before.context[c.id] == Object(t.context);
  }

  lemma FailsUnlessAllFinish(configs: seq<SubgraphConfig>, parent: AgentState, max: nat)
    ensures FirstFailure(Arrivals(configs, parent, max)).None? <==> AllFinish(configs, parent, max)
  {
    var rs := Arrivals(configs, parent, max);
    ArrivalsAt(configs, parent, max);
    FirstFailureIff(rs);
    forall i | 0 <= i < |configs| ensures rs[i].Failed? <==> !FinishesSomehow(configs[i], parent, max) {
      ResultTells(configs[i], parent, max);
    }
  }

  /**
   * WaitAll over distinct subgraphs with default mergers, for every order of
   * completion: an error and an untouched parent unless all of them complete,
   * and else each one's final context under its id, and nothing else changed.
   */
  lemma WaitAllOutcome(configs: seq<SubgraphConfig>, parent: AgentState, max: nat, order: seq<SubgraphConfig>,
          rs: seq<SubgraphResult>)
    requires DistinctIds(configs) && DefaultMergers(configs) && IsOrder(order, configs)
    requires Joined(WaitAll, Arrivals(order, parent, max), rs)
    ensures var (failure, merged) := Settled(configs, parent, rs);
      && (failure.None? <==> AllFinish(configs, parent, max))
      && if AllFinish(configs, parent, max)
         then HoldsChildren(configs, parent, max, merged) && NoOtherKey(configs, parent, merged)
         else merged == parent
  {
    WaitAllJoinsAll(Arrivals(order, parent, max), rs);
    WaitAllDeterministic(configs, parent, max, order);
    FailsUnlessAllFinish(configs, parent, max);
    if AllFinish(configs, parent, max) {
      assert AllConfigured(configs, configs);
      MergedChildren(configs, configs, parent, max);
    }
  }

  class ParallelSubgraphs {
    const subgraphs: seq<SubgraphConfig>
    const maxIterations: nat
    const strategy: JoinStrategy
    const nextNode: Option<string>

    constructor (subgraphs: seq<SubgraphConfig>, maxIterations: nat, strategy: JoinStrategy, nextNode: Option<string>)
      ensures this.subgraphs == subgraphs && this.maxIterations == maxIterations
      ensures this.strategy == strategy && this.nextNode == nextNode
    {
      this.subgraphs := subgraphs;
      this.maxIterations := maxIterations;
      this.strategy := strategy;
      this.nextNode := nextNode;
    }

    ghost predicate Valid() {
      forall i :: 0 <= i < |subgraphs| ==> Indexed(subgraphs[i].graph)
    }

    function Continuation(): NodeOutput {
      match nextNode
      case Some(next) => Continue(Some(next))
      case None => Finish
    }

    method RunOne(c: SubgraphConfig, parent: AgentState) returns (result: SubgraphResult)
      requires Indexed(c.graph)
      ensures result == ResultOf(c, parent, maxIterations)
    {
      var runner := new GraphRunner(c.graph, maxIterations);
      var r := runner.Invoke(c.mapper(parent));
      match r {
        case Ok(s) => return SubgraphResult.Completed(c.id, s);
        case Err(e) => return SubgraphResult.Failed(c.id, e);
      }
    }

    /** Runs each subgraph on its own copy of the parent; results arrive in the given order. */
    method RunAll(parent: AgentState, order: seq<SubgraphConfig>) returns (arrivals: seq<SubgraphResult>)
      requires forall k :: 0 <= k < |order| ==> Indexed(order[k].graph)
      ensures arrivals == Arrivals(order, parent, maxIterations)
    {
      arrivals := [];
      for k := 0 to |order|
        invariant arrivals + Arrivals(order[k..], parent, maxIterations) == Arrivals(order, parent, maxIterations)
      {
        assert order[k..][1..] == order[k + 1..];
        var result := RunOne(order[k], parent);
        arrivals := arrivals + [result];
      }
    }

    method MergeInto(shared: SharedState, rs: seq<SubgraphResult>)
      modifies shared
      ensures shared.value == MergeAll(subgraphs, old(shared.value), rs)
    {
      for i := 0 to |rs|
        invariant MergeAll(subgraphs, shared.value, rs[i..]) == MergeAll(subgraphs, old(shared.value), rs)
      {
        assert rs[i..][1..] == rs[i + 1..];
        shared.value := Merge(subgraphs, shared.value, rs[i]);
      }
    }

    /** The results in hand decide: any failure leaves the parent untouched, else all are merged. */
    method Execute(shared: SharedState, order: seq<SubgraphConfig>)
      returns (r: Result<NodeOutput, NodeError>, ghost rs: seq<SubgraphResult>)
      requires Valid() && IsOrder(order, subgraphs)
      modifies shared
      ensures Joined(strategy, Arrivals(order, old(shared.value), maxIterations), rs)
      ensures shared.value == Settled(subgraphs, old(shared.value), rs).1
      ensures r == match Settled(subgraphs, old(shared.value), rs).0
                   case Some(e) => Err(e)
                   case None => Ok(Continuation())
      ensures AnyFailed(rs) ==> r.Err? && shared.value == old(shared.value)
      ensures r.Ok? ==> r.value == if nextNode.Some? then Continue(Some(nextNode.value)) else Finish
      ensures strategy.WaitAll? && DistinctIds(subgraphs) && DefaultMergers(subgraphs) ==>
        && (r.Ok? <==> AllFinish(subgraphs, old(shared.value), maxIterations))
        && (r.Ok? ==> HoldsChildren(subgraphs, old(shared.value), maxIterations, shared.value))
        && (r.Ok? ==> NoOtherKey(subgraphs, old(shared.value), shared.value))
        && (r.Err? ==> shared.value == old(shared.value))
    {
      if |subgraphs| == 0 {
        assert |multiset(order)| == |multiset(subgraphs)|;
        rs := [];
        return Ok(Continuation()), rs;
      }
      var parent := shared.value;
      OrderedKnown(order, subgraphs);
      var arrivals := RunAll(parent, order);
      var results := Join(strategy, arrivals);
      rs := results;
      FirstFailureIff(rs);
      if strategy.WaitAll? && DistinctIds(subgraphs) && DefaultMergers(subgraphs) {
        WaitAllOutcome(subgraphs, parent, maxIterations, order, rs);
      }
      var failure := FirstFailure(results);
      if failure.Some? {
        return Err(failure.value), rs;
      }
      MergeInto(shared, results);
      return Ok(Continuation()), rs;
    }
  }

  lemma OrderedKnown(order: seq<SubgraphConfig>, configs: seq<SubgraphConfig>)
    requires IsOrder(order, configs)
    ensures forall k :: 0 <= k < |order| ==> exists i :: 0 <= i < |configs| && configs[i] == order[k]
  {
    forall k | 0 <= k < |order| ensures exists i :: 0 <= i < |configs| && configs[i] == order[k] {
      assert order[k] in multiset(order);
      assert order[k] in multiset(configs);
    }
  }
}
