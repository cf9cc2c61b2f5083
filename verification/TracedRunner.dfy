/** Transition records, the runner that writes them, and replaying them. */
module TracedRunner {
  import opened Wrappers
  import opened AgentStates
  import opened Graph
  import opened Execution

  datatype RunContext = RunContext(runId: string, threadId: string, seed: Option<nat>, tags: seq<string>)

  function TagValues(tags: seq<string>): seq<Json> {
    seq(|tags|, i requires 0 <= i < |tags| => Text(tags[i]))
  }

  function AttachRunContext(s: AgentState, ctx: RunContext): AgentState {
    var s := s.SetContext("run_id", Text(ctx.runId)).SetContext("thread_id", Text(ctx.threadId));
    var s := if ctx.seed.Some? then s.SetContext("run_seed", Number(ctx.seed.value)) else s;
    if ctx.tags != [] then s.SetContext("run_tags", Array(TagValues(ctx.tags))) else s
  }

  /** The run's ids are always there, seed and tags when given; nothing else in the context changes. */
  lemma AttachSetsRunKeys(s: AgentState, ctx: RunContext)
    ensures var c := AttachRunContext(s, ctx).context;
      && "run_id" in c && c["run_id"] == Text(ctx.runId) && "thread_id" in c && c["thread_id"] == Text(ctx.threadId)
      && (ctx.seed.Some? ==> "run_seed" in c && c["run_seed"] == Number(ctx.seed.value))
      && (ctx.tags != [] ==> "run_tags" in c && ListsTags(c["run_tags"], ctx.tags))
    ensures forall k :: k !in {"run_id", "thread_id", "run_seed", "run_tags"} ==>
      At(AttachRunContext(s, ctx).context, k) == At(s.context, k)
    ensures AttachRunContext(s, ctx).(context := s.context) == s
  {
    assert |"run_id"| == 6 && |"thread_id"| == 9 && |"run_seed"| == 8 && |"run_tags"| == 8;
    assert "run_seed"[4] != "run_tags"[4];
  }

  ghost predicate ListsTags(value: Json, tags: seq<string>) {
    && value.Array? && |value.items| == |tags|
    && forall i :: 0 <= i < |tags| ==> value.items[i] == Text(tags[i])
  }

  function At(context: map<string, Json>, key: string): Option<Json> {
    if key in context then Some(context[key]) else None
  }

  // ---- Records ----

  datatype TransitionRecord = TransitionRecord(
    runId: string,
    iteration: nat,
    nodeId: string,
    outputKind: string,
    nextNode: Option<string>,
    outputTarget: Option<string>,
    stateIteration: nat)

  function OutputKindLabel(output: NodeOutput): string {
    match output
    case Finish => "finish"
    case Continue(None) => "continue"
    case Continue(Some(_)) => "continue_to"
    case Route(_) => "route"
    case Transition(_) => "transition"
  }

  function FromStep(runId: string, iteration: nat, node: string, output: NodeOutput, next: Option<string>,
          stateIteration: nat): TransitionRecord {
    TransitionRecord(runId, iteration, node, OutputKindLabel(output), next, output.Target(), stateIteration)
  }

  function OutputFromRecord(r: TransitionRecord): NodeOutput {
    if r.outputKind == "finish" then Finish
    else if r.outputKind == "continue" then Continue(None)
    else if r.outputKind == "continue_to" then Continue(r.nextNode)
    else if r.outputKind == "route" then
      if r.outputTarget.Some? then Route(r.outputTarget.value)
      else if r.nextNode.Some? then Route(r.nextNode.value)
      else Continue(None)
    else if r.outputKind == "transition" then
      Transition(if r.outputTarget.Some? then r.outputTarget.value else "unknown")
    else Continue(None)
  }

  /** What a runner records of a step whose output led from `node` with state `s`. */
  function Recorded(g: Compiled, runId: string, i: nat, node: string, s: AgentState,
          output: NodeOutput): TransitionRecord {
    FromStep(runId, i, node, output, UnlessEnd(Resolve(g, node, s, output)), s.iteration)
  }

  lemma LabelsDiffer(o: NodeOutput, p: NodeOutput)
    ensures OutputKindLabel(o) == OutputKindLabel(p) <==> (
      || (o.Finish? && p.Finish?)
      || (o.Route? && p.Route?)
      || (o.Transition? && p.Transition?)
      || (o.Continue? && p.Continue? && o.next.Some? == p.next.Some?))
  {
    assert |"finish"| == 6 && |"continue"| == 8 && |"continue_to"| == 11 && |"route"| == 5 && |"transition"| == 10;
  }

  /** The names under which outputs are recorded, and the target that is kept beside them. */
  lemma RecordNames(g: Compiled, runId: string, i: nat, node: string, s: AgentState, output: NodeOutput)
    ensures var r := Recorded(g, runId, i, node, s, output);
      match output
      case Finish => r.outputKind == "finish" && r.outputTarget == None
      case Continue(None) => r.outputKind == "continue" && r.outputTarget == None
      case Continue(Some(target)) => r.outputKind == "continue_to" && r.outputTarget == Some(target)
      case Route(target) => r.outputKind == "route" && r.outputTarget == Some(target)
      case Transition(key) => r.outputKind == "transition" && r.outputTarget == Some(key)
  {
  }

  /** A record gives back its output, except for an explicit jump to END. */
  lemma OutputRoundTrip(g: Compiled, runId: string, i: nat, node: string, s: AgentState, output: NodeOutput)
    ensures OutputFromRecord(Recorded(g, runId, i, node, s, output)) == output <==> output != Continue(Some(END))
  {
    LabelsDiffer(output, Finish);
    LabelsDiffer(output, Continue(None));
    LabelsDiffer(output, Continue(Some(END)));
    LabelsDiffer(output, Route(END));
    LabelsDiffer(output, Transition(END));
  }

  // ---- Traced runs ----

  /** A validator answers with the reason why a state is invalid, if it is. */
  type Validator = AgentState -> Option<string>

  function Check(v: Option<Validator>, s: AgentState): Option<string> {
    if v.Some? then v.value(s) else None
  }

  function CheckedStep(g: Compiled, v: Option<Validator>, c: Config): Effect {
    var e := Step(g, c);
    if e.Moved? && Check(v, e.next.state).Some? then Halted(InvalidState(Check(v, e.next.state).value)) else e
  }

  function CheckedRun(g: Compiled, v: Option<Validator>, c: Config, fuel: nat): Outcome
    decreases fuel
  {
    if c.node == END then Completed(c.state)
    else if fuel == 0 then OutOfFuel(c)
    else match CheckedStep(g, v, c)
      case Halted(e) => Stopped(e)
      case Moved(next, _) => CheckedRun(g, v, next, fuel - 1)
  }

  /** The records of a run that has executed `i` nodes and stands at `c`. */
  function Records(g: Compiled, v: Option<Validator>, runId: string, c: Config, fuel: nat,
          i: nat): seq<TransitionRecord>
    decreases fuel
  {
    if c.node == END || fuel == 0 then []
    else match CheckedStep(g, v, c)
      case Halted(_) => []
      case Moved(next, output) =>
        [Recorded(g, runId, i, c.node, next.state, output)] + Records(g, v, runId, next, fuel - 1, i + 1)
  }

  /** Without a validator a traced run is a run; with one it can only be cut short. */
  lemma {:induction false} TracedAgrees(g: Compiled, v: Option<Validator>, c: Config, fuel: nat)
    ensures v.None? ==> CheckedRun(g, v, c, fuel) == Run(g, c, fuel)
    ensures CheckedRun(g, v, c, fuel) == Run(g, c, fuel) ||
      (CheckedRun(g, v, c, fuel).Stopped? && CheckedRun(g, v, c, fuel).error.InvalidState?)
    decreases fuel
  {
    if c.node != END && fuel > 0 && Step(g, c).Moved? {
      TracedAgrees(g, v, Step(g, c).next, fuel - 1);
    }
  }

  /** A step is stopped exactly by a validator that finds its state invalid, with the reason it gives. */
  lemma CheckedStepIs(g: Compiled, f: Validator, c: Config)
    ensures Step(g, c).Moved? && f(Step(g, c).next.state) != None ==>
      CheckedStep(g, Some(f), c) == Halted(InvalidState(f(Step(g, c).next.state).value))
    ensures Step(g, c).Halted? || f(Step(g, c).next.state) == None ==> CheckedStep(g, Some(f), c) == Step(g, c)
    ensures CheckedStep(g, None, c) == Step(g, c)
  {
  }

  /** A checked run completes exactly when the run does and every state it goes through is valid. */
  lemma {:induction false} ChecksEveryState(g: Compiled, f: Validator, c: Config, fuel: nat)
    ensures CheckedRun(g, Some(f), c, fuel).Completed? <==>
      && Run(g, c, fuel).Completed?
      && forall d :: d in Trace(g, c, fuel) ==> Step(g, d).Moved? && f(Step(g, d).next.state) == None
    decreases fuel
  {
    if c.node != END && fuel > 0 && Step(g, c).Moved? {
      ChecksEveryState(g, f, Step(g, c).next, fuel - 1);
      assert c in Trace(g, c, fuel);
    }
    if Run(g, c, fuel).Completed? {
      TraceFaithful(g, c, fuel);
    }
  }

  /** The k-th record tells of the k-th executed node, and where it goes next. */
  ghost predicate TellsOf(g: Compiled, r: TransitionRecord, c: Config) {
    && Step(g, c).Moved?
    && r.nodeId == c.node
    && r.nextNode == UnlessEnd(Step(g, c).next.node)
    && r.stateIteration == Step(g, c).next.state.iteration
    && (Step(g, c).output != Continue(Some(END)) ==> OutputFromRecord(r) == Step(g, c).output)
  }

  /** Record after record, each `nextNode` is the following record's node. */
  ghost predicate Linked(rs: seq<TransitionRecord>) {
    forall k :: 0 <= k < |rs| - 1 ==> rs[k].nextNode == Some(rs[k + 1].nodeId)
  }

  /** The records tell, one by one and in order, of the first executed nodes. */
  ghost predicate Tells(g: Compiled, runId: string, rs: seq<TransitionRecord>, t: seq<Config>, i: nat) {
    && |rs| <= |t|
    && forall k :: 0 <= k < |rs| ==> TellsOf(g, rs[k], t[k]) && rs[k].iteration == i + k && rs[k].runId == runId
  }

  /** The records of a run that ended in `o`: up to END, to the limit, or to the node at which it stopped. */
  ghost predicate EndsAs(g: Compiled, v: Option<Validator>, rs: seq<TransitionRecord>, t: seq<Config>, o: Outcome) {
    match o
    case Completed(_) => |rs| == |t| && (rs != [] ==> rs[|rs| - 1].nextNode == None)
    case OutOfFuel(at) => |rs| == |t| && (rs != [] ==> rs[|rs| - 1].nextNode == Some(at.node))
    case Stopped(UnknownNode(id)) => |rs| == |t| && (rs != [] ==> rs[|rs| - 1].nextNode == Some(id))
    case Stopped(NodeFailed(id, _)) => |rs| + 1 == |t| && (rs != [] ==> rs[|rs| - 1].nextNode == Some(id))
    case Stopped(e) =>
      && |rs| < |t| && CheckedStep(g, v, t[|rs|]) == Halted(e)
      && (rs != [] ==> rs[|rs| - 1].nextNode == Some(t[|rs|].node))
  }

  lemma TellsCons(g: Compiled, runId: string, r: TransitionRecord, c: Config, rs: seq<TransitionRecord>, t: seq<Config>,
        i: nat)
    requires Tells(g, runId, rs, t, i + 1)
    requires TellsOf(g, r, c) && r.iteration == i && r.runId == runId
    ensures Tells(g, runId, [r] + rs, [c] + t, i)
  {
  }

  lemma {:induction false} RecordsTell(g: Compiled, v: Option<Validator>, runId: string, c: Config, fuel: nat, i: nat)
    ensures Tells(g, runId, Records(g, v, runId, c, fuel, i), Trace(g, c, fuel), i)
    decreases fuel
  {
    if c.node != END && fuel > 0 && CheckedStep(g, v, c).Moved? {
      var next, output := Step(g, c).next, Step(g, c).output;
      RecordsTell(g, v, runId, next, fuel - 1, i + 1);
      OutputRoundTrip(g, runId, i, c.node, next.state, output);
      TellsCons(g, runId, Recorded(g, runId, i, c.node, next.state, output), c,
                Records(g, v, runId, next, fuel - 1, i + 1), Trace(g, next, fuel - 1), i);
    }
  }

  lemma {:induction false} RecordsLinked(g: Compiled, v: Option<Validator>, runId: string, c: Config, fuel: nat, i: nat)
    ensures var rs := Records(g, v, runId, c, fuel, i); Linked(rs) && (rs != [] ==> rs[0].nodeId == c.node)
    decreases fuel
  {
    if c.node != END && fuel > 0 && CheckedStep(g, v, c).Moved? {
      var next := Step(g, c).next;
      RecordsLinked(g, v, runId, next, fuel - 1, i + 1);
      LinkedCons(Records(g, v, runId, c, fuel, i)[0], Records(g, v, runId, next, fuel - 1, i + 1));
    }
  }

  lemma EndsCons(g: Compiled, v: Option<Validator>, r: TransitionRecord, c: Config, rs: seq<TransitionRecord>,
          t: seq<Config>, o: Outcome)
    requires EndsAs(g, v, rs, t, o)
    requires rs == [] ==> EndsAs(g, v, [r], [c] + t, o)
    ensures EndsAs(g, v, [r] + rs, [c] + t, o)
  {
    if rs == [] {
      assert [r] + rs == [r];
    }
  }

  lemma {:induction false} RecordsEnd(g: Compiled, v: Option<Validator>, runId: string, c: Config, fuel: nat, i: nat)
    ensures EndsAs(g, v, Records(g, v, runId, c, fuel, i), Trace(g, c, fuel), CheckedRun(g, v, c, fuel))
    decreases fuel
  {
    if c.node != END && fuel > 0 && CheckedStep(g, v, c).Moved? {
      var next := Step(g, c).next;
      RecordsEnd(g, v, runId, next, fuel - 1, i + 1);
      EndsCons(g, v, Records(g, v, runId, c, fuel, i)[0], c, Records(g, v, runId, next, fuel - 1, i + 1),
               Trace(g, next, fuel - 1), CheckedRun(g, v, c, fuel));
    }
  }

  /**
   * Whatever validator a runner has and however its run ends, the records are a
   * linked chain from the start that tells of each executed node, and they stop
   * where the run stops.
   */
  lemma TraceIsFaithful(g: Compiled, v: Option<Validator>, runId: string, c: Config, fuel: nat, i: nat)
    ensures var rs, t := Records(g, v, runId, c, fuel, i), Trace(g, c, fuel);
      Tells(g, runId, rs, t, i) && Linked(rs) && EndsAs(g, v, rs, t, CheckedRun(g, v, c, fuel))
    ensures var rs := Records(g, v, runId, c, fuel, i); rs != [] ==> rs[0].nodeId == c.node
  {
    RecordsTell(g, v, runId, c, fuel, i);
    RecordsLinked(g, v, runId, c, fuel, i);
    RecordsEnd(g, v, runId, c, fuel, i);
  }

  lemma LinkedCons(r: TransitionRecord, rest: seq<TransitionRecord>)
    requires Linked(rest) && (rest != [] ==> r.nextNode == Some(rest[0].nodeId))
    ensures Linked([r] + rest)
  {
    forall k | 0 <= k < |rest| ensures ([r] + rest)[k].nextNode == Some(([r] + rest)[k + 1].nodeId) {
      if k > 0 {
        assert rest[k - 1].nextNode == Some(rest[k].nodeId);
      }
    }
  }

  // ---- The runner ----

  /** The append-only log a runner shares with its observers. */
  class TransitionLog {
    var records: seq<TransitionRecord>

    constructor ()
      ensures records == []
    {
      records := [];
    }

    method Push(r: TransitionRecord)
      modifies this
      ensures records == old(records) + [r]
    {
      records := records + [r];
    }
  }

  datatype TracedRunResult = TracedRunResult(state: AgentState, runContext: RunContext, records: seq<TransitionRecord>)

  class TracedRunner {
    const graph: Compiled
    const maxIterations: nat
    const runContext: RunContext
    const log: TransitionLog
    const validator: Option<Validator>

    constructor (graph: Compiled, maxIterations: nat, runContext: RunContext, validator: Option<Validator>)
      ensures this.graph == graph && this.maxIterations == maxIterations
      ensures this.runContext == runContext && this.validator == validator
      ensures fresh(log) && log.records == []
    {
      this.graph := graph;
      this.maxIterations := maxIterations;
      this.runContext := runContext;
      this.validator := validator;
      log := new TransitionLog();
    }

    /** The run that began at `c` with `before` logged has come to `d` after `i` executions. */
    ghost predicate OnTheWay(c: Config, d: Config, i: nat, before: seq<TransitionRecord>)
      reads log
    {
      && i <= maxIterations
      && CheckedRun(graph, validator, d, maxIterations - i) == CheckedRun(graph, validator, c, maxIterations)
      && log.records + Records(graph, validator, runContext.runId, d, maxIterations - i, i) == RunRecords(c, before)
    }

    ghost function RunRecords(c: Config, before: seq<TransitionRecord>): seq<TransitionRecord> {
      before + Records(graph, validator, runContext.runId, c, maxIterations, 0)
    }

    /** One pass of the loop for a known node: the record is pushed once the new state is valid. */
    method Turn(shared: SharedState, node: string, i: nat) returns (r: Result<string, RuntimeError>)
      requires Indexed(graph) && node in graph.nodes
      modifies shared, log
      ensures match CheckedStep(graph, validator, Config(node, old(shared.value)))
              case Halted(e) => r == Err(e) && log.records == old(log.records)
              case Moved(next, output) =>
                && r == Ok(next.node) && shared.value == next.state
                && log.records == old(log.records) + [Recorded(graph, runContext.runId, i, node, next.state, output)]
    {
      var moving := Advance(graph, node, shared);
      if moving.Err? {
        return Err(moving.error);
      }
      if Check(validator, shared.value).Some? {
        return Err(InvalidState(Check(validator, shared.value).value));
      }
      var next := moving.value.next;
      log.Push(FromStep(runContext.runId, i, node, moving.value.output, UnlessEnd(next), shared.value.iteration));
      return Ok(next);
    }

    lemma RecordsAfter(d: Config, i: nat, logged: seq<TransitionRecord>)
      requires d.node != END && i < maxIterations && CheckedStep(graph, validator, d).Moved?
      ensures var next := CheckedStep(graph, validator, d).next;
        logged + Records(graph, validator, runContext.runId, d, maxIterations - i, i) ==
        logged + [Recorded(graph, runContext.runId, i, d.node, next.state, CheckedStep(graph, validator, d).output)] +
        Records(graph, validator, runContext.runId, next, maxIterations - i - 1, i + 1)
    {
    }

    method RunLoop(shared: SharedState) returns (r: Result<AgentState, RuntimeError>)
      requires Indexed(graph)
      modifies shared, log
      ensures r ==
        Answer(CheckedRun(graph, validator, Config(graph.entryPoint, old(shared.value)), maxIterations), maxIterations)
      ensures log.records == RunRecords(Config(graph.entryPoint, old(shared.value)), old(log.records))
    {
      var node := graph.entryPoint;
      ghost var c, before := Config(node, shared.value), log.records;
      var iterations := 0;
      while true
        invariant OnTheWay(c, Config(node, shared.value), iterations, before)
        decreases maxIterations - iterations
      {
        if node == END {
          return Ok(shared.value);
        }
        if iterations >= maxIterations {
          return Err(RecursionLimit(maxIterations));
        }
        if node !in graph.nodes {
          return Err(UnknownNode(node));
        }
        ghost var d, logged := Config(node, shared.value), log.records;
        var next := Turn(shared, node, iterations);
        if next.Err? {
          return Err(next.error);
        }
        RecordsAfter(d, iterations, logged);
        iterations := iterations + 1;
        node := next.value;
      }
    }

    /** What a traced run from this state answers, before the log is attached. */
    ghost function Outcome(initial: AgentState): Result<AgentState, RuntimeError> {
      var s := AttachRunContext(initial, runContext);
      if Check(validator, s).Some? then Err(InvalidState(Check(validator, s).value))
      else Answer(CheckedRun(graph, validator, Config(graph.entryPoint, s), maxIterations), maxIterations)
    }

    method Invoke(initial: AgentState) returns (r: Result<TracedRunResult, RuntimeError>)
      requires Indexed(graph)
      modifies log
      ensures Outcome(initial).Err? ==> r == Err(Outcome(initial).error)
      ensures validator.Some? && validator.value(AttachRunContext(initial, runContext)).Some? ==>
        r == Err(InvalidState(validator.value(AttachRunContext(initial, runContext)).value))
        && log.records == old(log.records)
      ensures Outcome(initial).Ok? ==> r == Ok(TracedRunResult(Outcome(initial).value, runContext, log.records))
      ensures var s := AttachRunContext(initial, runContext);
        log.records == old(log.records) +
          if Check(validator, s).Some? then []
            else Records(graph, validator, runContext.runId, Config(graph.entryPoint, s), maxIterations, 0)
    {
      var s := AttachRunContext(initial, runContext);
      if Check(validator, s).Some? {
        return Err(InvalidState(Check(validator, s).value));
      }
      var shared := new SharedState(s);
      var final := RunLoop(shared);
      match final {
        case Err(e) => return Err(e);
        case Ok(state) => return Ok(TracedRunResult(state, runContext, log.records));
      }
    }
  }

  // ---- Comparing traces ----

  datatype Mismatch =
    | Lengths(expected: nat, actual: nat)
    | Nodes(step: nat, node: string, otherNode: string)
    | Kinds(step: nat, kind: string, otherKind: string)
    | Nexts(step: nat, next: Option<string>, otherNext: Option<string>)

  /** The mismatch is there: it names the step and what the two logs say at it. */
  predicate Real(m: Mismatch, expected: seq<TransitionRecord>, actual: seq<TransitionRecord>) {
    match m
    case Lengths(e, a) => e == |expected| && a == |actual| && e != a
    case Nodes(i, e, a) => i < |expected| && i < |actual| && e == expected[i].nodeId && a == actual[i].nodeId && e != a
    case Kinds(i, e, a) =>
      i < |expected| && i < |actual| && e == expected[i].outputKind && a == actual[i].outputKind && e != a
    case Nexts(i, e, a) =>
      i < |expected| && i < |actual| && e == expected[i].nextNode && a == actual[i].nextNode && e != a
  }

  predicate SameStep(e: TransitionRecord, a: TransitionRecord) {
    e.nodeId == a.nodeId && e.outputKind == a.outputKind && e.nextNode == a.nextNode
  }

  function StepMismatches(i: nat, e: TransitionRecord, a: TransitionRecord): seq<Mismatch> {
    (if e.nodeId != a.nodeId then [Nodes(i, e.nodeId, a.nodeId)] else []) +
    (if e.outputKind != a.outputKind then [Kinds(i, e.outputKind, a.outputKind)] else []) +
    (if e.nextNode != a.nextNode then [Nexts(i, e.nextNode, a.nextNode)] else [])
  }

  /** Mismatches are listed by step and, within a step, node before kind before next node; lengths come first. */
  function Place(m: Mismatch): int {
    match m
    case Lengths(_, _) => -1
    case Nodes(i, _, _) => 3 * i
    case Kinds(i, _, _) => 3 * i + 1
    case Nexts(i, _, _) => 3 * i + 2
  }

  ghost predicate InPlace(ms: seq<Mismatch>, n: nat) {
    && (forall j, k :: 0 <= j < k < |ms| ==> Place(ms[j]) < Place(ms[k]))
    && (forall j :: 0 <= j < |ms| ==> Place(ms[j]) < 3 * n)
  }

  /** The order of the list: the lengths, then by step, and there node, kind and next node. */
  lemma PlaceTells(a: Mismatch, b: Mismatch)
    ensures Place(a) < Place(b) <==>
      if a.Lengths? || b.Lengths? then a.Lengths? && !b.Lengths?
      else a.step < b.step || (a.step == b.step && ((a.Nodes? && !b.Nodes?) || (a.Kinds? && b.Nexts?)))
  {
  }

  lemma StepInPlace(i: nat, e: TransitionRecord, a: TransitionRecord, ms: seq<Mismatch>)
    requires InPlace(ms, i)
    ensures InPlace(ms + StepMismatches(i, e, a), i + 1)
  {
    var more := StepMismatches(i, e, a);
    assert forall k :: 0 <= k < |more| ==> 3 * i <= Place(more[k]) < 3 * (i + 1);
    assert forall j, k :: 0 <= j < k < |more| ==> Place(more[j]) < Place(more[k]);
  }

  /** A log without mismatches agrees step by step. */
  lemma NoneReal(expected: seq<TransitionRecord>, actual: seq<TransitionRecord>)
    requires forall m :: !Real(m, expected, actual)
    ensures |expected| == |actual| && forall i :: 0 <= i < |expected| ==> SameStep(expected[i], actual[i])
  {
    assert !Real(Lengths(|expected|, |actual|), expected, actual);
    forall i | 0 <= i < |expected| ensures SameStep(expected[i], actual[i]) {
      assert !Real(Nodes(i, expected[i].nodeId, actual[i].nodeId), expected, actual);
      assert !Real(Kinds(i, expected[i].outputKind, actual[i].outputKind), expected, actual);
      assert !Real(Nexts(i, expected[i].nextNode, actual[i].nextNode), expected, actual);
    }
  }

  predicate Upto(m: Mismatch, n: nat) {
    m.Lengths? || m.step < n
  }

  /** Lists exactly the mismatches there are, each once and in order; none exactly when the logs agree step by step. */
  method Compare(expected: seq<TransitionRecord>, actual: seq<TransitionRecord>)
    returns (matches: bool, mismatches: seq<Mismatch>)
    ensures forall m :: m in mismatches <==> Real(m, expected, actual)
    ensures forall j, k :: 0 <= j < k < |mismatches| ==> Place(mismatches[j]) < Place(mismatches[k])
    ensures matches <==> |expected| == |actual| && forall i :: 0 <= i < |expected| ==> SameStep(expected[i], actual[i])
  {
    mismatches := [];
    if |expected| != |actual| {
      mismatches := [Lengths(|expected|, |actual|)];
    }
    var n := if |expected| < |actual| then |expected| else |actual|;
    for i := 0 to n
      invariant forall m :: m in mismatches <==> Real(m, expected, actual) && Upto(m, i)
      invariant InPlace(mismatches, i)
    {
      StepInPlace(i, expected[i], actual[i], mismatches);
      mismatches := mismatches + StepMismatches(i, expected[i], actual[i]);
    }
    matches := mismatches == [];
    if matches {
      NoneReal(expected, actual);
    } else {
      assert mismatches[0] in mismatches;
    }
  }

  /** Steps that compare equal had the same output, up to the key of a transition. */
  lemma MatchPinsOutputs(g: Compiled, i: nat, node: string, s: AgentState, o: NodeOutput, s': AgentState, p: NodeOutput)
    requires SameStep(Recorded(g, "", i, node, s, o), Recorded(g, "", i, node, s', p))
    ensures o == p || (o.Transition? && p.Transition?)
  {
    LabelsDiffer(o, p);
  }
}
