/** One meaning of running a compiled graph, and the plain runner that has it. */
module Execution {
  import opened Wrappers
  import opened AgentStates
  import opened Graph

  datatype RuntimeError =
    | RecursionLimit(max: nat)
    | UnknownNode(id: string)
    | NodeFailed(id: string, error: string)
    | InvalidState(reason: string)
    | CheckpointNotFound(key: string)
    | NoCheckpointer

  /** Where a run stands: the node it is about to execute and the state it will hand over. */
  datatype Config = Config(node: string, state: AgentState)

  // ---- One step ----

  function Resolve(g: Compiled, node: string, s: AgentState, output: NodeOutput): string {
    match output
    case Finish => END
    case Continue(Some(target)) => target
    case Route(target) => target
    case Continue(None) => OrEnd(LinearScan(g.edges, node, s, CONTINUE))
    case Transition(key) => OrEnd(LinearScan(g.edges, node, s, key))
  }

  function OrEnd(next: Option<string>): string {
    if next.Some? then next.value else END
  }

  /** Records and events name no next node at the end. */
  function UnlessEnd(node: string): Option<string> {
    if node == END then None else Some(node)
  }

  datatype Effect = Moved(next: Config, output: NodeOutput) | Halted(error: RuntimeError)

  /** Executes the current node; the next node is chosen on the state the node left. */
  function Step(g: Compiled, c: Config): Effect {
    if c.node !in g.nodes then Halted(UnknownNode(c.node))
    else match g.nodes[c.node].run(c.state)
      case Failed(e) => Halted(NodeFailed(c.node, e))
      case Done(s, output) =>
        var s' := s.IncrementIteration();
        Moved(Config(Resolve(g, c.node, s', output), s'), output)
  }

  // ---- Where a step leads ----

  /** The first edge that leaves the node under exactly this key. */
  ghost predicate FirstUnder(edges: seq<Edge>, from: string, key: Option<string>, i: nat) {
    && i < |edges| && edges[i].from == from && edges[i].key == key
    && forall k :: 0 <= k < i ==> edges[k].from != from || edges[k].key != key
  }

  ghost predicate NoneUnder(edges: seq<Edge>, from: string, key: Option<string>) {
    forall k :: 0 <= k < |edges| ==> edges[k].from != from || edges[k].key != key
  }

  /** Following the edge in this state leads to `next`. */
  ghost predicate EdgeLeads(e: Edge, s: AgentState, next: string) {
    match e.kind
    case Direct => next == e.to
    case Conditional(router) => next == router(s)
  }

  /** Following a transition key from a node leads to `next`; without an edge for it the run ends. */
  ghost predicate KeyLeads(g: Compiled, node: string, s: AgentState, key: string, next: string) {
    && (forall i: nat :: FirstUnder(g.edges, node, Some(key), i) ==> EdgeLeads(g.edges[i], s, next))
    && (NoneUnder(g.edges, node, Some(key)) && key != "__continue__" ==> next == "__end__")
    && (NoneUnder(g.edges, node, Some(key)) && key == "__continue__" ==>
      && (forall i: nat :: FirstUnder(g.edges, node, None, i) ==> EdgeLeads(g.edges[i], s, next))
      && (NoneUnder(g.edges, node, None) ==> next == "__end__"))
  }

  lemma ScanFollows(g: Compiled, node: string, s: AgentState, key: string)
    ensures KeyLeads(g, node, s, key, OrEnd(LinearScan(g.edges, node, s, key)))
  {
    FindsFirst(g.edges, node, Some(key));
    FindsFirst(g.edges, node, None);
  }

  lemma FindsFirst(edges: seq<Edge>, node: string, key: Option<string>)
    ensures forall i: nat :: FirstUnder(edges, node, key, i) ==> FindEdge(edges, node, key) == Some(edges[i])
    ensures NoneUnder(edges, node, key) ==> FindEdge(edges, node, key) == None
    ensures NoneUnder(edges, node, key) || exists i: nat :: FirstUnder(edges, node, key, i)
  {
    forall i: nat | FirstUnder(edges, node, key, i) ensures FindEdge(edges, node, key) == Some(edges[i]) {
      FindEdgeAt(edges, node, key, i);
    }
    if NoneUnder(edges, node, key) {
      FindEdgeNowhere(edges, node, key);
    } else {
      var _ := FirstOf(edges, node, key);
    }
  }

  lemma {:induction false} FirstOf(edges: seq<Edge>, node: string, key: Option<string>) returns (i: nat)
    requires !NoneUnder(edges, node, key)
    ensures FirstUnder(edges, node, key, i)
  {
    if edges[0].from == node && edges[0].key == key {
      i := 0;
    } else {
      var j := FirstOf(edges[1..], node, key);
      i := j + 1;
    }
  }

  /**
   * A step runs the node, counts one iteration and moves to where the node's
   * output says: to END when it finished, to the node it names, or along the
   * edge for its key, chosen on the counted state.  A bare continue takes the
   * edge keyed CONTINUE, then the unkeyed one.
   */
  lemma StepMoves(g: Compiled, c: Config, s: AgentState, output: NodeOutput)
    requires c.node in g.nodes && g.nodes[c.node].run(c.state) == Done(s, output)
    ensures Step(g, c).Moved? && Step(g, c).output == output
    ensures var counted := s.(iteration := s.iteration + 1);
      var next := Step(g, c).next;
      && next.state == counted
      && match output
         case Finish => next.node == "__end__"
         case Continue(Some(target)) => next.node == target
         case Route(target) => next.node == target
         case Continue(None) => KeyLeads(g, c.node, counted, "__continue__", next.node)
         case Transition(key) => KeyLeads(g, c.node, counted, key, next.node)
  {
    match output {
      case Continue(None) => ScanFollows(g, c.node, s.IncrementIteration(), CONTINUE);
      case Transition(key) => ScanFollows(g, c.node, s.IncrementIteration(), key);
      case _ =>
    }
  }

  /** In particular a keyed transition takes the first edge with that key. */
  lemma TransitionTakesEdge(g: Compiled, c: Config, s: AgentState, key: string, i: nat)
    requires c.node in g.nodes && g.nodes[c.node].run(c.state) == Done(s, Transition(key))
    requires i < |g.edges| && g.edges[i].from == c.node && g.edges[i].key == Some(key)
    requires forall k :: 0 <= k < i && g.edges[k].from == c.node ==> g.edges[k].key != Some(key)
    ensures Step(g, c).Moved?
    ensures Step(g, c).next.node ==
      if g.edges[i].kind.Direct? then g.edges[i].to else g.edges[i].kind.router(s.(iteration := s.iteration + 1))
  {
    StepMoves(g, c, s, Transition(key));
    assert FirstUnder(g.edges, c.node, Some(key), i);
  }

  /** Without an edge for its key, a transition other than CONTINUE ends the run. */
  lemma TransitionEnds(g: Compiled, c: Config, s: AgentState, key: string)
    requires c.node in g.nodes && g.nodes[c.node].run(c.state) == Done(s, Transition(key)) && key != CONTINUE
    requires forall k :: 0 <= k < |g.edges| && g.edges[k].from == c.node ==> g.edges[k].key != Some(key)
    ensures Step(g, c) == Moved(Config(END, s.(iteration := s.iteration + 1)), Transition(key))
  {
    StepMoves(g, c, s, Transition(key));
    assert NoneUnder(g.edges, c.node, Some(key));
  }

  /** A step halts at an unknown node and at one that fails, naming it. */
  lemma StepHalts(g: Compiled, c: Config)
    ensures Step(g, c) == Halted(UnknownNode(c.node)) <==> c.node !in g.nodes
    ensures forall e :: Step(g, c) == Halted(NodeFailed(c.node, e)) <==>
      c.node in g.nodes && g.nodes[c.node].run(c.state) == Failed(e)
    ensures Step(g, c).Moved? <==> c.node in g.nodes && g.nodes[c.node].run(c.state).Done?
  {
  }

  // ---- Runs ----

  datatype Outcome = Completed(state: AgentState) | Stopped(error: RuntimeError) | OutOfFuel(at: Config)

  /** A run of at most `fuel` node executions. */
  function Run(g: Compiled, c: Config, fuel: nat): Outcome
    decreases fuel
  {
    if c.node == END then Completed(c.state)
    else if fuel == 0 then OutOfFuel(c)
    else match Step(g, c)
      case Halted(e) => Stopped(e)
      case Moved(next, _) => Run(g, next, fuel - 1)
  }

  /** The configurations a run executes, in order; the last one may be the one that fails. */
  function Trace(g: Compiled, c: Config, fuel: nat): (t: seq<Config>)
    decreases fuel
  {
    if c.node == END || fuel == 0 then []
    else match Step(g, c)
      case Halted(UnknownNode(_)) => []
      case Halted(_) => [c]
      case Moved(next, _) => [c] + Trace(g, next, fuel - 1)
  }

  /** A chain of successful steps, none of them from END. */
  ghost predicate Chain(g: Compiled, p: seq<Config>) {
    forall i :: 0 <= i < |p| - 1 ==> Follows(g, p[i], p[i + 1])
  }

  predicate Follows(g: Compiled, c: Config, d: Config) {
    c.node != END && Step(g, c).Moved? && Step(g, c).next == d
  }

  ghost predicate Leads(g: Compiled, c: Config, d: Config, p: seq<Config>) {
    p != [] && p[0] == c && p[|p| - 1] == d && Chain(g, p)
  }

  ghost predicate LeadsWithin(g: Compiled, c: Config, d: Config, steps: nat) {
    exists p {:trigger Leads(g, c, d, p)} :: Leads(g, c, d, p) && |p| <= steps + 1
  }

  /** A run completes exactly when a chain of at most `fuel` steps leads to END. */
  lemma CompletesIff(g: Compiled, c: Config, fuel: nat, s: AgentState)
    ensures Run(g, c, fuel) == Completed(s) <==> LeadsWithin(g, c, Config(END, s), fuel)
  {
    if Run(g, c, fuel) == Completed(s) {
      var p := CompletedChain(g, c, fuel);
    }
    if LeadsWithin(g, c, Config(END, s), fuel) {
      var p :| Leads(g, c, Config(END, s), p) && |p| <= fuel + 1;
      RunAlong(g, p, fuel);
    }
  }

  lemma {:induction false} CompletedChain(g: Compiled, c: Config, fuel: nat) returns (p: seq<Config>)
    requires Run(g, c, fuel).Completed?
    ensures Leads(g, c, Config(END, Run(g, c, fuel).state), p) && |p| <= fuel + 1
    decreases fuel
  {
    p := [c];
    if c.node != END {
      var rest := CompletedChain(g, Step(g, c).next, fuel - 1);
      p := [c] + rest;
      ChainCons(g, c, rest);
    }
  }

  /** Following a chain to its end and running on from there is running from its start. */
  lemma {:induction false} RunAlong(g: Compiled, p: seq<Config>, fuel: nat)
    requires p != [] && Chain(g, p) && |p| <= fuel + 1
    ensures Run(g, p[0], fuel) == Run(g, p[|p| - 1], fuel + 1 - |p|)
  {
    if |p| > 1 {
      assert Follows(g, p[0], p[1]);
      forall i | 0 <= i < |p[1..]| - 1 ensures Follows(g, p[1..][i], p[1..][i + 1]) {
        assert Follows(g, p[i + 1], p[i + 2]);
      }
      RunAlong(g, p[1..], fuel - 1);
    }
  }

  /** A run stops with an error exactly when a chain of fewer than `fuel` steps leads to a node that halts with it. */
  lemma StopsIff(g: Compiled, c: Config, fuel: nat, e: RuntimeError)
    ensures Run(g, c, fuel) == Stopped(e) <==>
      exists d: Config :: d.node != END && Step(g, d) == Halted(e) && fuel > 0 && LeadsWithin(g, c, d, fuel - 1)
  {
    if Run(g, c, fuel) == Stopped(e) {
      var p := StoppedChain(g, c, fuel);
      assert Leads(g, c, p[|p| - 1], p);
      assert LeadsWithin(g, c, p[|p| - 1], fuel - 1);
    }
    if d: Config :| d.node != END && Step(g, d) == Halted(e) && fuel > 0 && LeadsWithin(g, c, d, fuel - 1) {
      var p :| Leads(g, c, d, p) && |p| <= fuel;
      RunAlong(g, p, fuel);
    }
  }

  lemma {:induction false} StoppedChain(g: Compiled, c: Config, fuel: nat) returns (p: seq<Config>)
    requires Run(g, c, fuel).Stopped?
    ensures fuel > 0 && p != [] && |p| <= fuel && Leads(g, c, p[|p| - 1], p)
    ensures p[|p| - 1].node != END && Step(g, p[|p| - 1]) == Halted(Run(g, c, fuel).error)
    decreases fuel
  {
    p := [c];
    if Step(g, c).Moved? {
      var rest := StoppedChain(g, Step(g, c).next, fuel - 1);
      p := [c] + rest;
      ChainCons(g, c, rest);
    }
  }

  lemma ChainCons(g: Compiled, c: Config, rest: seq<Config>)
    requires rest != [] && Chain(g, rest) && Follows(g, c, rest[0])
    ensures Chain(g, [c] + rest)
  {
    var p := [c] + rest;
    forall i | 0 <= i < |p| - 1 ensures Follows(g, p[i], p[i + 1]) {
      if i > 0 {
        assert Follows(g, rest[i - 1], rest[i]);
      }
    }
  }

  /** A run is out of fuel exactly when a chain of `fuel` steps leads to where it stands, short of END. */
  lemma RunsOutIff(g: Compiled, c: Config, fuel: nat, d: Config)
    ensures Run(g, c, fuel) == OutOfFuel(d) <==>
      d.node != END && exists p {:trigger Leads(g, c, d, p)} :: Leads(g, c, d, p) && |p| == fuel + 1
  {
    if Run(g, c, fuel) == OutOfFuel(d) {
      var p := FuelChain(g, c, fuel);
    }
    if d.node != END && exists p {:trigger Leads(g, c, d, p)} :: Leads(g, c, d, p) && |p| == fuel + 1 {
      var p :| Leads(g, c, d, p) && |p| == fuel + 1;
      RunAlong(g, p, fuel);
    }
  }

  lemma {:induction false} FuelChain(g: Compiled, c: Config, fuel: nat) returns (p: seq<Config>)
    requires Run(g, c, fuel).OutOfFuel?
    ensures Leads(g, c, Run(g, c, fuel).at, p) && |p| == fuel + 1 && Run(g, c, fuel).at.node != END
    decreases fuel
  {
    p := [c];
    if fuel > 0 {
      var rest := FuelChain(g, Step(g, c).next, fuel - 1);
      p := [c] + rest;
      ChainCons(g, c, rest);
    }
  }

  /** Stopping at the limit and going on with fresh fuel is one longer run. */
  lemma {:induction false} RunSplit(g: Compiled, c: Config, a: nat, b: nat)
    ensures Run(g, c, a).OutOfFuel? ==> Run(g, c, a + b) == Run(g, Run(g, c, a).at, b)
    ensures !Run(g, c, a).OutOfFuel? ==> Run(g, c, a + b) == Run(g, c, a)
    decreases a
  {
    if c.node != END && a > 0 && Step(g, c).Moved? {
      RunSplit(g, Step(g, c).next, a - 1, b);
    }
  }

  /** The executed nodes form one chain from the start and never exceed the fuel. */
  lemma {:induction false} TraceFaithful(g: Compiled, c: Config, fuel: nat)
    ensures var t := Trace(g, c, fuel); |t| <= fuel && Chain(g, t) && (t != [] ==> t[0] == c)
    ensures forall d :: d in Trace(g, c, fuel) ==> d.node in g.nodes && d.node != END
    ensures Run(g, c, fuel).OutOfFuel? ==> |Trace(g, c, fuel)| == fuel
    ensures Run(g, c, fuel).Completed? ==> forall d :: d in Trace(g, c, fuel) ==> Step(g, d).Moved?
    decreases fuel
  {
    if c.node != END && fuel > 0 && Step(g, c).Moved? {
      var next := Step(g, c).next;
      var rest := Trace(g, next, fuel - 1);
      TraceFaithful(g, next, fuel - 1);
      var t := Trace(g, c, fuel);
      forall i | 0 <= i < |t| - 1 ensures Follows(g, t[i], t[i + 1]) {
        if i > 0 {
          assert Follows(g, rest[i - 1], rest[i]);
        }
      }
    }
  }

  /** What a runner with this limit reports for an outcome. */
  function Answer(o: Outcome, max: nat): Result<AgentState, RuntimeError> {
    match o
    case Completed(s) => Ok(s)
    case Stopped(e) => Err(e)
    case OutOfFuel(_) => Err(RecursionLimit(max))
  }

  // ---- The plain runner ----

  method ResolveNext(g: Compiled, node: string, s: AgentState, output: NodeOutput) returns (next: string)
    requires Indexed(g)
    ensures next == Resolve(g, node, s, output)
  {
    match output {
      case Finish => next := END;
      case Continue(Some(target)) => next := target;
      case Route(target) => next := target;
      case Continue(None) =>
        var found := GetNextNodeForTransition(g, node, s, CONTINUE);
        next := OrEnd(found);
      case Transition(key) =>
        var found := GetNextNodeForTransition(g, node, s, key);
        next := OrEnd(found);
    }
  }

  /** The agent state that a runner and its nodes share. */
  class SharedState {
    var value: AgentState

    constructor (s: AgentState)
      ensures value == s
    {
      value := s;
    }

    method IncrementIteration()
      modifies this
      ensures value == old(value).IncrementIteration()
    {
      value := value.IncrementIteration();
    }
  }

  /** Executes a node of the graph on the shared state; a failing node leaves it alone. */
  method ExecuteNode(g: Compiled, node: string, shared: SharedState) returns (r: Result<NodeOutput, RuntimeError>)
    requires node in g.nodes
    modifies shared
    ensures match g.nodes[node].run(old(shared.value))
            case Failed(e) => r == Err(NodeFailed(node, e)) && shared.value == old(shared.value)
            case Done(s, output) => r == Ok(output) && shared.value == s
  {
    match g.nodes[node].run(shared.value) {
      case Failed(e) =>
        r := Err(NodeFailed(node, e));
      case Done(s, output) =>
        shared.value := s;
        r := Ok(output);
    }
  }

  datatype Moving = Moving(next: string, output: NodeOutput)

  /** One pass of a runner's loop: execute the node, count the iteration, choose the next node. */
  method Advance(g: Compiled, node: string, shared: SharedState) returns (r: Result<Moving, RuntimeError>)
    requires Indexed(g) && node in g.nodes
    modifies shared
    ensures match Step(g, Config(node, old(shared.value)))
            case Halted(e) => r == Err(e)
            case Moved(next, output) => r == Ok(Moving(next.node, output)) && shared.value == next.state
  {
    var output := ExecuteNode(g, node, shared);
    if output.Err? {
      return Err(output.error);
    }
    shared.IncrementIteration();
    var next := ResolveNext(g, node, shared.value, output.value);
    return Ok(Moving(next, output.value));
  }

  class GraphRunner {
    const graph: Compiled
    const maxIterations: nat

    constructor (graph: Compiled, maxIterations: nat)
      ensures this.graph == graph && this.maxIterations == maxIterations
    {
      this.graph := graph;
      this.maxIterations := maxIterations;
    }

    method RunLoop(shared: SharedState) returns (r: Result<AgentState, RuntimeError>)
      requires Indexed(graph)
      modifies shared
      ensures r == Answer(Run(graph, Config(graph.entryPoint, old(shared.value)), maxIterations), maxIterations)
      ensures match Run(graph, Config(graph.entryPoint, old(shared.value)), maxIterations)
              case Completed(s) => shared.value == s
              case OutOfFuel(at) => shared.value == at.state
              case Stopped(_) => true
    {
      var node := graph.entryPoint;
      var iterations := 0;
      while true
        invariant iterations <= maxIterations
        invariant Run(graph, Config(node, shared.value), maxIterations - iterations) ==
          Run(graph, Config(graph.entryPoint, old(shared.value)), maxIterations)
        decreases maxIterations - iterations
      {
        if node == END {
          return Ok(shared.value);
        }
        if iterations >= maxIterations {
          return Err(RecursionLimit(maxIterations));
        }
        if node !in graph.nodes {
          return Err(UnknownNode(node));
        }
        var moving := Advance(graph, node, shared);
        if moving.Err? {
          return Err(moving.error);
        }
        iterations := iterations + 1;
        node := moving.value.next;
      }
    }

    method Invoke(initial: AgentState) returns (r: Result<AgentState, RuntimeError>)
      requires Indexed(graph)
      ensures r == Answer(Run(graph, Config(graph.entryPoint, initial), maxIterations), maxIterations)
      ensures match Run(graph, Config(graph.entryPoint, initial), maxIterations)
              case Completed(s) => r == Ok(s)
              case Stopped(e) => r == Err(e)
              case OutOfFuel(_) => r == Err(RecursionLimit(maxIterations))
    {
      var shared := new SharedState(initial);
      r := RunLoop(shared);
    }
  }
}
