/** The checkpointing runner: same answers as the plain one, and resuming loses nothing. */
module CheckpointRunner {
  import opened Wrappers
  import opened AgentStates
  import opened Graph
  import opened Execution
  import opened CheckpointStore

  // ---- What a run saves ----

  /** The configurations a run saves, in order; `every` asks for one before each execution. */
  function Saves(g: Compiled, every: bool, c: Config, fuel: nat): seq<Config>
    decreases fuel
  {
    if c.node == END || fuel == 0 then [c]
    else match Step(g, c)
      case Halted(UnknownNode(_)) => []
      case Halted(_) => if every then [c] else []
      case Moved(next, _) => (if every then [c] else []) + Saves(g, every, next, fuel - 1)
  }

  /** Where the run is left, if anywhere: at END or at its limit. */
  function LastSave(o: Outcome): seq<Config> {
    match o
    case Completed(s) => [Config(END, s)]
    case OutOfFuel(d) => [d]
    case Stopped(_) => []
  }

  /** A run saves what it is about to execute, when every node is saved, and where it ended or hit its limit. */
  lemma {:induction false} SavesAre(g: Compiled, every: bool, c: Config, fuel: nat)
    ensures Saves(g, every, c, fuel) == (if every then Trace(g, c, fuel) else []) + LastSave(Run(g, c, fuel))
    decreases fuel
  {
    if c.node != END && fuel > 0 && Step(g, c).Moved? {
      SavesAre(g, every, Step(g, c).next, fuel - 1);
    }
  }

  // ---- Resuming ----

  /** Resuming from any checkpoint of a run that did not hit its limit ends as that run did. */
  lemma {:induction false} ResumeAnywhere(g: Compiled, every: bool, c: Config, fuel: nat, d: Config)
    requires d in Saves(g, every, c, fuel)
    requires !Run(g, c, fuel).OutOfFuel?
    ensures Run(g, d, fuel) == Run(g, c, fuel)
    decreases fuel
  {
    if c.node != END && Step(g, c).Moved? && d != c {
      var next := Step(g, c).next;
      assert d in Saves(g, every, next, fuel - 1);
      ResumeAnywhere(g, every, next, fuel - 1, d);
      RunSplit(g, d, fuel - 1, 1);
    }
  }

  /** The k-th checkpoint is where the run stands after k executions. */
  lemma {:induction false} ResumeKth(g: Compiled, c: Config, fuel: nat, k: nat, b: nat)
    requires k < |Saves(g, true, c, fuel)|
    ensures k <= fuel && Run(g, Saves(g, true, c, fuel)[k], b) == Run(g, c, k + b)
    ensures k < |Trace(g, c, fuel)| ==> Saves(g, true, c, fuel)[k] == Trace(g, c, fuel)[k]
    decreases fuel
  {
    if k > 0 {
      ResumeKth(g, Step(g, c).next, fuel - 1, k - 1, b);
    }
  }

  /** Stopped by limit `a` and resumed with limit `b`: one run with limit `a + b`. */
  lemma {:induction false} ResumeAfterLimit(g: Compiled, every: bool, c: Config, a: nat, b: nat)
    requires Run(g, c, a).OutOfFuel?
    ensures var saves := Saves(g, every, c, a); saves != [] && Run(g, saves[|saves| - 1], b) == Run(g, c, a + b)
    decreases a
  {
    if a > 0 {
      ResumeAfterLimit(g, every, Step(g, c).next, a - 1, b);
    }
  }

  /** What the latest checkpoint of a run is, for each way the run can end. */
  lemma {:induction false} LatestSave(g: Compiled, c: Config, fuel: nat)
    ensures match Run(g, c, fuel)
            case Completed(s) => EndsWith(Saves(g, true, c, fuel), Config(END, s))
            case OutOfFuel(d) => EndsWith(Saves(g, true, c, fuel), d)
            case Stopped(NodeFailed(id, _)) =>
              Saves(g, true, c, fuel) == Trace(g, c, fuel) && NamesLast(Saves(g, true, c, fuel), id)
            case Stopped(_) => Saves(g, true, c, fuel) == Trace(g, c, fuel)
    decreases fuel
  {
    if c.node != END && fuel > 0 && Step(g, c).Moved? {
      LatestSave(g, Step(g, c).next, fuel - 1);
    }
  }

  predicate EndsWith(s: seq<Config>, c: Config) {
    s != [] && s[|s| - 1] == c
  }

  predicate NamesLast(s: seq<Config>, id: string) {
    s != [] && s[|s| - 1].node == id
  }

  // ---- The runner ----

  /** `cs` are checkpoints of the thread that hold exactly these configurations. */
  ghost predicate Stamped(cs: seq<Checkpoint>, threadId: string, saves: seq<Config>) {
    && |cs| == |saves|
    && forall i :: 0 <= i < |cs| ==> cs[i].threadId == threadId && Config(cs[i].nodeId, cs[i].state) == saves[i]
  }

  lemma StampedSnoc(cs: seq<Checkpoint>, threadId: string, saves: seq<Config>, c: Checkpoint)
    requires Stamped(cs, threadId, saves) && c.threadId == threadId
    ensures Stamped(cs + [c], threadId, saves + [Config(c.nodeId, c.state)])
  {
  }

  function Fill(n: nat): (s: string)
    ensures |s| == n
  {
    seq(n, _ => '0')
  }

  /** Stands for the random identifier of a new checkpoint: any id not in use. */
  method NewId(used: set<string>) returns (id: string)
    ensures id !in used
  {
    id := "";
    var rest := used;
    while rest != {}
      invariant rest <= used && forall u :: u in used && u !in rest ==> |u| < |id|
    {
      var u :| u in rest;
      rest := rest - {u};
      if |id| <= |u| {
        id := Fill(|u| + 1);
      }
    }
  }

  /**
   * Since `before`, the log has grown by exactly these saves of the thread, and
   * maps that stood for the log still do.
   */
  ghost predicate Logged(store: MemoryCheckpointer, before: Snapshot, threadId: string, saves: seq<Config>)
    reads store
  {
    && (before.valid ==> store.Valid())
    && before.log <= store.log && Stamped(store.log[|before.log|..], threadId, saves)
  }

  /** Saves a configuration under a new id. */
  method SaveNew(store: MemoryCheckpointer, threadId: string, c: Config, ghost before: Snapshot,
          ghost saves: seq<Config>)
    returns (saved: Checkpoint)
    requires Logged(store, before, threadId, saves)
    modifies store
    ensures Logged(store, before, threadId, saves + [c])
    ensures store.log == old(store.log) + [saved] && saved.threadId == threadId && saved.nodeId == c.node
    ensures saved.state == c.state && saved.parentId == None && saved.metadata == Null
    ensures saved.id !in old(store.checkpoints)
  {
    var id := NewId(store.checkpoints.Keys);
    saved := Checkpoint(id, threadId, c.node, c.state, None, Null);
    ghost var log := store.log;
    store.SaveCheckpoint(saved);
    StampedSnoc(log[|before.log|..], threadId, saves, saved);
    assert store.log[|before.log|..] == log[|before.log|..] + [saved];
  }

  class CheckpointingRunner {
    const graph: Compiled
    const maxIterations: nat
    const everyNode: bool
    const store: MemoryCheckpointer

    constructor (graph: Compiled, maxIterations: nat, everyNode: bool, store: MemoryCheckpointer)
      ensures this.graph == graph && this.maxIterations == maxIterations
      ensures this.everyNode == everyNode && this.store == store
    {
      this.graph := graph;
      this.maxIterations := maxIterations;
      this.everyNode := everyNode;
      this.store := store;
    }

    method SaveHere(threadId: string, c: Config, ghost before: Snapshot, ghost saves: seq<Config>)
      requires Logged(store, before, threadId, saves)
      modifies store
      ensures Logged(store, before, threadId, saves + [c])
    {
      var _ := SaveNew(store, threadId, c, before, saves);
    }

    /** A run that began at `c` stands at `d`, has `fuel` executions left and has saved `saves`. */
    ghost predicate OnTheWay(c: Config, d: Config, fuel: nat, saves: seq<Config>) {
      && Run(graph, d, fuel) == Run(graph, c, maxIterations)
      && saves + Saves(graph, everyNode, d, fuel) == Saves(graph, everyNode, c, maxIterations)
    }

    lemma OneTurn(c: Config, d: Config, fuel: nat, saves: seq<Config>)
      requires OnTheWay(c, d, fuel, saves) && d.node != END && fuel > 0 && Step(graph, d).Moved?
      ensures OnTheWay(c, Step(graph, d).next, fuel - 1, SavesWith(saves, d))
    {
      var rest := Saves(graph, everyNode, Step(graph, d).next, fuel - 1);
      assert saves + ([d] + rest) == saves + [d] + rest;
    }

    lemma LastTurn(c: Config, d: Config, fuel: nat, saves: seq<Config>)
      requires OnTheWay(c, d, fuel, saves)
      requires d.node == END || fuel == 0 || Step(graph, d).Halted?
      ensures var here :=
          if d.node == END || fuel == 0 then saves + [d]
          else if d.node in graph.nodes then SavesWith(saves, d)
          else saves;
        here == Saves(graph, everyNode, c, maxIterations)
    {
    }

    ghost function SavesWith(saves: seq<Config>, d: Config): seq<Config> {
      if everyNode then saves + [d] else saves
    }

    function StartNode(start: Option<string>): string {
      if start.Some? then start.value else graph.entryPoint
    }

    /** The run of the thread that began at `c` has come to `d` and has logged its saves. */
    ghost predicate Here(threadId: string, c: Config, d: Config, i: nat, before: Snapshot, saves: seq<Config>)
      reads store
    {
      i <= maxIterations && OnTheWay(c, d, maxIterations - i, saves) && Logged(store, before, threadId, saves)
    }

    method Close(threadId: string, ghost c: Config, d: Config, i: nat, ghost before: Snapshot, ghost saves: seq<Config>)
      requires Here(threadId, c, d, i, before, saves) && (d.node == END || i == maxIterations)
      modifies store
      ensures Logged(store, before, threadId, Saves(graph, everyNode, c, maxIterations))
    {
      SaveHere(threadId, d, before, saves);
      LastTurn(c, d, maxIterations - i, saves);
    }

    /** One pass of the loop for a known node. */
    method Pass(threadId: string, shared: SharedState, node: string, i: nat, ghost c: Config, ghost before: Snapshot,
            ghost saves: seq<Config>)
      returns (r: Result<string, RuntimeError>)
      requires Indexed(graph) && node in graph.nodes && node != END && i < maxIterations
      requires Here(threadId, c, Config(node, shared.value), i, before, saves)
      modifies shared, store
      ensures var d := Config(node, old(shared.value));
        match Step(graph, d)
        case Halted(e) => r == Err(e) && Logged(store, before, threadId, Saves(graph, everyNode, c, maxIterations))
        case Moved(next, _) =>
          && r == Ok(next.node) && shared.value == next.state
          && Here(threadId, c, next, i + 1, before, SavesWith(saves, d))
    {
      ghost var d := Config(node, shared.value);
      if everyNode {
        SaveHere(threadId, Config(node, shared.value), before, saves);
      }
      if Step(graph, d).Halted? {
        LastTurn(c, d, maxIterations - i, saves);
      } else {
        OneTurn(c, d, maxIterations - i, saves);
      }
      var moving := Advance(graph, node, shared);
      match moving {
        case Err(e) => return Err(e);
        case Ok(m) => return Ok(m.next);
      }
    }

    /** Runs from a start node and logs, after what is there, the checkpoints of this run. */
    method RunLoop(threadId: string, shared: SharedState, start: Option<string>)
      returns (r: Result<AgentState, RuntimeError>)
      requires Indexed(graph)
      modifies shared, store
      ensures r == Answer(Run(graph, Config(StartNode(start), old(shared.value)), maxIterations), maxIterations)
      ensures Logged(store, old(store.Now()), threadId,
        Saves(graph, everyNode, Config(StartNode(start), old(shared.value)), maxIterations))
    {
      var node := StartNode(start);
      ghost var c := Config(node, shared.value);
      ghost var before := store.Now();
      ghost var saves: seq<Config> := [];
      var i := 0;
      while true
        invariant Here(threadId, c, Config(node, shared.value), i, before, saves)
        decreases maxIterations - i
      {
        ghost var d := Config(node, shared.value);
        if node == END || i >= maxIterations {
          Close(threadId, c, Config(node, shared.value), i, before, saves);
          return if node == END then Ok(shared.value) else Err(RecursionLimit(maxIterations));
        }
        if node !in graph.nodes {
          LastTurn(c, d, maxIterations - i, saves);
          return Err(UnknownNode(node));
        }
        var next := Pass(threadId, shared, node, i, c, before, saves);
        if next.Err? {
          return Err(next.error);
        }
        saves := SavesWith(saves, d);
        i := i + 1;
        node := next.value;
      }
    }

    method Invoke(threadId: string, initial: AgentState) returns (r: Result<AgentState, RuntimeError>)
      requires Indexed(graph)
      modifies store
      ensures r == Answer(Run(graph, Config(graph.entryPoint, initial), maxIterations), maxIterations)
      ensures Logged(store, old(store.Now()), threadId,
        Saves(graph, everyNode, Config(graph.entryPoint, initial), maxIterations))
    {
      var shared := new SharedState(initial);
      r := RunLoop(threadId, shared, None);
    }

    /** The run from this checkpoint has answered and has logged its saves under the checkpoint's thread. */
    ghost predicate ResumedAt(c: Checkpoint, r: Result<AgentState, RuntimeError>, before: Snapshot)
      reads store
    {
      && r == Answer(Run(graph, At(c), maxIterations), maxIterations)
      && Logged(store, before, c.threadId, Saves(graph, everyNode, At(c), maxIterations))
    }

    /** Goes on from the latest checkpoint of the thread. */
    method Resume(threadId: string) returns (r: Result<AgentState, RuntimeError>)
      requires Indexed(graph)
      modifies store
      ensures match Load(old(store.State()), threadId)
              case None => r == Err(CheckpointNotFound(threadId)) && store.State() == old(store.State()) &&
                store.log == old(store.log)
              case Some(c) => ResumedAt(c.(threadId := threadId), r, old(store.Now()))
    {
      var found := store.LoadLatest(threadId);
      if found.None? {
        return Err(CheckpointNotFound(threadId));
      }
      var shared := new SharedState(found.value.state);
      r := RunLoop(threadId, shared, Some(found.value.nodeId));
    }

    /** Goes on from a given checkpoint, saving to that checkpoint's thread. */
    method ResumeFrom(id: string) returns (r: Result<AgentState, RuntimeError>)
      requires Indexed(graph)
      modifies store
      ensures match LoadById(old(store.State()), id)
              case None => r == Err(CheckpointNotFound(id)) && store.State() == old(store.State()) &&
                store.log == old(store.log)
              case Some(c) => ResumedAt(c, r, old(store.Now()))
    {
      var found := store.LoadCheckpoint(id);
      if found.None? {
        return Err(CheckpointNotFound(id));
      }
      var shared := new SharedState(found.value.state);
      r := RunLoop(found.value.threadId, shared, Some(found.value.nodeId));
    }
  }

  function At(c: Checkpoint): Config {
    Config(c.nodeId, c.state)
  }

  // ---- Runs and resumes through the store ----

  /** A run stopped by its limit and resumed from the store: one run with the limits added. */
  method StopAndResume(g: Compiled, a: nat, b: nat, every: bool, threadId: string, initial: AgentState,
          store: MemoryCheckpointer)
    returns (first: Result<AgentState, RuntimeError>, second: Result<AgentState, RuntimeError>)
    requires Indexed(g) && store.Valid()
    modifies store
    ensures var c := Config(g.entryPoint, initial);
      && first == Answer(Run(g, c, a), a)
      && (Run(g, c, a).OutOfFuel? ==> second == Answer(Run(g, c, a + b), b))
      && (Run(g, c, a).Completed? ==> second == first)
  {
    ghost var c := Config(g.entryPoint, initial);
    ghost var before := store.log;
    var runner := new CheckpointingRunner(g, a, every, store);
    first := runner.Invoke(threadId, initial);
    ghost var saves := Saves(g, every, c, a);
    var resumer := new CheckpointingRunner(g, b, every, store);
    if Run(g, c, a).OutOfFuel? {
      ResumeAfterLimit(g, every, c, a, b);
      LatestInStore(store.log, |before|, threadId, saves);
    }
    if Run(g, c, a).Completed? {
      CompletedSave(g, every, c, a);
      LatestInStore(store.log, |before|, threadId, saves);
    }
    QueriesAnswer(store.State(), store.log, threadId);
    second := resumer.Resume(threadId);
  }

  /** Resumed from any checkpoint it saved, a run that did not hit its limit gives its answer again. */
  method InvokeAndResumeFrom(g: Compiled, max: nat, every: bool, threadId: string, initial: AgentState,
        store: MemoryCheckpointer, choose: seq<Checkpoint> -> string)
    returns (first: Result<AgentState, RuntimeError>, second: Result<AgentState, RuntimeError>, ghost saved: Log,
      ghost id: string)
    requires Indexed(g) && store.Valid()
    modifies store
    ensures first == Answer(Run(g, Config(g.entryPoint, initial), max), max)
    ensures Stamped(saved, threadId, Saves(g, every, Config(g.entryPoint, initial), max))
    ensures !Run(g, Config(g.entryPoint, initial), max).OutOfFuel? && (exists c :: c in saved && c.id == id) ==>
      second == first
  {
    ghost var c := Config(g.entryPoint, initial);
    ghost var before := store.log;
    var runner := new CheckpointingRunner(g, max, every, store);
    first := runner.Invoke(threadId, initial);
    saved := store.log[|before|..];
    var newest := store.ListThread(threadId);
    var chosen := choose(newest);
    id := chosen;
    if !Run(g, c, max).OutOfFuel? && exists d :: d in saved && d.id == chosen {
      var d :| d in saved && d.id == chosen;
      var k :| 0 <= k < |saved| && saved[k] == d;
      assert At(d) == Saves(g, every, c, max)[k];
      ResumeAnywhere(g, every, c, max, At(d));
      assert d in store.log;
      QueriesAnswer(store.State(), store.log, threadId);
    }
    second := runner.ResumeFrom(chosen);
  }

  lemma {:induction false} CompletedSave(g: Compiled, every: bool, c: Config, fuel: nat)
    requires Run(g, c, fuel).Completed?
    ensures EndsWith(Saves(g, every, c, fuel), Config(END, Run(g, c, fuel).state))
    decreases fuel
  {
    if c.node != END {
      CompletedSave(g, every, Step(g, c).next, fuel - 1);
    }
  }

  /** The newest checkpoint of the thread is the last configuration the run saved. */
  lemma LatestInStore(log: Log, n: nat, threadId: string, saves: seq<Config>)
    requires n <= |log| && saves != [] && Stamped(log[n..], threadId, saves)
    ensures OfThread(log, threadId) != [] && At(Reverse(OfThread(log, threadId))[0]) == saves[|saves| - 1]
  {
    var last := log[|log| - 1];
    assert last == log[n..][|saves| - 1];
    assert log == log[..|log| - 1] + [last];
    OfThreadSnoc(log[..|log| - 1], last, threadId);
  }
}
