/** The event-publishing runner: the same answers, and an event stream that tells the run. */
module StreamingRunner {
  import opened Wrappers
  import opened AgentStates
  import opened Graph
  import opened Execution
  import opened CheckpointStore
  import opened CheckpointRunner
  import opened Sequences

  /** Published events; time stamps and durations are left out, causes stand for their text. */
  datatype Event =
    | GraphStarted(thread: string, name: Option<string>, entry: string)
    | NodeEntered(thread: string, node: string, iteration: nat)
    | NodeExited(thread: string, node: string, next: Option<string>)
    | NodeErrored(thread: string, node: string, error: string)
    | CheckpointSaved(thread: string, checkpointId: string, node: string)
    | CheckpointRestored(thread: string, checkpointId: string, node: string)
    | GraphCompleted(thread: string, iterations: nat)
    | GraphErrored(thread: string, cause: RuntimeError)

  // ---- The story of a run ----

  /** An event up to the random identifier it carries. */
  function Anonymous(e: Event): Event {
    match e
    case CheckpointSaved(t, _, node) => CheckpointSaved(t, "", node)
    case _ => e
  }

  function AnonymousAll(es: seq<Event>): seq<Event> {
    seq(|es|, i requires 0 <= i < |es| => Anonymous(es[i]))
  }

  function SavedIf(saving: bool, t: string, node: string): seq<Event> {
    if saving then [CheckpointSaved(t, "", node)] else []
  }

  function Opening(saving: bool, t: string, node: string, i: nat): seq<Event> {
    [NodeEntered(t, node, i)] + SavedIf(saving, t, node)
  }

  function Failure(t: string, node: string, e: string): seq<Event> {
    [NodeErrored(t, node, e), GraphErrored(t, NodeFailed(node, e))]
  }

  /** The events, after the first, of a run that has executed `i` nodes and may execute `fuel` more. */
  function Story(g: Compiled, saving: bool, t: string, c: Config, fuel: nat, i: nat): seq<Event>
    decreases fuel
  {
    if c.node == END then [GraphCompleted(t, i)] + SavedIf(saving, t, END)
    else if fuel == 0 then [GraphErrored(t, RecursionLimit(i))]
    else match Step(g, c)
      case Halted(UnknownNode(_)) => []
      case Halted(NodeFailed(_, e)) => Opening(saving, t, c.node, i) + Failure(t, c.node, e)
      case Moved(next, _) =>
        Opening(saving, t, c.node, i) +
          ([NodeExited(t, c.node, UnlessEnd(next.node))] + Story(g, saving, t, next, fuel - 1, i + 1))
  }

  // ---- What a listener can rely on ----

  /** A listener's view: outside any node, inside one, or after the end. */
  datatype Phase =
    | Between(next: Option<string>)
    | Inside(node: string)
    | Failing(node: string, error: string)
    | Ended
    | Garbled

  function Hear(p: Phase, e: Event): Phase {
    match (p, e)
    case (Between(Some(n)), NodeEntered(_, node, _)) => if node == n then Inside(n) else Garbled
    case (Between(None), GraphCompleted(_, _)) => Ended
    case (Between(Some(_)), GraphErrored(_, RecursionLimit(_))) => Ended
    case (Inside(n), CheckpointSaved(_, _, node)) => if node == n then Inside(n) else Garbled
    case (Inside(n), NodeExited(_, node, next)) => if node == n then Between(next) else Garbled
    case (Inside(n), NodeErrored(_, node, error)) => if node == n then Failing(n, error) else Garbled
    case (Failing(n, error), GraphErrored(_, cause)) => if cause == NodeFailed(n, error) then Ended else Garbled
    case (Ended, CheckpointSaved(_, _, node)) => if node == END then Ended else Garbled
    case _ => Garbled
  }

  function HearAll(p: Phase, es: seq<Event>): Phase
    decreases |es|
  {
    if es == [] then p else HearAll(Hear(p, es[0]), es[1..])
  }

  lemma HearCons(p: Phase, e: Event, es: seq<Event>)
    ensures HearAll(p, [e] + es) == HearAll(Hear(p, e), es)
  {
    assert ([e] + es)[1..] == es;
  }

  lemma HearOpening(saving: bool, t: string, node: string, i: nat, rest: seq<Event>)
    ensures HearAll(Between(Some(node)), Opening(saving, t, node, i) + rest) == HearAll(Inside(node), rest)
  {
    var saved := SavedIf(saving, t, node);
    assert Opening(saving, t, node, i) + rest == [NodeEntered(t, node, i)] + (saved + rest);
    HearCons(Between(Some(node)), NodeEntered(t, node, i), saved + rest);
    if saving {
      HearCons(Inside(node), CheckpointSaved(t, "", node), rest);
    } else {
      assert saved + rest == rest;
    }
  }

  lemma HearFailure(t: string, node: string, e: string)
    ensures HearAll(Inside(node), Failure(t, node, e)) == Ended
  {
    var last := [GraphErrored(t, NodeFailed(node, e))];
    assert Failure(t, node, e) == [NodeErrored(t, node, e)] + last;
    HearCons(Inside(node), NodeErrored(t, node, e), last);
    HearCons(Failing(node, e), last[0], []);
  }

  lemma HearCompletion(saving: bool, t: string, i: nat)
    ensures HearAll(Between(None), [GraphCompleted(t, i)] + SavedIf(saving, t, END)) == Ended
  {
    HearCons(Between(None), GraphCompleted(t, i), SavedIf(saving, t, END));
    HearCons(Ended, CheckpointSaved(t, "", END), []);
  }

  /** Every story follows the protocol, and it lacks an end exactly when a node is unknown. */
  lemma {:induction false} StoryFollowsProtocol(g: Compiled, saving: bool, t: string, c: Config, fuel: nat, i: nat)
    ensures HearAll(Between(UnlessEnd(c.node)), Story(g, saving, t, c, fuel, i)) == Finally(Run(g, c, fuel))
    decreases fuel
  {
    if c.node == END {
      HearCompletion(saving, t, i);
    } else if fuel == 0 {
      HearCons(Between(Some(c.node)), GraphErrored(t, RecursionLimit(i)), []);
    } else {
      match Step(g, c) {
        case Halted(UnknownNode(_)) =>
        case Halted(NodeFailed(_, e)) =>
          HearOpening(saving, t, c.node, i, Failure(t, c.node, e));
          HearFailure(t, c.node, e);
        case Moved(next, _) =>
          var exited := NodeExited(t, c.node, UnlessEnd(next.node));
          var rest := Story(g, saving, t, next, fuel - 1, i + 1);
          HearOpening(saving, t, c.node, i, [exited] + rest);
          HearCons(Inside(c.node), exited, rest);
          StoryFollowsProtocol(g, saving, t, next, fuel - 1, i + 1);
      }
    }
  }

  /** Where a listener is left by a run; an unknown node is never announced. */
  function Finally(o: Outcome): Phase {
    match o
    case Stopped(UnknownNode(id)) => Between(Some(id))
    case _ => Ended
  }

  /** The entered nodes with their iteration numbers. */
  function Entered(es: seq<Event>): seq<(string, nat)> {
    if es == [] then []
    else if es[0].NodeEntered? then [(es[0].node, es[0].iteration)] + Entered(es[1..])
    else Entered(es[1..])
  }

  function Numbered(t: seq<Config>, i: nat): seq<(string, nat)> {
    seq(|t|, k requires 0 <= k < |t| => (t[k].node, i + k))
  }

  lemma EnteredSkip(e: Event, es: seq<Event>)
    requires !e.NodeEntered?
    ensures Entered([e] + es) == Entered(es)
  {
    assert ([e] + es)[1..] == es;
  }

  lemma EnteredOpening(saving: bool, t: string, node: string, i: nat, rest: seq<Event>)
    ensures Entered(Opening(saving, t, node, i) + rest) == [(node, i)] + Entered(rest)
  {
    var saved := SavedIf(saving, t, node);
    var all := Opening(saving, t, node, i) + rest;
    assert all[0] == NodeEntered(t, node, i) && all[1..] == saved + rest;
    if saving {
      EnteredSkip(CheckpointSaved(t, "", node), rest);
    } else {
      assert saved + rest == rest;
    }
  }

  lemma EnteredFailure(t: string, node: string, e: string)
    ensures Entered(Failure(t, node, e)) == []
  {
    var last := [GraphErrored(t, NodeFailed(node, e))];
    assert Failure(t, node, e) == [NodeErrored(t, node, e)] + last;
    EnteredSkip(NodeErrored(t, node, e), last);
    EnteredSkip(last[0], []);
  }

  lemma NumberedCons(c: Config, rest: seq<Config>, i: nat)
    ensures Numbered([c] + rest, i) == [(c.node, i)] + Numbered(rest, i + 1)
  {
    forall k | 0 < k <= |rest| ensures Numbered([c] + rest, i)[k] == Numbered(rest, i + 1)[k - 1] {
      assert ([c] + rest)[k] == rest[k - 1];
    }
  }

  /** The stream announces exactly the nodes the run executes, numbered from `i`. */
  lemma {:induction false} StoryEntersTrace(g: Compiled, saving: bool, t: string, c: Config, fuel: nat, i: nat)
    ensures Entered(Story(g, saving, t, c, fuel, i)) == Numbered(Trace(g, c, fuel), i)
    decreases fuel
  {
    if c.node == END {
      EnteredSkip(GraphCompleted(t, i), SavedIf(saving, t, END));
      EnteredSkip(CheckpointSaved(t, "", END), []);
    } else if fuel == 0 {
      EnteredSkip(GraphErrored(t, RecursionLimit(i)), []);
    } else {
      match Step(g, c) {
        case Halted(UnknownNode(_)) =>
        case Halted(NodeFailed(_, e)) =>
          EnteredOpening(saving, t, c.node, i, Failure(t, c.node, e));
          EnteredFailure(t, c.node, e);
          NumberedCons(c, [], i);
        case Moved(next, _) =>
          var exited := NodeExited(t, c.node, UnlessEnd(next.node));
          var rest := Story(g, saving, t, next, fuel - 1, i + 1);
          EnteredOpening(saving, t, c.node, i, [exited] + rest);
          EnteredSkip(exited, rest);
          StoryEntersTrace(g, saving, t, next, fuel - 1, i + 1);
          NumberedCons(c, Trace(g, next, fuel - 1), i);
      }
    }
  }

  /** Every event of a story carries the run's thread. */
  lemma {:induction false} StoryOnThread(g: Compiled, saving: bool, t: string, c: Config, fuel: nat, i: nat)
    ensures forall k :: 0 <= k < |Story(g, saving, t, c, fuel, i)| ==> Story(g, saving, t, c, fuel, i)[k].thread == t
    decreases fuel
  {
    if c.node != END && fuel > 0 && Step(g, c).Moved? {
      StoryOnThread(g, saving, t, Step(g, c).next, fuel - 1, i + 1);
    }
  }

  /** The event that tells how the run ended. */
  ghost predicate TellsEnd(o: Outcome, t: string, executed: nat, e: Event) {
    match o
    case Completed(_) => e == GraphCompleted(t, executed)
    case OutOfFuel(_) => e == GraphErrored(t, RecursionLimit(executed))
    case Stopped(error) => e == GraphErrored(t, error)
  }

  ghost predicate Ending(e: Event) {
    e.GraphCompleted? || e.GraphErrored?
  }

  /** The final events of a story tell the run's end, and as their number how many nodes have been executed. */
  lemma {:induction false} StoryCounts(g: Compiled, saving: bool, t: string, c: Config, fuel: nat, i: nat)
    ensures forall k :: 0 <= k < |Story(g, saving, t, c, fuel, i)| && Ending(Story(g, saving, t, c, fuel, i)[k]) ==>
      TellsEnd(Run(g, c, fuel), t, i + |Trace(g, c, fuel)|, Story(g, saving, t, c, fuel, i)[k])
    decreases fuel
  {
    if c.node != END && fuel > 0 && Step(g, c).Moved? {
      StoryCounts(g, saving, t, Step(g, c).next, fuel - 1, i + 1);
    }
  }

  /** The nodes of the announced saves. */
  function Announced(es: seq<Event>): seq<string> {
    if es == [] then []
    else if es[|es| - 1].CheckpointSaved? then Announced(es[..|es| - 1]) + [es[|es| - 1].node]
    else Announced(es[..|es| - 1])
  }

  function NodesOf(cs: seq<Config>): seq<string> {
    seq(|cs|, k requires 0 <= k < |cs| => cs[k].node)
  }

  lemma {:induction false} AnnouncedConcat(a: seq<Event>, b: seq<Event>)
    ensures Announced(a + b) == Announced(a) + Announced(b)
  {
    if b == [] {
      assert a + b == a;
    } else {
      var n := |b| - 1;
      assert (a + b)[..|a| + n] == a + b[..n];
      AnnouncedConcat(a, b[..n]);
    }
  }

  lemma AnnouncedOne(e: Event)
    ensures Announced([e]) == if e.CheckpointSaved? then [e.node] else []
  {
    assert [e][..0] == [];
  }

  lemma AnnouncedIf(saving: bool, t: string, node: string, first: Event)
    requires !first.CheckpointSaved?
    ensures Announced([first] + SavedIf(saving, t, node)) == if saving then [node] else []
  {
    AnnouncedOne(first);
    AnnouncedOne(CheckpointSaved(t, "", node));
    AnnouncedConcat([first], SavedIf(saving, t, node));
  }

  lemma AnnouncedFailure(t: string, node: string, e: string)
    ensures Announced(Failure(t, node, e)) == []
  {
    var first, last := NodeErrored(t, node, e), GraphErrored(t, NodeFailed(node, e));
    AnnouncedOne(first);
    AnnouncedOne(last);
    AnnouncedConcat([first], [last]);
  }

  lemma AnnouncedStop(saving: bool, t: string, node: string, i: nat, e: string)
    ensures Announced(Opening(saving, t, node, i) + Failure(t, node, e)) == if saving then [node] else []
  {
    AnnouncedIf(saving, t, node, NodeEntered(t, node, i));
    AnnouncedFailure(t, node, e);
    AnnouncedConcat(Opening(saving, t, node, i), Failure(t, node, e));
  }

  lemma AnnouncedTurn(saving: bool, t: string, c: Config, next: Config, i: nat, rest: seq<Event>)
    ensures Announced(Opening(saving, t, c.node, i) + ([NodeExited(t, c.node, UnlessEnd(next.node))] + rest)) ==
      (if saving then [c.node] else []) + Announced(rest)
  {
    var exited := NodeExited(t, c.node, UnlessEnd(next.node));
    AnnouncedIf(saving, t, c.node, NodeEntered(t, c.node, i));
    AnnouncedOne(exited);
    AnnouncedConcat([exited], rest);
    AnnouncedConcat(Opening(saving, t, c.node, i), [exited] + rest);
  }

  /** The nodes a saving run announces: the executed ones, and END when it gets there. */
  function AnnouncedNodes(g: Compiled, c: Config, fuel: nat): seq<string>
    decreases fuel
  {
    if c.node == END then [END]
    else if fuel == 0 then []
    else match Step(g, c)
      case Halted(UnknownNode(_)) => []
      case Halted(_) => [c.node]
      case Moved(next, _) => [c.node] + AnnouncedNodes(g, next, fuel - 1)
  }

  lemma NodesCons(c: Config, rest: seq<Config>)
    ensures NodesOf([c] + rest) == [c.node] + NodesOf(rest)
  {
  }

  lemma StoryStopsHere(g: Compiled, saving: bool, t: string, c: Config, fuel: nat, i: nat)
    requires c.node == END || fuel == 0 || Step(g, c).Halted?
    ensures Announced(Story(g, saving, t, c, fuel, i)) == if saving then AnnouncedNodes(g, c, fuel) else []
  {
    if c.node == END {
      AnnouncedIf(saving, t, END, GraphCompleted(t, i));
    } else if fuel == 0 {
      AnnouncedOne(GraphErrored(t, RecursionLimit(i)));
    } else if Step(g, c).error.NodeFailed? {
      AnnouncedStop(saving, t, c.node, i, Step(g, c).error.error);
    }
  }

  lemma StoryGoesOn(g: Compiled, saving: bool, t: string, c: Config, fuel: nat, i: nat)
    requires c.node != END && fuel > 0 && Step(g, c).Moved?
    ensures Announced(Story(g, saving, t, c, fuel, i)) ==
      (if saving then [c.node] else []) + Announced(Story(g, saving, t, Step(g, c).next, fuel - 1, i + 1))
  {
    AnnouncedTurn(saving, t, c, Step(g, c).next, i, Story(g, saving, t, Step(g, c).next, fuel - 1, i + 1));
  }

  /** A saving run announces a save for each node it executes and at END; a run that does not save announces none. */
  lemma {:induction false} StoryAnnounces(g: Compiled, saving: bool, t: string, c: Config, fuel: nat, i: nat)
    ensures Announced(Story(g, saving, t, c, fuel, i)) == if saving then AnnouncedNodes(g, c, fuel) else []
    decreases fuel
  {
    if c.node == END || fuel == 0 || Step(g, c).Halted? {
      StoryStopsHere(g, saving, t, c, fuel, i);
    } else {
      StoryAnnounces(g, saving, t, Step(g, c).next, fuel - 1, i + 1);
      StoryGoesOn(g, saving, t, c, fuel, i);
    }
  }

  /** What is announced is what is saved, except that the save at the limit is not announced. */
  lemma {:induction false} AnnouncedAreSaves(g: Compiled, c: Config, fuel: nat)
    ensures !Run(g, c, fuel).OutOfFuel? ==> AnnouncedNodes(g, c, fuel) == NodesOf(Saves(g, true, c, fuel))
    ensures Run(g, c, fuel).OutOfFuel? ==>
      AnnouncedNodes(g, c, fuel) + [Run(g, c, fuel).at.node] == NodesOf(Saves(g, true, c, fuel))
    decreases fuel
  {
    if c.node != END && fuel > 0 && Step(g, c).Moved? {
      AnnouncedAreSaves(g, Step(g, c).next, fuel - 1);
      NodesCons(c, Saves(g, true, Step(g, c).next, fuel - 1));
    }
  }

  // ---- The runner ----

  class EventBus {
    var events: seq<Event>

    constructor ()
      ensures events == []
    {
      events := [];
    }

    method Publish(e: Event)
      modifies this
      ensures events == old(events) + [e]
    {
      events := events + [e];
    }
  }

  /** What a streaming run saves: with a store, everything per node, or else only at the limit. */
  function StreamSaves(g: Compiled, stored: bool, every: bool, c: Config, fuel: nat): seq<Config> {
    if !stored then []
    else if every then Saves(g, true, c, fuel)
    else if Run(g, c, fuel).OutOfFuel? then [Run(g, c, fuel).at]
    else []
  }

  /** What a stream saves: without a store nothing; without saving every node, only where a limit stopped it. */
  lemma StreamSavesAre(g: Compiled, stored: bool, every: bool, c: Config, fuel: nat)
    ensures !stored ==> StreamSaves(g, stored, every, c, fuel) == []
    ensures stored && every ==> StreamSaves(g, stored, every, c, fuel) == Saves(g, true, c, fuel)
    ensures stored && !every && !Run(g, c, fuel).OutOfFuel? ==> StreamSaves(g, stored, every, c, fuel) == []
    ensures stored && !every && Run(g, c, fuel).OutOfFuel? ==>
      StreamSaves(g, stored, every, c, fuel) == [Run(g, c, fuel).at]
  {
  }

  /** Stopped by limit `a`, a stream with a store can go on from its last save: with limit `b` it is one run. */
  lemma StreamResumesAfterLimit(g: Compiled, every: bool, c: Config, a: nat, b: nat)
    requires Run(g, c, a).OutOfFuel?
    ensures var saves := StreamSaves(g, true, every, c, a);
      saves != [] && Run(g, saves[|saves| - 1], b) == Run(g, c, a + b)
  {
    ResumeAfterLimit(g, true, c, a, b);
    RunSplit(g, c, a, b);
  }

  /** An announced save names a checkpoint that the log holds. */
  ghost predicate Backed(log: Log, e: Event) {
    e.CheckpointSaved? ==> exists c ::
      c in log && c.id == e.checkpointId && c.threadId == e.thread && c.nodeId == e.node
  }

  ghost predicate AllBacked(log: Log, es: seq<Event>) {
    forall k :: 0 <= k < |es| ==> Backed(log, es[k])
  }

  lemma StillBacked(log: Log, longer: Log, es: seq<Event>)
    requires AllBacked(log, es) && log <= longer
    ensures AllBacked(longer, es)
  {
    forall k | 0 <= k < |es| ensures Backed(longer, es[k]) {
      assert Backed(log, es[k]);
      assert forall c :: c in log ==> c in longer;
    }
  }

  /** How a round of the loop ends: with the run's result, or at the next node. */
  datatype Visited = Over(result: Result<AgentState, RuntimeError>) | GoesOn(node: string)

  class StreamingRunner {
    const graph: Compiled
    const maxIterations: nat
    const everyNode: bool
    const bus: EventBus
    const store: MemoryCheckpointer?

    constructor (graph: Compiled, maxIterations: nat, everyNode: bool, bus: EventBus, store: MemoryCheckpointer?)
      ensures this.graph == graph && this.maxIterations == maxIterations && this.everyNode == everyNode
      ensures this.bus == bus && this.store == store
    {
      this.graph := graph;
      this.maxIterations := maxIterations;
      this.everyNode := everyNode;
      this.bus := bus;
      this.store := store;
    }

    ghost function Stored(): set<object> {
      if store == null then {} else {store}
    }

    ghost function CurrentLog(): Log
      reads Stored()
    {
      if store == null then [] else store.log
    }

    ghost function Current(): Snapshot
      reads Stored()
    {
      if store == null then Snapshot([], true) else store.Now()
    }

    /** Since `before`, exactly these saves of the thread have been logged. */
    ghost predicate Logged(before: Snapshot, t: string, saves: seq<Config>)
      reads Stored()
    {
      if store == null then saves == [] else CheckpointRunner.Logged(store, before, t, saves)
    }

    /** Since `before`, exactly this story has been published. */
    ghost predicate Told(before: seq<Event>, story: seq<Event>)
      reads bus, Stored()
    {
      && before <= bus.events && AnonymousAll(bus.events[|before|..]) == story
      && AllBacked(CurrentLog(), bus.events[|before|..])
    }

    method Tell(e: Event, ghost before: seq<Event>, ghost story: seq<Event>)
      requires Told(before, story) && Backed(CurrentLog(), e)
      modifies bus
      ensures Told(before, story + [Anonymous(e)])
    {
      bus.Publish(e);
      assert bus.events[|before|..] == old(bus.events)[|before|..] + [e];
    }

    predicate Saving() {
      everyNode && store != null
    }

    /** Saves the current configuration; `announced` when the save is one of every node. */
    method SaveHere(t: string, c: Config, announced: bool, ghost before: Snapshot, ghost saves: seq<Config>,
            ghost told: seq<Event>, ghost story: seq<Event>)
      requires store != null
      requires Logged(before, t, saves) && Told(told, story)
      modifies bus, store
      ensures Logged(before, t, saves + [c])
      ensures Told(told, story + SavedIf(announced, t, c.node))
    {
      ghost var log := store.log;
      var saved := SaveNew(store, t, c, before, saves);
      StillBacked(log, store.log, bus.events[|told|..]);
      if announced {
        assert store.log[|log|] == saved;
        Tell(CheckpointSaved(t, saved.id, c.node), told, story);
      }
    }

    function StartNode(start: Option<string>): string {
      if start.Some? then start.value else graph.entryPoint
    }

    /** Where a run that began at `c` stands after `i` executions. */
    ghost predicate OnTheWay(c: Config, d: Config, i: nat, saves: seq<Config>, t: string, story: seq<Event>) {
      && i <= maxIterations
      && Run(graph, d, maxIterations - i) == Run(graph, c, maxIterations)
      && SavedOnTheWay(c, d, i, saves)
      && story + Story(graph, Saving(), t, d, maxIterations - i, i) == Story(graph, Saving(), t, c, maxIterations, 0)
    }

    ghost predicate SavedOnTheWay(c: Config, d: Config, i: nat, saves: seq<Config>)
      requires i <= maxIterations
    {
      if Saving()
      then saves + Saves(graph, true, d, maxIterations - i) == Saves(graph, true, c, maxIterations)
      else saves == []
    }

    lemma SavedTurn(c: Config, d: Config, i: nat, saves: seq<Config>)
      requires i < maxIterations && SavedOnTheWay(c, d, i, saves)
      requires d.node != END && Step(graph, d).Moved?
      ensures SavedOnTheWay(c, Step(graph, d).next, i + 1, SavesAfter(saves, d))
    {
      if Saving() {
        var saved := Saves(graph, true, Step(graph, d).next, maxIterations - i - 1);
        assert saves + ([d] + saved) == saves + [d] + saved;
      }
    }

    lemma StoryTurn(d: Config, i: nat, t: string, story: seq<Event>)
      requires i < maxIterations && d.node != END && Step(graph, d).Moved?
      ensures story + Story(graph, Saving(), t, d, maxIterations - i, i)
           == StoryAfter(t, d, i, story) + Story(graph, Saving(), t, Step(graph, d).next, maxIterations - i - 1, i + 1)
    {
      var next := Step(graph, d).next;
      var opening := Opening(Saving(), t, d.node, i);
      var exited := [NodeExited(t, d.node, UnlessEnd(next.node))];
      var rest := Story(graph, Saving(), t, next, maxIterations - i - 1, i + 1);
      assert story + (opening + (exited + rest)) == story + opening + exited + rest;
    }

    ghost predicate Done(c: Config, saves: seq<Config>, t: string, story: seq<Event>) {
      && saves == StreamSaves(graph, store != null, everyNode, c, maxIterations)
      && story == Story(graph, Saving(), t, c, maxIterations, 0)
    }

    /** The run is over, for a reason that leaves nothing more to save or to tell. */
    lemma DoneHere(c: Config, d: Config, i: nat, saves: seq<Config>, t: string, story: seq<Event>)
      requires OnTheWay(c, d, i, saves, t, story)
      requires d.node == END || i == maxIterations || Step(graph, d).Halted?
      ensures var here := StreamSaves(graph, store != null, everyNode, d, maxIterations - i);
        Done(c, saves + here, t, story + Story(graph, Saving(), t, d, maxIterations - i, i))
    {
    }

    lemma OneTurn(c: Config, d: Config, i: nat, saves: seq<Config>, t: string, story: seq<Event>)
      requires OnTheWay(c, d, i, saves, t, story)
      requires d.node != END && i < maxIterations && Step(graph, d).Moved?
      ensures OnTheWay(c, Step(graph, d).next, i + 1, SavesAfter(saves, d), t, StoryAfter(t, d, i, story))
    {
      SavedTurn(c, d, i, saves);
      StoryTurn(d, i, t, story);
    }

    /** Announces a node and, when every node is saved, saves what it is about to run on. */
    method Enter(t: string, d: Config, i: nat, ghost before: Snapshot, ghost saves: seq<Config>, ghost told: seq<Event>,
            ghost story: seq<Event>)
      requires Logged(before, t, saves) && Told(told, story)
      modifies bus, Stored()
      ensures Logged(before, t, saves + if Saving() then [d] else [])
      ensures Told(told, story + Opening(Saving(), t, d.node, i))
    {
      Tell(NodeEntered(t, d.node, i), told, story);
      if everyNode && store != null {
        SaveHere(t, d, true, before, saves, told, story + [NodeEntered(t, d.node, i)]);
        assert story + [NodeEntered(t, d.node, i)] + SavedIf(true, t, d.node) == story + Opening(true, t, d.node, i);
      } else {
        assert saves + [] == saves;
        assert Opening(false, t, d.node, i) == [NodeEntered(t, d.node, i)];
      }
    }

    method Finish(t: string, d: Config, i: nat, ghost before: Snapshot, ghost saves: seq<Config>,
            ghost told: seq<Event>, ghost story: seq<Event>)
      requires d.node == END && i <= maxIterations
      requires Logged(before, t, saves) && Told(told, story)
      modifies bus, Stored()
      ensures Logged(before, t, saves + StreamSaves(graph, store != null, everyNode, d, maxIterations - i))
      ensures Told(told, story + Story(graph, Saving(), t, d, maxIterations - i, i))
    {
      Tell(GraphCompleted(t, i), told, story);
      if everyNode && store != null {
        SaveHere(t, d, true, before, saves, told, story + [GraphCompleted(t, i)]);
        assert story + [GraphCompleted(t, i)] + SavedIf(true, t, END) ==
          story + ([GraphCompleted(t, i)] + SavedIf(true, t, END));
      } else {
        assert saves + [] == saves;
        assert [GraphCompleted(t, i)] + SavedIf(false, t, END) == [GraphCompleted(t, i)];
      }
    }

    method HitLimit(t: string, d: Config, ghost before: Snapshot, ghost saves: seq<Config>, ghost told: seq<Event>,
            ghost story: seq<Event>)
      requires d.node != END
      requires Logged(before, t, saves) && Told(told, story)
      modifies bus, Stored()
      ensures Logged(before, t, saves + StreamSaves(graph, store != null, everyNode, d, 0))
      ensures Told(told, story + Story(graph, Saving(), t, d, 0, maxIterations))
    {
      Tell(GraphErrored(t, RecursionLimit(maxIterations)), told, story);
      if store != null {
        ghost var now := story + [GraphErrored(t, RecursionLimit(maxIterations))];
        SaveHere(t, d, false, before, saves, told, now);
        assert now + SavedIf(false, t, d.node) == now;
      } else {
        assert saves + [] == saves;
      }
    }

    method Fail(t: string, node: string, e: string, ghost told: seq<Event>, ghost story: seq<Event>)
      requires Told(told, story)
      modifies bus
      ensures Told(told, story + Failure(t, node, e))
    {
      Tell(NodeErrored(t, node, e), told, story);
      Tell(GraphErrored(t, NodeFailed(node, e)), told, story + [NodeErrored(t, node, e)]);
      assert story + [NodeErrored(t, node, e)] + [GraphErrored(t, NodeFailed(node, e))] == story + Failure(t, node, e);
    }

    /** One pass of the loop for a known node. */
    method Turn(t: string, shared: SharedState, node: string, i: nat, ghost before: Snapshot, ghost saves: seq<Config>,
            ghost told: seq<Event>, ghost story: seq<Event>)
      returns (r: Result<string, RuntimeError>)
      requires Indexed(graph) && node in graph.nodes && node != END && i < maxIterations
      requires Logged(before, t, saves) && Told(told, story)
      modifies shared, bus, Stored()
      ensures Logged(before, t, saves + if Saving() then [Config(node, old(shared.value))] else [])
      ensures match Step(graph, Config(node, old(shared.value)))
              case Halted(e) => r == Err(e) &&
                Told(told, story + Story(graph, Saving(), t, Config(node, old(shared.value)), maxIterations - i, i))
              case Moved(next, _) =>
                && r == Ok(next.node) && shared.value == next.state
                && Told(told, story + Opening(Saving(), t, node, i) + [NodeExited(t, node, UnlessEnd(next.node))])
    {
      Enter(t, Config(node, shared.value), i, before, saves, told, story);
      ghost var entered := story + Opening(Saving(), t, node, i);
      var moving := Advance(graph, node, shared);
      match moving {
        case Err(e) =>
          Fail(t, node, e.error, told, entered);
          assert entered + Failure(t, node, e.error) ==
            story + (Opening(Saving(), t, node, i) + Failure(t, node, e.error));
          return Err(e);
        case Ok(m) =>
          Tell(NodeExited(t, node, UnlessEnd(m.next)), told, entered);
          return Ok(m.next);
      }
    }

    /** The run that began at `c` has come to `d`, has saved `saves` and told `story`. */
    ghost predicate Here(t: string, c: Config, d: Config, i: nat, before: Snapshot, saves: seq<Config>,
            told: seq<Event>, story: seq<Event>)
      reads bus, Stored()
    {
      && OnTheWay(c, d, i, saves, t, story)
      && Logged(before, t, saves)
      && Told(told, Started(t, c) + story)
    }

    /** The run that began at `c` is over, has saved all it should and told its whole story. */
    ghost predicate Over(t: string, c: Config, before: Snapshot, told: seq<Event>)
      reads bus, Stored()
    {
      && Logged(before, t, StreamSaves(graph, store != null, everyNode, c, maxIterations))
      && Told(told, Started(t, c) + Story(graph, Saving(), t, c, maxIterations, 0))
    }

    function Started(t: string, c: Config): seq<Event> {
      [GraphStarted(t, graph.name, c.node)]
    }

    lemma OverHere(t: string, c: Config, d: Config, i: nat, before: Snapshot, saves: seq<Config>, told: seq<Event>,
            story: seq<Event>)
      requires OnTheWay(c, d, i, saves, t, story)
      requires d.node == END || i == maxIterations || Step(graph, d).Halted?
      requires Logged(before, t, saves + StreamSaves(graph, store != null, everyNode, d, maxIterations - i))
      requires Told(told, Started(t, c) + story + Story(graph, Saving(), t, d, maxIterations - i, i))
      ensures Over(t, c, before, told)
    {
      DoneHere(c, d, i, saves, t, story);
      var rest := Story(graph, Saving(), t, d, maxIterations - i, i);
      assert Started(t, c) + story + rest == Started(t, c) + (story + rest);
    }

    method Close(t: string, ghost c: Config, d: Config, i: nat, ghost before: Snapshot, ghost saves: seq<Config>,
            ghost told: seq<Event>, ghost story: seq<Event>)
      requires Here(t, c, d, i, before, saves, told, story)
      requires d.node == END || i == maxIterations
      modifies bus, Stored()
      ensures Over(t, c, before, told)
    {
      if d.node == END {
        Finish(t, d, i, before, saves, told, Started(t, c) + story);
      } else {
        HitLimit(t, d, before, saves, told, Started(t, c) + story);
      }
      OverHere(t, c, d, i, before, saves, told, story);
    }

    lemma Unknown(t: string, c: Config, d: Config, i: nat, before: Snapshot, saves: seq<Config>, told: seq<Event>,
            story: seq<Event>)
      requires Here(t, c, d, i, before, saves, told, story)
      requires d.node != END && i < maxIterations && d.node !in graph.nodes
      ensures Over(t, c, before, told)
      ensures Run(graph, c, maxIterations) == Stopped(UnknownNode(d.node))
    {
      assert saves + [] == saves;
      assert Started(t, c) + story + [] == Started(t, c) + story;
      OverHere(t, c, d, i, before, saves, told, story);
    }

    lemma MovedOn(t: string, c: Config, d: Config, i: nat, before: Snapshot, saves: seq<Config>, told: seq<Event>,
            story: seq<Event>)
      requires OnTheWay(c, d, i, saves, t, story)
      requires d.node != END && i < maxIterations && Step(graph, d).Moved?
      requires Logged(before, t, SavesAfter(saves, d))
      requires Told(told, StoryAfter(t, d, i, Started(t, c) + story))
      ensures Here(t, c, Step(graph, d).next, i + 1, before, SavesAfter(saves, d), told, StoryAfter(t, d, i, story))
    {
      OneTurn(c, d, i, saves, t, story);
      StoryAfterStart(t, c, d, i, story);
    }

    lemma StoryAfterStart(t: string, c: Config, d: Config, i: nat, story: seq<Event>)
      requires Step(graph, d).Moved?
      ensures Started(t, c) + StoryAfter(t, d, i, story) == StoryAfter(t, d, i, Started(t, c) + story)
    {
      Associate3(Started(t, c), story, Opening(Saving(), t, d.node, i),
        [NodeExited(t, d.node, UnlessEnd(Step(graph, d).next.node))]);
    }

    function SavesAfter(saves: seq<Config>, d: Config): seq<Config> {
      saves + if Saving() then [d] else []
    }

    function StoryAfter(t: string, d: Config, i: nat, story: seq<Event>): seq<Event>
      requires Step(graph, d).Moved?
    {
      story + Opening(Saving(), t, d.node, i) + [NodeExited(t, d.node, UnlessEnd(Step(graph, d).next.node))]
    }

    /** A pass that either ends the run or brings it one node further. */
    method Pass(t: string, shared: SharedState, node: string, i: nat, ghost c: Config, ghost before: Snapshot,
            ghost saves: seq<Config>, ghost told: seq<Event>, ghost story: seq<Event>)
      returns (r: Result<string, RuntimeError>)
      requires Indexed(graph) && node in graph.nodes && node != END && i < maxIterations
      requires Here(t, c, Config(node, shared.value), i, before, saves, told, story)
      modifies shared, bus, Stored()
      ensures var d := Config(node, old(shared.value));
        match Step(graph, d)
        case Halted(e) => r == Err(e) && Over(t, c, before, told)
        case Moved(next, _) =>
          && r == Ok(next.node) && shared.value == next.state
          && Here(t, c, next, i + 1, before, SavesAfter(saves, d), told, StoryAfter(t, d, i, story))
    {
      ghost var d := Config(node, shared.value);
      r := Turn(t, shared, node, i, before, saves, told, Started(t, c) + story);
      if Step(graph, d).Halted? {
        OverHere(t, c, d, i, before, saves, told, story);
      } else {
        MovedOn(t, c, d, i, before, saves, told, story);
      }
    }

    method Begin(t: string, c: Config)
      modifies bus
      ensures Here(t, c, c, 0, Current(), [], old(bus.events), [])
    {
      Tell(GraphStarted(t, graph.name, c.node), bus.events, []);
    }

    /** The first event of a run names the thread, the graph and the node it starts from. */
    lemma FirstTold(t: string, c: Config, before: Snapshot, told: seq<Event>)
      requires Over(t, c, before, told)
      ensures told < bus.events && bus.events[|told|] == GraphStarted(t, graph.name, c.node)
    {
      var since := bus.events[|told|..];
      assert AnonymousAll(since)[0] == GraphStarted(t, graph.name, c.node);
      assert Anonymous(since[0]) == GraphStarted(t, graph.name, c.node);
    }

    /** One round of the loop, from the check for END to the choice of the next node. */
    method Visit(t: string, shared: SharedState, node: string, i: nat, ghost c: Config, ghost before: Snapshot,
            ghost saves: seq<Config>, ghost told: seq<Event>, ghost story: seq<Event>)
      returns (r: Visited, ghost saves': seq<Config>, ghost story': seq<Event>)
      requires Indexed(graph) && Here(t, c, Config(node, shared.value), i, before, saves, told, story)
      modifies shared, bus, Stored()
      ensures r.Over? ==> Over(t, c, before, told) && r.result == Answer(Run(graph, c, maxIterations), maxIterations)
      ensures r.GoesOn? ==>
        i < maxIterations && Here(t, c, Config(r.node, shared.value), i + 1, before, saves', told, story')
    {
      ghost var d := Config(node, shared.value);
      saves', story' := saves, story;
      if node == END || i >= maxIterations {
        Close(t, c, Config(node, shared.value), i, before, saves, told, story);
        r := Visited.Over(if node == END then Ok(shared.value) else Err(RecursionLimit(maxIterations)));
      } else if node !in graph.nodes {
        Unknown(t, c, d, i, before, saves, told, story);
        r := Visited.Over(Err(UnknownNode(node)));
      } else {
        var next := Pass(t, shared, node, i, c, before, saves, told, story);
        match next {
          case Err(e) =>
            r := Visited.Over(Err(e));
          case Ok(n) =>
            r := GoesOn(n);
            saves', story' := SavesAfter(saves, d), StoryAfter(t, d, i, story);
        }
      }
    }

    method RunLoop(t: string, shared: SharedState, start: Option<string>) returns (r: Result<AgentState, RuntimeError>)
      requires Indexed(graph)
      modifies shared, bus, Stored()
      ensures r == Answer(Run(graph, Config(StartNode(start), old(shared.value)), maxIterations), maxIterations)
      ensures Over(t, Config(StartNode(start), old(shared.value)), old(Current()), old(bus.events))
    {
      var node := StartNode(start);
      ghost var c := Config(node, shared.value);
      ghost var before, told := Current(), bus.events;
      ghost var saves: seq<Config>, story: seq<Event> := [], [];
      Begin(t, Config(node, shared.value));
      var i := 0;
      while true
        invariant Here(t, c, Config(node, shared.value), i, before, saves, told, story)
        decreases maxIterations - i
      {
        var round: Visited;
        round, saves, story := Visit(t, shared, node, i, c, before, saves, told, story);
        match round {
          case Over(result) =>
            return result;
          case GoesOn(next) =>
            i := i + 1;
            node := next;
        }
      }
    }

    method Invoke(t: string, initial: AgentState) returns (r: Result<AgentState, RuntimeError>)
      requires Indexed(graph)
      modifies bus, Stored()
      ensures r == Answer(Run(graph, Config(graph.entryPoint, initial), maxIterations), maxIterations)
      ensures Over(t, Config(graph.entryPoint, initial), old(Current()), old(bus.events))
    {
      var shared := new SharedState(initial);
      r := RunLoop(t, shared, None);
    }

    /** Nothing has been published, saved or logged. */
    twostate predicate Untouched()
      reads bus, Stored()
    {
      bus.events == old(bus.events) &&
        (store != null ==> store.State() == old(store.State()) && store.log == old(store.log))
    }

    method Resume(t: string) returns (r: Result<AgentState, RuntimeError>)
      requires Indexed(graph)
      modifies bus, Stored()
      ensures store == null ==> r == Err(NoCheckpointer) && Untouched()
      ensures store != null ==>
        match Load(old(store.State()), t)
        case None => r == Err(CheckpointNotFound(t)) && Untouched()
        case Some(c) =>
          && r == Answer(Run(graph, At(c), maxIterations), maxIterations)
          && Over(t, At(c), old(Current()), old(bus.events) + [CheckpointRestored(t, c.id, c.nodeId)])
    {
      if store == null {
        return Err(NoCheckpointer);
      }
      var found := store.LoadLatest(t);
      if found.None? {
        return Err(CheckpointNotFound(t));
      }
      bus.Publish(CheckpointRestored(t, found.value.id, found.value.nodeId));
      var shared := new SharedState(found.value.state);
      r := RunLoop(t, shared, Some(found.value.nodeId));
    }
  }
}
