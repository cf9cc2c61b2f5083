/** The shared agent state and what a node answers. */
module AgentStates {
  import opened Wrappers

  datatype Json =
    | Null
    | Bool(b: bool)
    | Number(n: int)
    | Text(s: string)
    | Array(items: seq<Json>)
    | Object(fields: map<string, Json>)

  /** Messages and tool calls are carried along and never inspected here. */
  datatype AgentState = AgentState(
    context: map<string, Json>,
    iteration: nat,
    isComplete: bool,
    messages: seq<Json>,
    toolCalls: seq<Json>)
  {
    function IncrementIteration(): AgentState {
      this.(iteration := iteration + 1)
    }

    function SetContext(key: string, value: Json): AgentState {
      this.(context := context[key := value])
    }
  }

  /** `Continue(None)` follows the default edge, `Continue(Some(n))` and `Route(n)` name the next node. */
  datatype NodeOutput =
    | Continue(next: Option<string>)
    | Finish
    | Route(to: string)
    | Transition(key: string)
  {
    function Target(): Option<string> {
      match this
      case Continue(Some(s)) => Some(s)
      case Route(s) => Some(s)
      case Transition(s) => Some(s)
      case _ => None
    }
  }
}
