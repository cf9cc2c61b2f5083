/** The four runners side by side. */
module RunnerAgreement {
  import opened Wrappers
  import opened AgentStates
  import opened Graph
  import opened Execution
  import CS = CheckpointStore
  import CR = CheckpointRunner
  import SR = StreamingRunner
  import TR = TracedRunner

  /**
   * On every graph and state the plain, the checkpointing and the streaming
   * runner answer alike, and the traced one answers as the plain one does from
   * the state with the run context attached.
   */
  method AllAgree(g: Compiled, max: nat, every: bool, thread: string, ctx: TR.RunContext, initial: AgentState)
    returns (plain: Result<AgentState, RuntimeError>, checkpointed: Result<AgentState, RuntimeError>,
             streamed: Result<AgentState, RuntimeError>, attached: Result<AgentState, RuntimeError>,
             traced: Result<TR.TracedRunResult, RuntimeError>)
    requires Indexed(g)
    ensures plain == checkpointed == streamed == Answer(Run(g, Config(g.entryPoint, initial), max), max)
    ensures attached == Answer(Run(g, Config(g.entryPoint, TR.AttachRunContext(initial, ctx)), max), max)
    ensures traced.Ok? == attached.Ok?
    ensures traced.Ok? ==> traced.value.state == attached.value
    ensures traced.Err? ==> traced.error == attached.error
  {
    var runner := new GraphRunner(g, max);
    plain := runner.Invoke(initial);
    attached := runner.Invoke(TR.AttachRunContext(initial, ctx));
    var store := new CS.MemoryCheckpointer();
    var checkpointing := new CR.CheckpointingRunner(g, max, every, store);
    checkpointed := checkpointing.Invoke(thread, initial);
    var bus := new SR.EventBus();
    var streaming := new SR.StreamingRunner(g, max, every, bus, store);
    streamed := streaming.Invoke(thread, initial);
    var tracing := new TR.TracedRunner(g, max, ctx, None);
    TR.TracedAgrees(g, None, Config(g.entryPoint, TR.AttachRunContext(initial, ctx)), max);
    traced := tracing.Invoke(initial);
  }
}
