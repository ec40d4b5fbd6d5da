/**
 * The multi-agent graph (supervisor_agent.py, aggregator_agent.py, audit_agent.py and the agent nodes) as a state
 * machine over its nodes. What the language models answer is the environment's choice.
 */
module Supervisor {
  import opened Wrappers
  import opened Reducers
  import Text

  datatype Agent = Finance | Tech | Legal | Hr

  /** The stages of a task; waiting for the human is declared in the source but no node sets it. */
  datatype Status =
    | Idle | Routing | WaitingHuman | Dispatched | Executing | Aggregating | Auditing | Retrying | Completed | Failed

  datatype Task = Task(agent: Agent, content: string)

  /** The tool call of one supervisor answer. */
  datatype ToolCall = Invoke(tasks: seq<Task>) | OtherTool

  datatype Node = Router | Tools(call: ToolCall) | Dispatcher | Agents(names: seq<Agent>) | Aggregator | Audit | End

  datatype Source = From(agent: Agent) | Aggregated

  datatype State = State(
    node: Node,
    status: Status,
    requested: seq<Agent>,
    pending: seq<Agent>,
    finished: seq<Agent>,
    input: map<Agent, string>,
    responses: map<Source, string>,
    feedback: Option<string>,       // the correction targets of the last rejection
    result: Option<string>,
    retryCount: nat,
    maxRetries: nat,
    rejections: seq<string>,        // every rejection since the round began
    audits: nat)                    // audits since the round began

  datatype Choice = ModelFails | NoTool | Call(call: ToolCall)

  datatype Verdict = Pass | Reject(targets: string)

  datatype Step =
    | UserTurn
    | Route(choice: Choice)
    | RunTool
    | Dispatch
    | RunAgents(order: seq<Agent>, answers: map<Agent, string>)
    | Aggregate(answer: string)
    | Judge(verdict: Verdict)
    | Abort    // an exception leaves the node: nothing of its step is stored

  const NOTHING_TO_AUDIT := "当前没有可审核的聚合结果，请重新派发任务。"

  function Init(maxRetries: nat): State {
    State(End, Idle, [], [], [], map[], map[], None, None, 0, maxRetries, [], 0)
  }

  predicate Resets(status: Status) {
    status == Idle || status == Completed || status == Failed
  }

  /** `_prepare_supervisor_state`, with `round_reset_update`. */
  function Prepare(s: State): State {
    if Resets(s.status) then
      s.(status := Routing, requested := MergeUnique(s.requested, Some([])), pending := MergeUnique(s.pending, Some([])),
         finished := MergeUnique(s.finished, Some([])), input := map[], responses := MergeDict(s.responses, Some(map[])),
         feedback := None, result := None, retryCount := 0, rejections := [], audits := 0)
    else if s.feedback.Some? then s.(status := Retrying)
    else s
  }

  /** The loop of `invoke_sub_agent` over the named agents. */
  function Register(s: State, tasks: seq<Task>): State
    decreases |tasks|
  {
    if |tasks| == 0 then s
    else
      var a := tasks[0].agent;
      if s.feedback.None? && a in s.finished then Register(s, tasks[1..])
      else
        Register(s.(input := s.input[a := tasks[0].content],
                    pending := if a in s.pending then s.pending else s.pending + [a],
                    requested := if a in s.requested then s.requested else s.requested + [a]),
                 tasks[1..])
  }

  /** The update of `invoke_sub_agent`, merged into the channels. */
  function Invoked(s: State, tasks: seq<Task>): State {
    var r := Register(s, tasks);
    s.(node := Dispatcher, status := Dispatched, input := r.input,
       requested := MergeUnique(s.requested, Some(r.requested)), pending := MergeUnique(s.pending, Some(r.pending)))
  }

  /** `tools_condition_router` after a tool that leaves the state alone. */
  function AfterTool(status: Status): Node {
    match status
    case Dispatched => Dispatcher
    case Executing => Dispatcher
    case Aggregating => Aggregator
    case Auditing => Aggregator
    case Retrying => Aggregator
    case _ => Router
  }

  /** `_dispatch_pending_agents`. */
  function DispatchStep(s: State): State {
    if s.pending == [] then s.(node := Aggregator, status := Aggregating)
    else s.(node := Agents(s.pending), status := Executing, pending := MergeUnique(s.pending, Some([])))
  }

  /** The update of one agent node. */
  function AgentDone(s: State, agent: Agent, answer: string): State {
    s.(responses := MergeDict(s.responses, Some(map[From(agent) := answer])),
       finished := MergeUnique(s.finished, Some([agent])), pending := MergeUnique(s.pending, Some([])))
  }

  /** The updates of the agents of one step, merged in the given order. */
  function AgentsDone(s: State, order: seq<Agent>, answers: map<Agent, string>): State
    requires forall a | a in order :: a in answers
    decreases |order|
  {
    if |order| == 0 then s
    else AgentsDone(AgentDone(s, order[0], answers[order[0]]), order[1..], answers)
  }

  /**
   * `aggregator_agent`. Without responses its command to the supervisor and the graph's edge to the audit both fire;
   * the two nodes then both write the status of one step, which the graph refuses, so the run ends there.
   */
  function AggregateStep(s: State, answer: string): State {
    if s.responses == map[] then s.(node := End, status := Routing)
    else s.(node := Audit, status := Auditing, responses := MergeDict(s.responses, Some(map[Aggregated := answer])))
  }

  function Trim(s: string): string {
    Text.Strip(s, Text.PythonSpace)
  }

  predicate Repeats(s: State, targets: string) {
    s.retryCount > 0 && Trim(if s.feedback.Some? then s.feedback.value else "") == Trim(targets)
  }

  /** `audit_agent` and `audit_router`. */
  function JudgeStep(s: State, verdict: Verdict): State {
    if Aggregated !in s.responses then
      s.(node := End, status := Failed, feedback := None, result := Some(NOTHING_TO_AUDIT), audits := s.audits + 1)
    else
      match verdict
      case Pass =>
        s.(node := End, status := Completed, feedback := None, responses := MergeDict(s.responses, Some(map[])), input := map[],
           requested := MergeUnique(s.requested, Some([])), pending := MergeUnique(s.pending, Some([])),
           finished := MergeUnique(s.finished, Some([])), result := Some(s.responses[Aggregated]), audits := s.audits + 1)
      case Reject(targets) =>
        var judged := s.(feedback := Some(targets), rejections := s.rejections + [targets], audits := s.audits + 1);
        if s.retryCount < s.maxRetries && !Repeats(s, targets) then
          judged.(node := Router, status := Retrying, retryCount := s.retryCount + 1)
        else judged.(node := End, status := Failed, result := None)
  }

  predicate Enabled(s: State, step: Step) {
    match step
    case UserTurn => s.node == End
    case Route(_) => s.node == Router
    case RunTool => s.node.Tools?
    case Dispatch => s.node == Dispatcher
    case RunAgents(order, answers) =>
      s.node.Agents? && multiset(order) == multiset(s.node.names) && forall a | a in order :: a in answers
    case Aggregate(_) => s.node == Aggregator
    case Judge(_) => s.node == Audit
    case Abort => s.node != End
  }

  function RouteStep(s: State, choice: Choice): State {
    match choice
    case ModelFails => s.(node := End, status := Failed)
    case NoTool => Prepare(s).(node := End)
    case Call(call) => Prepare(s).(node := Tools(call))
  }

  function ToolStep(s: State): State
    requires s.node.Tools?
  {
    match s.node.call
    case Invoke(tasks) => Invoked(s, tasks)
    case OtherTool => s.(node := AfterTool(s.status))
  }

  function Apply(s: State, step: Step): State
    requires Enabled(s, step)
  {
    match step
    case UserTurn => s.(node := Router)
    case Route(choice) => RouteStep(s, choice)
    case RunTool => ToolStep(s)
    case Dispatch => DispatchStep(s)
    case RunAgents(order, answers) => AgentsDone(s, order, answers).(node := Aggregator)
    case Aggregate(answer) => AggregateStep(s, answer)
    case Judge(verdict) => JudgeStep(s, verdict)
    case Abort => s.(node := End)
  }

  predicate Runs(s: State, steps: seq<Step>)
    decreases |steps|
  {
    steps == [] || (Enabled(s, steps[0]) && Runs(Apply(s, steps[0]), steps[1..]))
  }

  function After(s: State, steps: seq<Step>): State
    requires Runs(s, steps)
    decreases |steps|
  {
    if steps == [] then s else After(Apply(s, steps[0]), steps[1..])
  }

  /** `invoke_sub_agent` as the source runs it, over copies of the channels. */
  method InvokeSubAgent(s: State, tasks: seq<Task>)
    returns (requested: seq<Agent>, pending: seq<Agent>, input: map<Agent, string>)
    ensures var r := Register(s, tasks); requested == r.requested && pending == r.pending && input == r.input
  {
    requested, pending, input := s.requested, s.pending, s.input;
    for i := 0 to |tasks|
      invariant Register(s, tasks) == Register(s.(requested := requested, pending := pending, input := input), tasks[i..])
    {
      assert tasks[i..][1..] == tasks[i + 1..];
      var a := tasks[i].agent;
      if s.feedback.None? && a in s.finished {
        continue;
      }
      input := input[a := tasks[i].content];
      if a !in pending {
        pending := pending + [a];
      }
      if a !in requested {
        requested := requested + [a];
      }
    }
    assert tasks[|tasks|..] == [];
  }
}
