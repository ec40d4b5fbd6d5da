/**
 * How a round of the agent graph goes on: it ends after boundedly many steps once an audit lies ahead, parallel
 * agents may be merged in any order, and the aggregator finds nothing to aggregate exactly after an empty dispatch that is
 * no retry, as long as nothing is aborted.
 */
module SupervisorProgress {
  import opened Wrappers
  import opened Reducers
  import opened Supervisor
  import opened SupervisorSafety

  // ---------- termination ----------

  /** No way back to the supervisor except through a rejecting audit. */
  predicate Settled(s: State) {
    s.node == Router || s.node.Tools? ==> !Resets(s.status) && s.status != Routing && s.status != WaitingHuman
  }

  /** How many nodes lie ahead before the audit has answered. */
  function Phase(node: Node): nat {
    match node
    case Router => 6
    case Tools(_) => 5
    case Dispatcher => 4
    case Agents(_) => 3
    case Aggregator => 2
    case Audit => 1
    case End => 0
  }

  /** Retries left, then the phase: the lexicographic measure as one number. */
  function Measure(s: State): int {
    (s.maxRetries - s.retryCount) * 7 + Phase(s.node)
  }

  lemma ToolSettles(s: State)
    requires Inv(s) && Settled(s) && s.node.Tools?
    ensures Settled(ToolStep(s)) && Measure(ToolStep(s)) < Measure(s)
  {
    if s.node.call.Invoke? { InvokedKeeps(s, s.node.call.tasks); }
  }

  lemma RouteSettles(s: State, choice: Choice)
    requires Inv(s) && Settled(s) && s.node == Router
    ensures Settled(RouteStep(s, choice)) && Measure(RouteStep(s, choice)) < Measure(s)
  {
  }

  lemma JudgeSettles(s: State, verdict: Verdict)
    requires Inv(s) && s.node == Audit
    ensures Settled(JudgeStep(s, verdict)) && Measure(JudgeStep(s, verdict)) < Measure(s)
  {
  }

  /** Every step of a settled round but a new user turn makes the measure smaller. */
  lemma StepDescends(s: State, step: Step)
    requires Inv(s) && Settled(s) && Enabled(s, step) && step != UserTurn
    ensures Settled(Apply(s, step)) && Measure(Apply(s, step)) < Measure(s)
  {
    match step
    case Route(choice) => RouteSettles(s, choice);
    case RunTool => ToolSettles(s);
    case RunAgents(order, answers) => AgentsDoneChannels(s, order, answers);
    case Judge(verdict) => JudgeSettles(s, verdict);
    case _ =>
  }

  predicate OneTurn(steps: seq<Step>) {
    forall i | 0 <= i < |steps| :: steps[i] != UserTurn
  }

  /** A settled round is over after at most as many steps as its measure; an audit that rejects settles the rest. */
  lemma {:induction false} RoundEnds(s: State, steps: seq<Step>)
    requires Inv(s) && Settled(s) && Runs(s, steps) && OneTurn(steps)
    ensures |steps| <= Measure(s) <= (s.maxRetries + 1) * 7
    decreases |steps|
  {
    if |steps| > 0 {
      StepDescends(s, steps[0]);
      StepKeeps(s, steps[0]);
      StepMaxRetries(s, steps[0]);
      RoundEnds(Apply(s, steps[0]), steps[1..]);
    }
  }

  lemma StepMaxRetries(s: State, step: Step)
    requires Inv(s) && Enabled(s, step)
    ensures Apply(s, step).maxRetries == s.maxRetries
  {
    match step
    case RunTool => if s.node.call.Invoke? { InvokedKeeps(s, s.node.call.tasks); }
    case RunAgents(order, answers) => AgentsDoneChannels(s, order, answers);
    case _ =>
  }

  // ---------- whole runs ----------

  lemma {:induction false} RunMaxRetries(s: State, steps: seq<Step>)
    requires Inv(s) && Runs(s, steps)
    ensures After(s, steps).maxRetries == s.maxRetries
    decreases |steps|
  {
    if |steps| > 0 {
      StepMaxRetries(s, steps[0]);
      StepKeeps(s, steps[0]);
      RunMaxRetries(Apply(s, steps[0]), steps[1..]);
    }
  }

  /** From an audit, in any run, the round is over after boundedly many steps, however often it is still rejected. */
  lemma AuditedRoundEnds(maxRetries: nat, before: seq<Step>, steps: seq<Step>)
    requires Runs(Init(maxRetries), before) && After(Init(maxRetries), before).node == Audit
    requires Runs(After(Init(maxRetries), before), steps) && OneTurn(steps)
    ensures |steps| <= 7 * maxRetries + 1
  {
    RunKeeps(Init(maxRetries), before);
    RunMaxRetries(Init(maxRetries), before);
    RoundEnds(After(Init(maxRetries), before), steps);
  }

  lemma {:induction false} LastStep(s: State, steps: seq<Step>)
    requires Runs(s, steps) && |steps| > 0
    ensures var init, last := steps[..|steps| - 1], steps[|steps| - 1];
      Runs(s, init) && Enabled(After(s, init), last) && After(s, steps) == Apply(After(s, init), last)
    decreases |steps|
  {
    if |steps| > 1 {
      LastStep(Apply(s, steps[0]), steps[1..]);
      assert steps[1..][..|steps| - 2] == steps[..|steps| - 1][1..];
    } else {
      assert steps[..0] == [] && steps[1..] == [];
    }
  }

  // ---------- what a dispatch and an answer are worth ----------

  /** The last instruction for an agent in one tool call, if there is one. */
  function LastContent(tasks: seq<Task>, a: Agent): Option<string>
    decreases |tasks|
  {
    if |tasks| == 0 then None
    else if LastContent(tasks[1..], a).Some? then LastContent(tasks[1..], a)
    else if tasks[0].agent == a then Some(tasks[0].content) else None
  }

  /**
   * A dispatch registers exactly the named agents that have not finished, or all of them in a retry: each is pending
   * and requested and has the last instruction given to it; every other agent is as before.
   */
  lemma {:induction false} DispatchMeaning(s: State, tasks: seq<Task>, a: Agent)
    ensures var r := Register(s, tasks);
      var named := LastContent(tasks, a).Some? && (s.feedback.Some? || a !in s.finished);
      && (a in r.pending <==> a in s.pending || named) && (a in r.requested <==> a in s.requested || named)
      && (a in r.input <==> a in s.input || named)
      && (a in r.input ==> r.input[a] == if named then LastContent(tasks, a).value else s.input[a])
    decreases |tasks|
  {
    if |tasks| > 0 {
      var b := tasks[0].agent;
      if s.feedback.None? && b in s.finished {
        DispatchMeaning(s, tasks[1..], a);
      } else {
        var next := s.(input := s.input[b := tasks[0].content],
                       pending := if b in s.pending then s.pending else s.pending + [b],
                       requested := if b in s.requested then s.requested else s.requested + [b]);
        DispatchMeaning(next, tasks[1..], a);
      }
    }
  }

  /** Step `k` aggregates an answer, the next passes it, and since then no node has finished: only turns and aborts. */
  predicate DeliveredAt(steps: seq<Step>, k: nat) {
    && k + 1 < |steps| && steps[k].Aggregate? && steps[k + 1] == Judge(Pass)
    && forall j | k + 1 < j < |steps| :: steps[j] == UserTurn || steps[j] == Abort
  }

  /** The round's results are handed over: the answer is the result and the channels of the round are empty. */
  predicate Delivered(s: State, answer: string) {
    && s.status == Completed && s.result == Some(answer)
    && s.requested == s.pending == s.finished == [] && s.input == map[] && s.responses == map[] && s.feedback == None
  }

  /** What an audit sees is what was aggregated in the step before. */
  predicate AuditsLast(s: State, steps: seq<Step>) {
    s.node == Audit ==>
      && |steps| > 0 && steps[|steps| - 1].Aggregate?
      && Aggregated in s.responses && s.responses[Aggregated] == steps[|steps| - 1].answer
  }

  lemma StepAudits(s: State, step: Step)
    requires Inv(s) && Enabled(s, step) && Apply(s, step).node == Audit
    ensures step.Aggregate? && Aggregated in Apply(s, step).responses
    ensures Apply(s, step).responses[Aggregated] == step.answer
  {
    match step
    case RunAgents(order, answers) => AgentsDoneChannels(s, order, answers);
    case _ =>
  }

  lemma RunAudits(maxRetries: nat, steps: seq<Step>)
    requires Runs(Init(maxRetries), steps)
    ensures AuditsLast(After(Init(maxRetries), steps), steps)
  {
    if |steps| > 0 {
      LastStep(Init(maxRetries), steps);
      RunKeeps(Init(maxRetries), steps[..|steps| - 1]);
      if After(Init(maxRetries), steps).node == Audit {
        StepAudits(After(Init(maxRetries), steps[..|steps| - 1]), steps[|steps| - 1]);
      }
    }
  }

  /** Only a passing audit completes a round, and only a user's turn or an abort leaves it completed. */
  lemma StepCompletes(s: State, step: Step)
    requires Inv(s) && Enabled(s, step)
    ensures Apply(s, step).status == Completed <==>
      step == Judge(Pass) || (s.status == Completed && (step == UserTurn || step == Abort))
    ensures step == Judge(Pass) ==> Delivered(Apply(s, step), s.responses[Aggregated])
  {
    match step
    case RunTool => if s.node.call.Invoke? { InvokedKeeps(s, s.node.call.tasks); }
    case RunAgents(order, answers) => AgentsDoneChannels(s, order, answers);
    case _ =>
  }

  ghost predicate CompletedRight(s: State, steps: seq<Step>) {
    && (s.status == Completed <==> exists k: nat :: DeliveredAt(steps, k))
    && forall k: nat | DeliveredAt(steps, k) :: Delivered(s, steps[k].answer)
  }

  lemma DeliveredNext(steps: seq<Step>, last: Step, k: nat)
    ensures DeliveredAt(steps + [last], k) <==>
      if k + 1 == |steps| then last == Judge(Pass) && steps[k].Aggregate?
      else DeliveredAt(steps, k) && (last == UserTurn || last == Abort)
  {
    var all := steps + [last];
    assert forall j | 0 <= j < |steps| :: all[j] == steps[j];
    if DeliveredAt(all, k) && k + 1 < |steps| { assert all[|steps|] == last; }
  }

  lemma PassCompletes(s: State, steps: seq<Step>)
    requires Inv(s) && s.node == Audit && AuditsLast(s, steps)
    ensures CompletedRight(Apply(s, Judge(Pass)), steps + [Judge(Pass)])
  {
    StepCompletes(s, Judge(Pass));
    forall k: nat ensures DeliveredAt(steps + [Judge(Pass)], k) <==> k + 1 == |steps| { DeliveredNext(steps, Judge(Pass), k); }
    assert DeliveredAt(steps + [Judge(Pass)], |steps| - 1);
  }

  lemma OtherKeepsRight(s: State, steps: seq<Step>, step: Step)
    requires Inv(s) && Enabled(s, step) && step != Judge(Pass) && CompletedRight(s, steps)
    ensures CompletedRight(Apply(s, step), steps + [step])
  {
    StepCompletes(s, step);
    forall k: nat ensures DeliveredAt(steps + [step], k) <==> DeliveredAt(steps, k) && (step == UserTurn || step == Abort) {
      DeliveredNext(steps, step, k);
    }
    forall k: nat | DeliveredAt(steps + [step], k) ensures Delivered(Apply(s, step), (steps + [step])[k].answer) {
      assert (steps + [step])[k] == steps[k];
    }
  }

  lemma {:induction false} RunCompletes(maxRetries: nat, steps: seq<Step>)
    requires Runs(Init(maxRetries), steps)
    ensures CompletedRight(After(Init(maxRetries), steps), steps)
    decreases |steps|
  {
    if |steps| > 0 {
      var init, last := steps[..|steps| - 1], steps[|steps| - 1];
      LastStep(Init(maxRetries), steps);
      RunCompletes(maxRetries, init);
      RunKeeps(Init(maxRetries), init);
      RunAudits(maxRetries, init);
      assert init + [last] == steps;
      if last == Judge(Pass) {
        PassCompletes(After(Init(maxRetries), init), init);
      } else {
        OtherKeepsRight(After(Init(maxRetries), init), init, last);
      }
    }
  }

  /**
   * In every run, aborts and later turns included: a round stands completed if and only if an aggregated answer passed
   * the audit and no node has finished since, and that answer is then the result and the round's channels are empty.
   */
  lemma AnswerDelivered(maxRetries: nat, steps: seq<Step>)
    requires Runs(Init(maxRetries), steps)
    ensures After(Init(maxRetries), steps).status == Completed <==> exists k: nat :: DeliveredAt(steps, k)
    ensures forall k: nat | DeliveredAt(steps, k) :: Delivered(After(Init(maxRetries), steps), steps[k].answer)
  {
    RunCompletes(maxRetries, steps);
  }

  // ---------- merging parallel agents ----------

  lemma {:induction false} AnswersStored(s: State, order: seq<Agent>, answers: map<Agent, string>, k: Source)
    requires NoDuplicates(order) && forall a | a in order :: a in answers
    requires k in AgentsDone(s, order, answers).responses
    ensures AgentsDone(s, order, answers).responses[k]
      == if k.From? && k.agent in order then answers[k.agent] else if k in s.responses then s.responses[k] else ""
    decreases |order|
  {
    AgentsDoneChannels(s, order, answers);
    if |order| > 0 {
      var next := AgentDone(s, order[0], answers[order[0]]);
      assert NoDuplicates(order[1..]);
      assert From(order[0]) in map[From(order[0]) := answers[order[0]]];
      assert next.responses == s.responses[From(order[0]) := answers[order[0]]];
      AnswersStored(next, order[1..], answers, k);
      assert order[0] !in order[1..];
      assert forall a :: a in order <==> a == order[0] || a in order[1..];
    }
  }

  /**
   * The updates of agents that ran in parallel can be merged in any order: the response map and the empty pending
   * list come out the same, and so do the finished agents, up to their order.
   */
  lemma MergeOrderIrrelevant(s: State, p: seq<Agent>, q: seq<Agent>, answers: map<Agent, string>)
    requires NoDuplicates(p) && NoDuplicates(q) && p != []
    requires multiset(p) == multiset(q) && forall a | a in p :: a in answers
    requires forall a | a in q :: a in answers
    ensures var x, y := AgentsDone(s, p, answers), AgentsDone(s, q, answers);
      && x.responses == y.responses && x.pending == y.pending == []
      && (forall a :: a in x.finished <==> a in y.finished)
      && x == y.(finished := x.finished)
  {
    var x, y := AgentsDone(s, p, answers), AgentsDone(s, q, answers);
    forall a ensures a in p <==> a in q {
      assert a in p <==> a in multiset(p);
      assert a in q <==> a in multiset(q);
    }
    assert q != [] by { assert p[0] in q; }
    AgentsDoneChannels(s, p, answers);
    AgentsDoneChannels(s, q, answers);
    AppendNewMerges(s.finished, p);
    AppendNewMerges(s.finished, q);
    forall k | k in x.responses ensures x.responses[k] == y.responses[k] {
      AnswersStored(s, p, answers, k);
      AnswersStored(s, q, answers, k);
    }
    assert x.responses == y.responses;
  }

  // ---------- the branches for missing results ----------

  /** What every state of a run without aborts keeps: each round starts without results, and a retry has some. */
  predicate Steady(s: State) {
    && (s.node == Router || s.node == End ==> Resets(s.status) || s.status == Routing || s.status == Retrying)
    && (s.node.Tools? ==> s.status == Routing || s.status == Retrying)
    && (s.status == Routing ==> s.finished == [] && s.pending == [] && s.feedback.None? && s.responses == map[])
    && (s.status == Retrying ==> s.pending == [] && s.feedback.Some? && s.responses != map[])
    && (s.node == Dispatcher ==> s.status == Dispatched)
    && (s.node == Dispatcher && s.feedback.None? ==> s.finished == [] && s.responses == map[])
    && (s.node == Dispatcher && s.feedback.Some? ==> s.responses != map[])
    && (s.node.Agents? ==> s.status == Executing && s.pending == [])
    && (s.node == Aggregator ==> s.pending == [] && (s.responses == map[] ==> s.finished == [] && s.feedback.None?))
    && (s.node == Audit ==> s.pending == [])
  }

  lemma {:induction false} RegisterSome(s: State, tasks: seq<Task>)
    requires s.feedback.Some? || s.finished == []
    ensures |Register(s, tasks).pending| >= |s.pending| && (tasks != [] ==> Register(s, tasks).pending != [])
    decreases |tasks|
  {
    if |tasks| > 0 {
      var a := tasks[0].agent;
      var next := s.(input := s.input[a := tasks[0].content],
                     pending := if a in s.pending then s.pending else s.pending + [a],
                     requested := if a in s.requested then s.requested else s.requested + [a]);
      RegisterSome(next, tasks[1..]);
    }
  }

  lemma ToolSteady(s: State)
    requires Inv(s) && Steady(s) && s.node.Tools?
    ensures Steady(ToolStep(s))
  {
    if s.node.call.Invoke? { InvokedKeeps(s, s.node.call.tasks); }
  }

  lemma AgentsSteady(s: State, order: seq<Agent>, answers: map<Agent, string>)
    requires Inv(s) && Steady(s) && Enabled(s, RunAgents(order, answers))
    ensures Steady(Apply(s, RunAgents(order, answers)))
    ensures Apply(s, RunAgents(order, answers)).responses != map[]
  {
    AgentsDoneChannels(s, order, answers);
    var a := s.node.names[0];
    assert a in multiset(order);
    assert From(a) in AgentsDone(s, order, answers).responses;
  }

  lemma RouteSteady(s: State, choice: Choice)
    requires Inv(s) && Steady(s) && s.node == Router
    ensures Steady(RouteStep(s, choice))
  {
  }

  lemma JudgeSteady(s: State, verdict: Verdict)
    requires Inv(s) && Steady(s) && s.node == Audit
    ensures Steady(JudgeStep(s, verdict))
  {
    assert Aggregated in s.responses;
  }

  lemma AggregateSteady(s: State, answer: string)
    requires Inv(s) && Steady(s) && s.node == Aggregator
    ensures Steady(AggregateStep(s, answer))
  {
  }

  lemma StepSteady(s: State, step: Step)
    requires Inv(s) && Steady(s) && Enabled(s, step) && step != Abort
    ensures Steady(Apply(s, step))
  {
    match step
    case Route(choice) => RouteSteady(s, choice);
    case RunTool => ToolSteady(s);
    case RunAgents(order, answers) => AgentsSteady(s, order, answers);
    case Aggregate(answer) => AggregateSteady(s, answer);
    case Judge(verdict) => JudgeSteady(s, verdict);
    case _ =>
  }

  predicate NoAbort(steps: seq<Step>) {
    forall i | 0 <= i < |steps| :: steps[i] != Abort
  }

  lemma {:induction false} RunSteady(s: State, steps: seq<Step>)
    requires Inv(s) && Steady(s) && Runs(s, steps) && NoAbort(steps)
    ensures Inv(After(s, steps)) && Steady(After(s, steps))
    decreases |steps|
  {
    if |steps| > 0 {
      StepSteady(s, steps[0]);
      StepKeeps(s, steps[0]);
      RunSteady(Apply(s, steps[0]), steps[1..]);
    }
  }

  // ---------- when the aggregator has nothing ----------

  predicate NothingToAggregate(s: State) {
    s.node == Aggregator && s.responses == map[]
  }

  /** The supervisor names the agents of `tasks` and the dispatcher has run. */
  function AfterInvoke(s: State, tasks: seq<Task>): State
    requires s.node == Router
  {
    Apply(Apply(Apply(s, Route(Call(Invoke(tasks)))), RunTool), Dispatch)
  }

  /** Every agent named has finished already and is skipped, for this is no retry. */
  predicate AllSkipped(s: State, tasks: seq<Task>) {
    tasks != [] ==> s.feedback.None? && forall i | 0 <= i < |tasks| :: tasks[i].agent in s.finished
  }

  lemma {:induction false} RegisterNone(s: State, tasks: seq<Task>)
    ensures Register(s, tasks).pending == [] <==> s.pending == [] && AllSkipped(s, tasks)
    ensures Register(s, tasks).responses == s.responses
    decreases |tasks|
  {
    if |tasks| > 0 {
      var a := tasks[0].agent;
      if s.feedback.None? && a in s.finished {
        RegisterNone(s, tasks[1..]);
        assert forall i | 0 < i < |tasks| :: tasks[i] == tasks[1..][i - 1];
      } else {
        RegisterNone(s.(input := s.input[a := tasks[0].content],
                        pending := if a in s.pending then s.pending else s.pending + [a],
                        requested := if a in s.requested then s.requested else s.requested + [a]), tasks[1..]);
      }
    }
  }

  /** From any state of any run, aborts included: what the supervisor finds before the call decides. */
  lemma DispatchMissesIff(s: State, tasks: seq<Task>)
    requires Inv(s) && s.node == Router
    ensures var p := Prepare(s);
      NothingToAggregate(AfterInvoke(s, tasks)) <==> p.responses == map[] && p.pending == [] && AllSkipped(p, tasks)
  {
    var u := Apply(s, Route(Call(Invoke(tasks))));
    StepKeeps(s, Route(Call(Invoke(tasks))));
    InvokedLists(u, tasks);
    InvokedKeeps(u, tasks);
    RegisterNone(u, tasks);
    assert AllSkipped(u, tasks) <==> AllSkipped(Prepare(s), tasks);
  }

  /**
   * In every run without aborts, empty dispatches before included: a dispatch reaches the aggregator with nothing to
   * aggregate if and only if it names no agent and is not a retry.
   */
  lemma EmptyDispatchIff(maxRetries: nat, steps: seq<Step>, tasks: seq<Task>)
    requires Runs(Init(maxRetries), steps) && NoAbort(steps) && After(Init(maxRetries), steps).node == Router
    ensures var s := After(Init(maxRetries), steps);
      NothingToAggregate(AfterInvoke(s, tasks)) <==> tasks == [] && s.status != Retrying
  {
    var s := After(Init(maxRetries), steps);
    RunSteady(Init(maxRetries), steps);
    DispatchMissesIff(s, tasks);
    if tasks != [] { assert Prepare(s).feedback.None? ==> tasks[0].agent !in Prepare(s).finished; }
  }

  /** In a retry, the aggregator is reached by an empty dispatch too, but with the responses of the attempt before. */
  lemma EmptyRetryKeepsResponses(maxRetries: nat, steps: seq<Step>)
    requires Runs(Init(maxRetries), steps) && NoAbort(steps)
    requires After(Init(maxRetries), steps).node == Router && After(Init(maxRetries), steps).status == Retrying
    ensures var s := After(Init(maxRetries), steps);
      var t := AfterInvoke(s, []);
      t.node == Aggregator && t.status == Aggregating && t.responses == s.responses != map[]
  {
    var s := After(Init(maxRetries), steps);
    RunSteady(Init(maxRetries), steps);
    var u := Apply(s, Route(Call(Invoke([]))));
    StepKeeps(s, Route(Call(Invoke([]))));
    InvokedLists(u, []);
    InvokedKeeps(u, []);
  }

  function EmptyDispatch(): seq<Step> {
    [Route(Call(Invoke([]))), RunTool, Dispatch]
  }

  lemma {:induction false} RunConcat(s: State, a: seq<Step>, b: seq<Step>)
    requires Runs(s, a) && Runs(After(s, a), b)
    ensures Runs(s, a + b) && After(s, a + b) == After(After(s, a), b)
    decreases |a|
  {
    if |a| == 0 {
      assert a + b == b;
    } else {
      RunConcat(Apply(s, a[0]), a[1..], b);
      assert (a + b)[1..] == a[1..] + b;
    }
  }

  lemma ThreeSteps(s: State, a: Step, b: Step, c: Step)
    requires Enabled(s, a) && Enabled(Apply(s, a), b) && Enabled(Apply(Apply(s, a), b), c)
    ensures Runs(s, [a, b, c]) && After(s, [a, b, c]) == Apply(Apply(Apply(s, a), b), c)
  {
    var u := Apply(Apply(s, a), b);
    assert [c][1..] == [] && [b, c][1..] == [c] && [a, b, c][1..] == [b, c];
    assert Runs(Apply(u, c), []);
    assert Runs(u, [c]);
    assert Runs(Apply(s, a), [b, c]);
    assert After(Apply(s, a), [b, c]) == After(u, [c]) == Apply(u, c);
  }

  /** Only a dispatcher with nobody to run brings the aggregator up with nothing. */
  lemma MissingFromDispatch(s: State, step: Step)
    requires Inv(s) && Steady(s) && Enabled(s, step) && step != Abort && NothingToAggregate(Apply(s, step))
    ensures step == Dispatch && s.pending == []
  {
    match step
    case RunTool => if s.node.call.Invoke? { InvokedKeeps(s, s.node.call.tasks); }
    case RunAgents(order, answers) => AgentsSteady(s, order, answers);
    case _ =>
  }

  /** Only a tool call that names nobody leaves a dispatcher with nobody to run. */
  lemma IdleDispatcherFromTool(s: State, step: Step)
    requires Inv(s) && Steady(s) && Enabled(s, step) && step != Abort
    requires Apply(s, step).node == Dispatcher && Apply(s, step).pending == []
    ensures step == RunTool && s.node == Tools(Invoke([]))
  {
    match step
    case RunTool =>
      if s.node.call.Invoke? {
        InvokedLists(s, s.node.call.tasks);
        RegisterSome(s, s.node.call.tasks);
      }
    case RunAgents(order, answers) => AgentsDoneChannels(s, order, answers);
    case _ =>
  }

  lemma ToolFromRouter(s: State, step: Step, call: ToolCall)
    requires Inv(s) && Enabled(s, step) && Apply(s, step).node == Tools(call)
    ensures step == Route(Call(call))
  {
    match step
    case RunAgents(order, answers) => AgentsDoneChannels(s, order, answers);
    case _ =>
  }

  /** The run up to its last step, which is taken from a steady state. */
  lemma LastSteady(maxRetries: nat, steps: seq<Step>)
    requires Runs(Init(maxRetries), steps) && NoAbort(steps) && |steps| > 0
    ensures var init, last := steps[..|steps| - 1], steps[|steps| - 1];
      && Runs(Init(maxRetries), init) && NoAbort(init) && last != Abort
      && Inv(After(Init(maxRetries), init)) && Steady(After(Init(maxRetries), init))
      && Enabled(After(Init(maxRetries), init), last)
      && After(Init(maxRetries), steps) == Apply(After(Init(maxRetries), init), last)
  {
    LastStep(Init(maxRetries), steps);
    RunSteady(Init(maxRetries), steps[..|steps| - 1]);
  }

  /** A run that ends with the aggregator having nothing ends with an empty dispatch. */
  lemma MissingEnds(maxRetries: nat, steps: seq<Step>) returns (before: seq<Step>)
    requires Runs(Init(maxRetries), steps) && NoAbort(steps) && NothingToAggregate(After(Init(maxRetries), steps))
    ensures steps == before + EmptyDispatch() && Runs(Init(maxRetries), before) && NoAbort(before)
    ensures After(Init(maxRetries), before).node == Router
    ensures After(Init(maxRetries), steps) == AfterInvoke(After(Init(maxRetries), before), [])
  {
    LastSteady(maxRetries, steps);
    var two := steps[..|steps| - 1];
    MissingFromDispatch(After(Init(maxRetries), two), steps[|steps| - 1]);
    LastSteady(maxRetries, two);
    var one := two[..|two| - 1];
    IdleDispatcherFromTool(After(Init(maxRetries), one), two[|two| - 1]);
    LastSteady(maxRetries, one);
    before := one[..|one| - 1];
    ToolFromRouter(After(Init(maxRetries), before), one[|one| - 1], Invoke([]));
  }

  /** `before` is a run to the supervisor, outside a retry. */
  predicate FirstAttempt(maxRetries: nat, before: seq<Step>) {
    && Runs(Init(maxRetries), before) && After(Init(maxRetries), before).node == Router
    && After(Init(maxRetries), before).status != Retrying
  }

  /**
   * In a run without aborts the aggregator has nothing to aggregate if and only if the run ends with a dispatch that
   * names no agent, outside a retry; no other way leads there.
   */
  lemma ResultsMissingIff(maxRetries: nat, steps: seq<Step>)
    requires Runs(Init(maxRetries), steps) && NoAbort(steps)
    ensures NothingToAggregate(After(Init(maxRetries), steps)) <==>
      exists before :: steps == before + EmptyDispatch() && FirstAttempt(maxRetries, before)
  {
    if NothingToAggregate(After(Init(maxRetries), steps)) {
      var before := MissingEnds(maxRetries, steps);
      EmptyDispatchIff(maxRetries, before, []);
      assert FirstAttempt(maxRetries, before);
    }
    if before :| steps == before + EmptyDispatch() && FirstAttempt(maxRetries, before) {
      var s := After(Init(maxRetries), before);
      assert forall i | 0 <= i < |before| :: before[i] == steps[i];
      EmptyDispatchIff(maxRetries, before, []);
      ThreeSteps(s, Route(Call(Invoke([]))), RunTool, Dispatch);
      RunConcat(Init(maxRetries), before, EmptyDispatch());
    }
  }

  /** The supervisor names at least one agent in every dispatch, and nothing is aborted. */
  predicate Ordinary(step: Step) {
    step != Abort && step != Route(Call(Invoke([])))
  }

  predicate AllOrdinary(steps: seq<Step>) {
    forall i | 0 <= i < |steps| :: Ordinary(steps[i])
  }

  lemma IdleDispatcherEnds(maxRetries: nat, steps: seq<Step>)
    requires Runs(Init(maxRetries), steps) && NoAbort(steps)
    requires After(Init(maxRetries), steps).node == Dispatcher && After(Init(maxRetries), steps).pending == []
    ensures !AllOrdinary(steps)
  {
    LastSteady(maxRetries, steps);
    var one := steps[..|steps| - 1];
    IdleDispatcherFromTool(After(Init(maxRetries), one), steps[|steps| - 1]);
    LastSteady(maxRetries, one);
    ToolFromRouter(After(Init(maxRetries), one[..|one| - 1]), one[|one| - 1], Invoke([]));
    assert steps[|steps| - 2] == Route(Call(Invoke([])));
  }

  lemma MissingIsNotOrdinary(maxRetries: nat, steps: seq<Step>)
    requires Runs(Init(maxRetries), steps) && NoAbort(steps) && NothingToAggregate(After(Init(maxRetries), steps))
    ensures !AllOrdinary(steps)
  {
    var before := MissingEnds(maxRetries, steps);
    assert steps[|before|] == Route(Call(Invoke([])));
  }

  /** In an ordinary run the aggregator always has responses and the dispatcher always has agents to run; and in any
      run the audit always has an aggregated answer. */
  lemma ResultsNeverMissing(maxRetries: nat, steps: seq<Step>)
    requires Runs(Init(maxRetries), steps)
    ensures var s := After(Init(maxRetries), steps);
      && (s.node == Audit ==> Aggregated in s.responses)
      && (AllOrdinary(steps) && s.node == Aggregator ==> s.responses != map[])
      && (AllOrdinary(steps) && s.node == Dispatcher ==> s.pending != [])
  {
    var s := After(Init(maxRetries), steps);
    RunKeeps(Init(maxRetries), steps);
    if NoAbort(steps) {
      if NothingToAggregate(s) { MissingIsNotOrdinary(maxRetries, steps); }
      if s.node == Dispatcher && s.pending == [] { IdleDispatcherEnds(maxRetries, steps); }
    }
  }

  /** The shortest such run: a first turn that dispatches nobody. */
  lemma EmptyInvokeMissesResults(maxRetries: nat)
    ensures Runs(Init(maxRetries), [UserTurn] + EmptyDispatch())
    ensures NothingToAggregate(After(Init(maxRetries), [UserTurn] + EmptyDispatch()))
  {
    var s := Apply(Init(maxRetries), UserTurn);
    assert [UserTurn][1..] == [] && Runs(Init(maxRetries), [UserTurn]) && After(Init(maxRetries), [UserTurn]) == s;
    ThreeSteps(s, Route(Call(Invoke([]))), RunTool, Dispatch);
    RunConcat(Init(maxRetries), [UserTurn], EmptyDispatch());
    EmptyDispatchIff(maxRetries, [UserTurn], []);
  }
}
