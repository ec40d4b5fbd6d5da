/** What the nodes of the agent graph come to over whole runs: which agents run, when a rejection is retried, how turns end. */
module SupervisorOutcomes {
  import opened Wrappers
  import opened Reducers
  import opened Supervisor
  import opened SupervisorSafety
  import opened SupervisorProgress
  import Text

  // ---------- rejections ----------

  /** The round has no attempt left: all retries were rejected, or the last two rejections say the same. */
  predicate RoundSpent(maxRetries: nat, rejections: seq<string>) {
    var n := |rejections|;
    n == maxRetries + 1 || (n >= 2 && Stripped(rejections[n - 1]) == Stripped(rejections[n - 2]))
  }

  function Stripped(s: string): string {
    Text.Strip(s, Text.PythonSpace)
  }

  /**
   * In every run, a rejecting audit ends its round, as failed and without a result, if and only if the round is then
   * spent; every other rejection is retried with the results kept, and the retries are as many as the rejections.
   */
  lemma RejectionOutcome(maxRetries: nat, before: seq<Step>, targets: string)
    requires Runs(Init(maxRetries), before) && After(Init(maxRetries), before).node == Audit
    ensures var s := After(Init(maxRetries), before);
      var t := Apply(s, Judge(Reject(targets)));
      && t.rejections == s.rejections + [targets] && t.feedback == Some(targets) && t.responses == s.responses
      && (RoundSpent(maxRetries, t.rejections) ==> t.node == End && t.status == Failed && t.result == None)
      && (!RoundSpent(maxRetries, t.rejections) ==>
            t.node == Router && t.status == Retrying && t.retryCount == |t.rejections|)
  {
    RunKeeps(Init(maxRetries), before);
    RunMaxRetries(Init(maxRetries), before);
    var s := After(Init(maxRetries), before);
    SpentIff(s, targets);
    RejectionRetries(s, targets);
  }

  /** The audit's own test, in terms of the rejections of the round. */
  lemma SpentIff(s: State, targets: string)
    requires Bounded(s) && s.node == Audit
    ensures RoundSpent(s.maxRetries, s.rejections + [targets]) <==> s.retryCount >= s.maxRetries || Repeats(s, targets)
    ensures s.retryCount == |s.rejections|
  {
    assert s.feedback == LastRejection(s);
  }

  lemma RejectionRetries(s: State, targets: string)
    requires Bounded(s) && s.node == Audit
    ensures var t := Apply(s, Judge(Reject(targets)));
      && t.rejections == s.rejections + [targets] && t.feedback == Some(targets) && t.responses == s.responses
      && (if s.retryCount >= s.maxRetries || Repeats(s, targets)
          then t.node == End && t.status == Failed && t.result == None
          else t.node == Router && t.status == Retrying && t.retryCount == s.retryCount + 1)
  {
  }

  /** The step begins a round: the supervisor answers in a state that no round is open in. */
  predicate Begins(s: State, step: Step) {
    step.Route? && !step.choice.ModelFails? && (s.status == Idle || s.status == Completed || s.status == Failed)
  }

  /** The rejections counted are those of the round: only a rejecting audit adds one, and only a new round forgets them. */
  lemma RejectionsOfRound(s: State, step: Step)
    requires Inv(s) && Enabled(s, step)
    ensures Apply(s, step).rejections ==
      if step.Judge? && step.verdict.Reject? then s.rejections + [step.verdict.targets]
      else if Begins(s, step) then [] else s.rejections
  {
    match step
    case RunTool => if s.node.call.Invoke? { InvokedKeeps(s, s.node.call.tasks); }
    case RunAgents(order, answers) => AgentsDoneChannels(s, order, answers);
    case _ =>
  }

  /** A round begins with empty channels and no retries, whatever the round before left. */
  lemma RoundBeginsFresh(s: State, step: Step)
    requires Enabled(s, step) && Begins(s, step)
    ensures var t := Apply(s, step);
      && t.requested == t.pending == t.finished == [] && t.input == map[] && t.responses == map[]
      && t.feedback == None && t.result == None && t.retryCount == 0 && t.status == Routing
      && t.node == if step.choice.Call? then Tools(step.choice.call) else End
  {
  }

  // ---------- the agents that run ----------

  /** The agents that are to run answer to the dispatcher's own list: all of it, and nobody else. */
  lemma DispatchRunsPending(s: State, order: seq<Agent>, answers: map<Agent, string>)
    requires Inv(s) && s.node == Dispatcher && s.pending != []
    requires multiset(order) == multiset(s.pending) && forall a | a in order :: a in answers
    requires forall a | a in s.pending :: a in answers
    ensures var u := Apply(s, Dispatch);
      && u == s.(node := Agents(s.pending), status := Executing, pending := []) && Enabled(u, RunAgents(order, answers))
      && var t := Apply(u, RunAgents(order, answers));
         && t.node == Aggregator && t.pending == [] && t.requested == s.requested && t.input == s.input
         && (forall a :: a in t.finished <==> a in s.finished || a in s.pending)
         && (forall a | a in s.pending :: From(a) in t.responses && t.responses[From(a)] == answers[a])
         && (forall k | k in s.responses && !(k.From? && k.agent in s.pending) ::
               k in t.responses && t.responses[k] == s.responses[k])
         && (forall k | k in t.responses :: k in s.responses || (k.From? && k.agent in s.pending))
  {
    var u := Apply(s, Dispatch);
    assert NoDuplicates(s.pending);
    PermutedDistinct(s.pending, order);
    AgentsDoneChannels(u, order, answers);
    AppendNewMerges(u.finished, order);
    var v := AgentsDone(u, order, answers);
    forall k | k in v.responses
      ensures v.responses[k]
        == if k.From? && k.agent in order then answers[k.agent] else if k in u.responses then u.responses[k] else ""
    {
      AnswersStored(u, order, answers, k);
    }
  }

  lemma PermutedDistinct(p: seq<Agent>, q: seq<Agent>)
    requires NoDuplicates(p) && multiset(p) == multiset(q)
    ensures NoDuplicates(q) && |q| == |p| && forall a :: a in p <==> a in q
  {
    assert |multiset(q)| == |q| && |multiset(p)| == |p|;
    forall a ensures a in p <==> a in q {
      assert a in p <==> a in multiset(p);
      assert a in q <==> a in multiset(q);
    }
    forall i, j | 0 <= i < j < |q| ensures q[i] != q[j] {
      if q[i] == q[j] { Repeated(q, i, j); OnceEach(p, q[i]); }
    }
  }

  lemma Repeated(q: seq<Agent>, i: nat, j: nat)
    requires i < j < |q| && q[i] == q[j]
    ensures multiset(q)[q[i]] >= 2
  {
    assert q == q[..i] + [q[i]] + q[i + 1..j] + [q[j]] + q[j + 1..];
  }

  lemma {:induction false} OnceEach(p: seq<Agent>, a: Agent)
    requires NoDuplicates(p)
    ensures multiset(p)[a] <= 1
    decreases |p|
  {
    if |p| > 0 {
      var init, last := p[..|p| - 1], p[|p| - 1];
      OnceEach(init, a);
      assert p == init + [last];
      if last == a { assert a !in init && a !in multiset(init); }
    }
  }

  /**
   * After any run without aborts, a call of the supervisor makes exactly the agents it names the ones to run, each with
   * the last instruction given to it, in a first attempt and in a retry alike.
   */
  lemma InvokeDispatches(maxRetries: nat, before: seq<Step>, tasks: seq<Task>)
    requires Runs(Init(maxRetries), before) && NoAbort(before) && After(Init(maxRetries), before).node == Router
    ensures var s := After(Init(maxRetries), before);
      var v := Apply(Apply(s, Route(Call(Invoke(tasks)))), RunTool);
      && v.node == Dispatcher && v.status == Dispatched && Inv(v)
      && (forall a :: a in v.pending <==> LastContent(tasks, a).Some?)
      && (forall a | a in v.pending :: a in v.requested && a in v.input && v.input[a] == LastContent(tasks, a).value)
  {
    var s := After(Init(maxRetries), before);
    RunSteady(Init(maxRetries), before);
    var u := Apply(s, Route(Call(Invoke(tasks))));
    StepKeeps(s, Route(Call(Invoke(tasks))));
    StepKeeps(u, RunTool);
    InvokedLists(u, tasks);
    InvokedKeeps(u, tasks);
    forall a ensures a in Register(u, tasks).pending <==> LastContent(tasks, a).Some? { DispatchMeaning(u, tasks, a); }
    forall a | a in Register(u, tasks).pending
      ensures a in Register(u, tasks).requested && a in Register(u, tasks).input
      ensures Register(u, tasks).input[a] == LastContent(tasks, a).value
    {
      DispatchMeaning(u, tasks, a);
    }
  }

  /** Task `i` is the last one for the agent. */
  predicate LastFor(tasks: seq<Task>, a: Agent, i: nat) {
    i < |tasks| && tasks[i].agent == a && forall j | i < j < |tasks| :: tasks[j].agent != a
  }

  /** Who is named: `LastContent` finds an instruction exactly for the agents of the list, the last one for each. */
  lemma {:induction false} LastContentMeans(tasks: seq<Task>, a: Agent)
    ensures LastContent(tasks, a).None? <==> forall i | 0 <= i < |tasks| :: tasks[i].agent != a
    ensures LastContent(tasks, a).Some? ==> exists i: nat :: LastFor(tasks, a, i) && tasks[i].content == LastContent(tasks, a).value
    decreases |tasks|
  {
    if |tasks| > 0 {
      var rest := tasks[1..];
      LastContentMeans(rest, a);
      if LastContent(rest, a).Some? {
        var i: nat :| LastFor(rest, a, i) && rest[i].content == LastContent(rest, a).value;
        assert tasks[i + 1] == rest[i];
        assert forall j | i + 1 < j < |tasks| :: tasks[j] == rest[j - 1];
        assert LastFor(tasks, a, i + 1);
      } else {
        assert forall j | 0 < j < |tasks| :: tasks[j] == rest[j - 1];
        assert tasks[0].agent == a ==> LastFor(tasks, a, 0);
      }
    }
  }

  /** Requested agents have finished, or are pending or running. */
  predicate Covered(s: State) {
    && (s.status == Routing ==> s.requested == [])
    && (s.status == Retrying ==> Within(s.requested, s.finished))
    && (s.node == Dispatcher ==> Within(s.requested, s.finished + s.pending))
    && (s.node.Agents? ==> Within(s.requested, s.finished + s.node.names))
    && (s.node == Aggregator || s.node == Audit ==> Within(s.requested, s.finished))
  }

  lemma {:induction false} RegisterCovers(s: State, tasks: seq<Task>)
    requires Within(s.requested, s.finished + s.pending)
    ensures var r := Register(s, tasks); r.finished == s.finished && Within(r.requested, s.finished + r.pending)
    decreases |tasks|
  {
    if |tasks| > 0 {
      var a := tasks[0].agent;
      if s.feedback.None? && a in s.finished {
        RegisterCovers(s, tasks[1..]);
      } else {
        RegisterCovers(s.(input := s.input[a := tasks[0].content],
                          pending := if a in s.pending then s.pending else s.pending + [a],
                          requested := if a in s.requested then s.requested else s.requested + [a]), tasks[1..]);
      }
    }
  }

  lemma ToolCovers(s: State)
    requires Inv(s) && Steady(s) && Covered(s) && s.node.Tools?
    ensures Covered(ToolStep(s))
  {
    if s.node.call.Invoke? {
      RegisterCovers(s, s.node.call.tasks);
      InvokedLists(s, s.node.call.tasks);
      InvokedKeeps(s, s.node.call.tasks);
    }
  }

  lemma AgentsCover(s: State, order: seq<Agent>, answers: map<Agent, string>)
    requires Inv(s) && Steady(s) && Covered(s) && Enabled(s, RunAgents(order, answers))
    ensures Covered(Apply(s, RunAgents(order, answers)))
  {
    AgentsDoneChannels(s, order, answers);
    AppendNewMerges(s.finished, order);
    forall a | a in s.node.names ensures a in order {
      assert a in multiset(s.node.names);
      assert a in multiset(order);
    }
  }

  lemma WithinNone(a: seq<Agent>, b: seq<Agent>)
    requires Within(a, b)
    ensures b == [] ==> a == []
  {
    if |a| > 0 { assert a[0] in b; }
  }

  lemma AggregateCovers(s: State, answer: string)
    requires Inv(s) && Steady(s) && Covered(s) && s.node == Aggregator
    ensures Covered(AggregateStep(s, answer))
  {
    WithinNone(s.requested, s.finished);
  }

  lemma StepCovers(s: State, step: Step)
    requires Inv(s) && Steady(s) && Covered(s) && Enabled(s, step) && step != Abort
    ensures Covered(Apply(s, step))
  {
    match step
    case RunTool => ToolCovers(s);
    case RunAgents(order, answers) => AgentsCover(s, order, answers);
    case Aggregate(answer) => AggregateCovers(s, answer);
    case _ =>
  }

  lemma {:induction false} RunCovers(s: State, steps: seq<Step>)
    requires Inv(s) && Steady(s) && Covered(s) && Runs(s, steps) && NoAbort(steps)
    ensures Covered(After(s, steps))
    decreases |steps|
  {
    if |steps| > 0 {
      StepCovers(s, steps[0]);
      StepSteady(s, steps[0]);
      StepKeeps(s, steps[0]);
      RunCovers(Apply(s, steps[0]), steps[1..]);
    }
  }

  /** In every run without aborts, all requested agents have finished whenever results are aggregated or audited. */
  lemma RequestedHaveFinished(maxRetries: nat, steps: seq<Step>)
    requires Runs(Init(maxRetries), steps) && NoAbort(steps)
    ensures var s := After(Init(maxRetries), steps);
      s.node == Aggregator || s.node == Audit ==> forall a | a in s.requested :: a in s.finished
  {
    RunCovers(Init(maxRetries), steps);
  }

  // ---------- how tools and turns end ----------

  /** A tool that changes nothing returns to the supervisor in a first attempt and leads to the aggregator in a retry. */
  lemma ToolReturns(maxRetries: nat, before: seq<Step>)
    requires Runs(Init(maxRetries), before) && NoAbort(before) && After(Init(maxRetries), before).node == Router
    ensures var s := After(Init(maxRetries), before);
      var t := Apply(Apply(s, Route(Call(OtherTool))), RunTool);
      && t.node == (if s.status == Retrying then Aggregator else Router)
      && t.status == (if s.status == Retrying then Retrying else Routing)
  {
    RunSteady(Init(maxRetries), before);
  }

  /** The ways a turn can end, and the status each leaves. */
  predicate EndsTurn(s: State, step: Step, status: Status) {
    match step
    case Route(ModelFails) => status == Failed
    case Route(NoTool) => status == if s.status == Retrying then Retrying else Routing
    case Aggregate(_) => s.responses == map[] && status == Routing
    case Judge(Pass) => status == Completed
    case Judge(Reject(targets)) => RoundSpent(s.maxRetries, s.rejections + [targets]) && status == Failed
    case _ => false
  }

  /** In every run without aborts, a step ends the turn exactly in one of these ways. */
  lemma TurnEndsIff(maxRetries: nat, before: seq<Step>, step: Step)
    requires Runs(Init(maxRetries), before) && NoAbort(before) && Enabled(After(Init(maxRetries), before), step)
    requires step != Abort
    ensures var s := After(Init(maxRetries), before);
      Apply(s, step).node == End <==> EndsTurn(s, step, Apply(s, step).status)
  {
    var s := After(Init(maxRetries), before);
    RunSteady(Init(maxRetries), before);
    RunMaxRetries(Init(maxRetries), before);
    match step
    case RunTool => ToolSteady(s); if s.node.call.Invoke? { InvokedKeeps(s, s.node.call.tasks); }
    case RunAgents(order, answers) => AgentsDoneChannels(s, order, answers);
    case Judge(Reject(targets)) => RejectionOutcome(maxRetries, before, targets);
    case _ =>
  }
}
