/** What every state of the agent graph keeps, over any number of user turns and whatever the models answer. */
module SupervisorSafety {
  import opened Wrappers
  import opened Reducers
  import opened Supervisor

  predicate Within<T(==)>(s: seq<T>, t: seq<T>) {
    forall x | x in s :: x in t
  }

  /** The agent lists: no duplicates, only requested agents, and an input for every agent to run. */
  predicate Lists(s: State) {
    && NoDuplicates(s.requested) && NoDuplicates(s.pending) && NoDuplicates(s.finished)
    && Within(s.pending, s.requested) && Within(s.finished, s.requested)
    && (forall a | a in s.pending :: a in s.input)
  }

  predicate Running(s: State) {
    s.node.Agents? ==>
      && s.node.names != [] && NoDuplicates(s.node.names) && Within(s.node.names, s.requested)
      && forall a | a in s.node.names :: a in s.input
  }

  predicate Ended(status: Status) {
    status == Completed || status == Failed
  }

  /** The feedback the next audit will compare with is the last rejection of this round. */
  function LastRejection(s: State): Option<string> {
    if s.rejections == [] then None else Some(s.rejections[|s.rejections| - 1])
  }

  /** No two rejections of the list, one after the other, say the same. */
  predicate Changing(rejections: seq<string>) {
    forall i | 0 < i < |rejections| :: Trim(rejections[i - 1]) != Trim(rejections[i])
  }

  function AllButLast(rejections: seq<string>): seq<string> {
    if rejections == [] then [] else rejections[..|rejections| - 1]
  }

  /** Retries and audits of the round. */
  predicate Bounded(s: State) {
    && s.retryCount <= s.maxRetries
    && (!Ended(s.status) ==>
         s.audits == s.retryCount == |s.rejections| && s.feedback == LastRejection(s) && Changing(s.rejections))
    && (Ended(s.status) ==> s.audits <= s.retryCount + 1 && |s.rejections| <= s.audits && Changing(AllButLast(s.rejections)))
    && (s.status == Completed ==> |s.rejections| <= s.retryCount && Changing(s.rejections))
    && (s.node == Audit ==> s.status == Auditing && Aggregated in s.responses)
    && (Ended(s.status) ==> s.node == Router || s.node == End)
    && (s.node.Tools? ==> s.status != Idle)
    && (s.status == Idle ==> s.retryCount == 0 && s.audits == 0)
  }

  predicate Inv(s: State) {
    Lists(s) && Running(s) && Bounded(s)
  }

  // ---------- the lists ----------

  /** What one entry of a tool call adds. */
  lemma {:induction false} RegisterLists(s: State, tasks: seq<Task>)
    requires Lists(s)
    ensures Lists(Register(s, tasks))
    ensures s.requested <= Register(s, tasks).requested && s.pending <= Register(s, tasks).pending
    ensures Register(s, tasks) == s.(requested := Register(s, tasks).requested, pending := Register(s, tasks).pending,
                                     input := Register(s, tasks).input)
    decreases |tasks|
  {
    if |tasks| > 0 {
      var a := tasks[0].agent;
      if s.feedback.None? && a in s.finished {
        RegisterLists(s, tasks[1..]);
      } else {
        var next := s.(input := s.input[a := tasks[0].content],
                       pending := if a in s.pending then s.pending else s.pending + [a],
                       requested := if a in s.requested then s.requested else s.requested + [a]);
        RegisterLists(next, tasks[1..]);
      }
    }
  }

  /** Merging a list that extends the channel replaces the channel by it. */
  lemma {:induction false} AppendExtension<T>(existing: seq<T>, more: seq<T>)
    requires existing <= more && NoDuplicates(more)
    ensures AppendNew(existing, more) == more
  {
    var k := |existing|;
    assert more[..k] == existing;
    AppendPrefix(existing, more, 0);
    assert more[0..] == more;
  }

  lemma {:induction false} AppendPrefix<T>(existing: seq<T>, more: seq<T>, i: nat)
    requires existing <= more && NoDuplicates(more) && i <= |more|
    ensures AppendNew(if i <= |existing| then existing else more[..i], more[i..]) == more
    decreases |more| - i
  {
    var now := if i <= |existing| then existing else more[..i];
    if i == |more| {
      assert more[i..] == [];
      assert now == more;
    } else {
      AppendPrefix(existing, more, i + 1);
      assert more[i..][1..] == more[i + 1..] && more[i..][0] == more[i];
      if i < |existing| {
        assert existing[i] == more[i];
      } else {
        assert now == more[..i];
        assert more[..i + 1] == more[..i] + [more[i]];
        assert forall k | 0 <= k < i :: now[k] == more[k];
      }
    }
  }

  lemma MergeExtension<T>(existing: seq<T>, more: seq<T>)
    requires existing <= more && NoDuplicates(more)
    ensures MergeUnique(existing, Some(more)) == more
  {
    if more != [] { AppendExtension(existing, more); }
  }

  lemma InvokedLists(s: State, tasks: seq<Task>)
    requires Lists(s)
    ensures Lists(Invoked(s, tasks))
    ensures Invoked(s, tasks).requested == Register(s, tasks).requested
    ensures Invoked(s, tasks).pending == Register(s, tasks).pending
  {
    RegisterLists(s, tasks);
    MergeExtension(s.requested, Register(s, tasks).requested);
    MergeExtension(s.pending, Register(s, tasks).pending);
  }

  /** What the updates of a set of agents do to the channels. */
  lemma {:induction false} AgentsDoneChannels(s: State, order: seq<Agent>, answers: map<Agent, string>)
    requires forall a | a in order :: a in answers
    ensures var t := AgentsDone(s, order, answers);
      && t == s.(responses := t.responses, finished := t.finished, pending := t.pending)
      && (t.pending == if order == [] then s.pending else [])
      && t.finished == AppendNew(s.finished, order)
      && (forall k :: k in t.responses <==> k in s.responses || (k.From? && k.agent in order))
    decreases |order|
  {
    if |order| > 0 {
      var next := AgentDone(s, order[0], answers[order[0]]);
      AgentsDoneChannels(next, order[1..], answers);
      OneMore(s.finished, order[0]);
      assert forall a :: a in order <==> a == order[0] || a in order[1..];
      assert forall k :: k in next.responses <==> k in s.responses || k == From(order[0]);
    }
  }

  lemma OneMore(finished: seq<Agent>, a: Agent)
    ensures MergeUnique(finished, Some([a])) == if a in finished then finished else finished + [a]
  {
    var next := if a in finished then finished else finished + [a];
    assert [a][1..] == [];
    assert AppendNew(finished, [a]) == AppendNew(next, []);
  }

  lemma RunAgentsLists(s: State, order: seq<Agent>, answers: map<Agent, string>)
    requires Lists(s) && Running(s) && Enabled(s, RunAgents(order, answers))
    ensures Lists(Apply(s, RunAgents(order, answers)))
  {
    AgentsDoneChannels(s, order, answers);
    AppendNewMerges(s.finished, order);
    forall a | a in order ensures a in s.requested {
      assert a in multiset(order);
      assert a in s.node.names;
    }
  }

  lemma RouteLists(s: State, choice: Choice)
    requires Lists(s)
    ensures Lists(RouteStep(s, choice)) && Running(RouteStep(s, choice))
  {
  }

  lemma DispatchLists(s: State)
    requires Lists(s)
    ensures Lists(DispatchStep(s)) && Running(DispatchStep(s))
  {
  }

  lemma JudgeLists(s: State, verdict: Verdict)
    requires Lists(s)
    ensures Lists(JudgeStep(s, verdict)) && Running(JudgeStep(s, verdict))
  {
  }

  lemma StepLists(s: State, step: Step)
    requires Lists(s) && Running(s) && Enabled(s, step)
    ensures Lists(Apply(s, step)) && Running(Apply(s, step))
  {
    match step
    case Route(choice) => RouteLists(s, choice);
    case RunTool => if s.node.call.Invoke? { InvokedLists(s, s.node.call.tasks); }
    case Dispatch => DispatchLists(s);
    case RunAgents(order, answers) => RunAgentsLists(s, order, answers);
    case Judge(verdict) => JudgeLists(s, verdict);
    case _ =>
  }

  // ---------- retries and audits ----------

  lemma InvokedKeeps(s: State, tasks: seq<Task>)
    requires Lists(s)
    ensures var t := Invoked(s, tasks);
      t == s.(node := t.node, status := Supervisor.Dispatched, input := t.input, requested := t.requested, pending := t.pending)
  {
    RegisterLists(s, tasks);
  }

  lemma ChangingExtend(rejections: seq<string>, targets: string)
    requires Changing(rejections)
    ensures AllButLast(rejections + [targets]) == rejections
    ensures rejections == [] || Trim(rejections[|rejections| - 1]) != Trim(targets) ==> Changing(rejections + [targets])
  {
  }

  lemma ChangingShorter(rejections: seq<string>)
    requires Changing(rejections)
    ensures Changing(AllButLast(rejections))
  {
  }

  lemma PassBounded(s: State)
    requires Bounded(s) && s.node == Audit
    ensures Bounded(JudgeStep(s, Pass))
  {
    ChangingShorter(s.rejections);
  }

  lemma RejectBounded(s: State, targets: string)
    requires Bounded(s) && s.node == Audit
    ensures Bounded(JudgeStep(s, Reject(targets)))
  {
    ChangingExtend(s.rejections, targets);
    assert LastRejection(s) == s.feedback;
  }

  lemma JudgeBounded(s: State, verdict: Verdict)
    requires Bounded(s) && s.node == Audit
    ensures Bounded(JudgeStep(s, verdict))
  {
    match verdict
    case Pass => PassBounded(s);
    case Reject(targets) => RejectBounded(s, targets);
  }

  lemma RouteBounded(s: State, choice: Choice)
    requires Bounded(s) && s.node == Router
    ensures Bounded(RouteStep(s, choice))
  {
    if !Ended(s.status) { ChangingShorter(s.rejections); }
  }

  lemma ToolBounded(s: State)
    requires Bounded(s) && Lists(s) && s.node.Tools?
    ensures Bounded(ToolStep(s))
  {
    if s.node.call.Invoke? { InvokedKeeps(s, s.node.call.tasks); }
  }

  lemma DispatchBounded(s: State)
    requires Bounded(s) && s.node == Dispatcher
    ensures Bounded(DispatchStep(s))
  {
  }

  lemma AggregateBounded(s: State, answer: string)
    requires Bounded(s) && s.node == Aggregator
    ensures Bounded(AggregateStep(s, answer))
  {
  }

  lemma AgentsBounded(s: State, order: seq<Agent>, answers: map<Agent, string>)
    requires Bounded(s) && Enabled(s, RunAgents(order, answers))
    ensures Bounded(Apply(s, RunAgents(order, answers)))
  {
    AgentsDoneChannels(s, order, answers);
  }

  lemma StepBounded(s: State, step: Step)
    requires Inv(s) && Enabled(s, step)
    ensures Bounded(Apply(s, step))
  {
    match step
    case Route(choice) => RouteBounded(s, choice);
    case RunTool => ToolBounded(s);
    case Dispatch => DispatchBounded(s);
    case RunAgents(order, answers) => AgentsBounded(s, order, answers);
    case Aggregate(answer) => AggregateBounded(s, answer);
    case Judge(verdict) => JudgeBounded(s, verdict);
    case _ =>
  }

  lemma StepKeeps(s: State, step: Step)
    requires Inv(s) && Enabled(s, step)
    ensures Inv(Apply(s, step))
  {
    StepLists(s, step);
    StepBounded(s, step);
  }

  /** Every reachable state keeps the lists consistent, the retries bounded and the audit's memory right. */
  lemma {:induction false} RunKeeps(s: State, steps: seq<Step>)
    requires Inv(s) && Runs(s, steps)
    ensures Inv(After(s, steps))
    decreases |steps|
  {
    if |steps| > 0 {
      StepKeeps(s, steps[0]);
      RunKeeps(Apply(s, steps[0]), steps[1..]);
    }
  }

  // ---------- consequences over whole runs ----------

  /** Whatever the models answer: at most `max_retries` retries and one audit more than that in a round, and a round
      whose every allowed audit rejected has failed. */
  lemma RoundBounds(maxRetries: nat, steps: seq<Step>)
    requires Runs(Init(maxRetries), steps)
    ensures var s := After(Init(maxRetries), steps);
      && s.retryCount <= s.maxRetries && s.audits <= s.maxRetries + 1
      && (|s.rejections| > s.maxRetries ==> s.status == Failed)
  {
    RunKeeps(Init(maxRetries), steps);
  }

  /** Two rejections in a row that say the same are the last of their round, and the round has failed. */
  lemma RepeatedFeedbackFails(maxRetries: nat, steps: seq<Step>, i: nat)
    requires Runs(Init(maxRetries), steps)
    requires var s := After(Init(maxRetries), steps);
      0 < i < |s.rejections| && Trim(s.rejections[i - 1]) == Trim(s.rejections[i])
    ensures var s := After(Init(maxRetries), steps); i == |s.rejections| - 1 && s.status == Failed
  {
    RunKeeps(Init(maxRetries), steps);
    var s := After(Init(maxRetries), steps);
    assert !Changing(s.rejections);
    assert forall k | 0 <= k < |s.rejections| - 1 :: AllButLast(s.rejections)[k] == s.rejections[k];
  }

  /** Every agent about to run was requested and has an input. */
  lemma DispatchedHaveInput(maxRetries: nat, steps: seq<Step>, a: Agent)
    requires Runs(Init(maxRetries), steps)
    requires var s := After(Init(maxRetries), steps); s.node.Agents? && a in s.node.names
    ensures var s := After(Init(maxRetries), steps); a in s.input && a in s.requested
  {
    RunKeeps(Init(maxRetries), steps);
  }
}
