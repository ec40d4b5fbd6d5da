/** When a success is recorded, and how an attempt whose rows are missing or whose statement raised ends. */
module JobOutcomes {
  import opened Wrappers
  import opened Sequences
  import opened JobQueue
  import opened JobSafety

  // ---------- success ----------

  /** The job row is there and, for a delete, the document row too. */
  predicate RowsThere(s: State, job: Job) {
    job.id in s.jobs && (job.operation == Delete ==> job.doc in s.docs)
  }

  /** The statement after the operation of one of the job's messages, with its rows there. */
  predicate Records(s: State, step: Step, id: JobId)
    requires Enabled(s, step)
  {
    && step.Advance? && IsOf(s.stream[step.i], id) && s.stream[step.i].pc == Operated
    && RowsThere(s, s.stream[step.i].payload.job)
  }

  lemma SuccessByMessage(s: State, i: nat, id: JobId)
    requires Running(s, i)
    ensures Success(Advanced(s, i), id) == Success(s, id) + Bit(Records(s, Advance(i), id))
  {
    if s.stream[i].payload.Queued? {
      var Queued(job, attempts) := s.stream[i].payload;
      CountAppend(SuccessOf(id), s.audit, Succeeded(job.id, attempts + 1));
      CountAppend(SuccessOf(id), s.audit, AttemptFailed(job.id, attempts + 1, !Exhausts(s, attempts)));
    }
  }

  /** Of all steps, exactly these record a success, and each records one. */
  lemma SuccessIff(s: State, step: Step, id: JobId)
    requires Enabled(s, step)
    ensures Success(Apply(s, step), id) == Success(s, id) + Bit(Records(s, step, id))
  {
    match step
    case Advance(i) => SuccessByMessage(s, i, id);
    case Request(job) => CountAppend(SuccessOf(id), s.audit, Requested(job.id));
    case FailRequest(f) => CountAppend(SuccessOf(id), s.audit, EnqueueFailed(f.job.id));
    case _ =>
  }

  /** In any run: a job that has no row, or whose document to delete has none, gets no success from the next step. */
  lemma {:induction false} RecordedHadRows(s: State, steps: seq<Step>, id: JobId)
    requires Runs(s, steps) && Success(After(s, steps), id) > Success(s, id)
    ensures exists k :: 0 <= k < |steps| && Runs(s, steps[..k]) && Enabled(After(s, steps[..k]), steps[k])
                        && Records(After(s, steps[..k]), steps[k], id)
    decreases |steps|
  {
    SuccessIff(s, steps[0], id);
    if Records(s, steps[0], id) {
      assert steps[..0] == [] && Runs(s, steps[..0]) && After(s, steps[..0]) == s;
    } else {
      var t := Apply(s, steps[0]);
      RecordedHadRows(t, steps[1..], id);
      var k :| 0 <= k < |steps[1..]| && Runs(t, steps[1..][..k]) && Enabled(After(t, steps[1..][..k]), steps[1..][k])
               && Records(After(t, steps[1..][..k]), steps[1..][k], id);
      assert steps[..k + 1][1..] == steps[1..][..k] && steps[..k + 1][0] == steps[0];
      assert Runs(s, steps[..k + 1]) && After(s, steps[..k + 1]) == After(t, steps[1..][..k]);
    }
  }

  // ---------- failure ----------

  /** The next statement of message `i` needs a row that is not there. */
  predicate LacksRow(s: State, i: nat) {
    && Running(s, i) && s.stream[i].payload.Queued?
    && var job := s.stream[i].payload.job;
       || (s.stream[i].pc == Fetched
           && (job.id !in s.jobs || (s.jobs[job.id].status != JobSucceeded && job.doc !in s.docs)))
       || (s.stream[i].pc == Operated && !RowsThere(s, job))
  }

  /** That statement raises: nothing but the message's place in the handling changes. */
  lemma LackRaises(s: State, i: nat)
    requires LacksRow(s, i)
    ensures Enabled(s, Advance(i)) && Apply(s, Advance(i)) == s.(stream := s.stream[i := s.stream[i].(pc := Failing)])
  {
  }

  /** Every statement of the try block may raise; it may have acknowledged the message exactly if it would have. */
  lemma RaiseChoices(s: State, i: nat)
    requires Running(s, i) && s.stream[i].payload.Queued? && InTryBlock(s.stream[i].pc)
    ensures Enabled(s, Raise(i, false))
    ensures Enabled(s, Raise(i, true)) <==> Advanced(s, i).stream[i].pc == Finished
  {
  }

  /** Messages are delivered in the order in which they were appended. */
  predicate InOrder(s: State) {
    forall i, k | 0 <= i < k < |s.stream| && s.stream[i].pc == Ready :: s.stream[k].pc == Ready
  }

  lemma StepInOrder(s: State, step: Step)
    requires InOrder(s) && Enabled(s, step)
    ensures InOrder(Apply(s, step))
  {
    var t := Apply(s, step);
    forall i, k | 0 <= i < k < |t.stream| && t.stream[i].pc == Ready ensures t.stream[k].pc == Ready {
      ReadyBefore(s, step, i);
      if k < |s.stream| { ReadyStays(s, step, k); } else { AppendedReady(s, step, k); }
    }
  }

  lemma ReadyBefore(s: State, step: Step, i: nat)
    requires Enabled(s, step) && i < |Apply(s, step).stream| && Apply(s, step).stream[i].pc == Ready
    ensures i < |s.stream| ==> s.stream[i].pc == Ready && step != Advance(i) && !(step.Read? && step.i == i)
  {
    if step.Advance? { AdvanceExtends(s, step.i); }
  }

  /** A waiting message stays one unless it is delivered, and then every message before it has been. */
  lemma ReadyStays(s: State, step: Step, k: nat)
    requires Enabled(s, step) && k < |s.stream| && s.stream[k].pc == Ready
    ensures k < |Apply(s, step).stream|
    ensures Apply(s, step).stream[k].pc == Ready
      || (step.Read? && step.i == k && forall j | 0 <= j < k :: s.stream[j].pc != Ready)
  {
    if step.Advance? { AdvanceExtends(s, step.i); }
  }

  lemma AppendedReady(s: State, step: Step, k: nat)
    requires Enabled(s, step) && |s.stream| <= k < |Apply(s, step).stream|
    ensures Apply(s, step).stream[k].pc == Ready
  {
  }

  lemma {:induction false} DeliveredInOrder(s: State, steps: seq<Step>)
    requires InOrder(s) && Runs(s, steps)
    ensures InOrder(After(s, steps))
    decreases |steps|
  {
    if steps != [] {
      StepInOrder(s, steps[0]);
      DeliveredInOrder(Apply(s, steps[0]), steps[1..]);
    }
  }

  predicate FailurePc(pc: Pc) {
    pc == Failing || pc == JobFailed || pc == DocFailed || pc == HandedOver || pc == Recorded || pc == Finished
  }

  predicate UsesUp(s: State, m: Message)
    requires m.payload.Queued?
  {
    m.payload.attempts + 1 >= s.maxAttempts
  }

  /** The job went on: to the dead letters with its attempts used up, and back into the stream otherwise. */
  predicate WentOn(s: State, m: Message)
    requires m.payload.Queued?
  {
    var Queued(job, attempts) := m.payload;
    if UsesUp(s, m) then Exhausted(job.id, attempts + 1) in s.dead
    else exists k :: 0 <= k < |s.stream| && s.stream[k].payload == Queued(job, attempts + 1)
  }

  /** The attempt is on record as failed. */
  predicate OnRecordFailed(s: State, m: Message)
    requires m.payload.Queued?
  {
    AttemptFailed(m.payload.job.id, m.payload.attempts + 1, !UsesUp(s, m)) in s.audit
  }

  /** Message `i` is on the failure path, with all of it done that lies behind. */
  predicate FailsOrderly(s: State, i: nat) {
    && i < |s.stream| && s.stream[i].payload.Queued? && FailurePc(s.stream[i].pc)
    && (s.stream[i].pc in {HandedOver, Recorded, Finished} ==> WentOn(s, s.stream[i]))
    && (s.stream[i].pc in {Recorded, Finished} ==> OnRecordFailed(s, s.stream[i]))
    && (s.stream[i].pc == Finished ==> s.stream[i].acked)
  }

  /** Steps only add to the dead letters and the audit log, and leave every message its place and payload. */
  predicate Extends(s: State, t: State) {
    && s.dead <= t.dead && s.audit <= t.audit && t.maxAttempts == s.maxAttempts
    && |s.stream| <= |t.stream| && forall k | 0 <= k < |s.stream| :: t.stream[k].payload == s.stream[k].payload
  }

  lemma AdvanceExtends(s: State, i: nat)
    requires Running(s, i)
    ensures Extends(s, Advanced(s, i))
    ensures forall k | 0 <= k < |s.stream| && k != i :: Advanced(s, i).stream[k] == s.stream[k]
  {
  }

  lemma StepExtends(s: State, step: Step)
    requires Enabled(s, step)
    ensures Extends(s, Apply(s, step))
  {
    if step.Advance? { AdvanceExtends(s, step.i); }
  }

  /** A step of another message, or of none, leaves message `i` as it is. */
  lemma Elsewhere(s: State, step: Step, i: nat)
    requires Enabled(s, step) && i < |s.stream| && FailurePc(s.stream[i].pc) && step != Advance(i)
    ensures Apply(s, step).stream[i] == s.stream[i]
  {
    if step.Advance? { AdvanceExtends(s, step.i); }
  }

  lemma StaysOrderly(s: State, t: State, i: nat)
    requires FailsOrderly(s, i) && Extends(s, t) && t.stream[i] == s.stream[i]
    ensures FailsOrderly(t, i)
  {
    var m := s.stream[i];
    if WentOn(s, m) && !UsesUp(s, m) {
      var k :| 0 <= k < |s.stream| && s.stream[k].payload == Queued(m.payload.job, m.payload.attempts + 1);
      assert t.stream[k].payload == Queued(m.payload.job, m.payload.attempts + 1);
    }
  }

  lemma HandsOver(s: State, i: nat)
    requires Running(s, i) && s.stream[i].payload.Queued? && s.stream[i].pc == DocFailed
    ensures FailsOrderly(Advanced(s, i), i)
  {
    var t := Advanced(s, i);
    if !UsesUp(s, s.stream[i]) {
      assert t.stream[|s.stream|].payload == Queued(s.stream[i].payload.job, s.stream[i].payload.attempts + 1);
    }
  }

  lemma AdvanceOrderly(s: State, i: nat)
    requires FailsOrderly(s, i) && Running(s, i)
    ensures FailsOrderly(Advanced(s, i), i) && Advanced(s, i).stream[i].started == s.stream[i].started
  {
    var t := Advanced(s, i);
    if s.stream[i].pc == DocFailed {
      HandsOver(s, i);
    } else {
      AdvanceExtends(s, i);
      if WentOn(s, s.stream[i]) && !UsesUp(s, s.stream[i]) {
        var k :| 0 <= k < |s.stream| && s.stream[k].payload == Queued(s.stream[i].payload.job, s.stream[i].payload.attempts + 1);
        assert t.stream[k].payload == s.stream[k].payload;
      }
    }
  }

  lemma {:induction false} RunOrderly(s: State, steps: seq<Step>, i: nat)
    requires FailsOrderly(s, i) && Runs(s, steps)
    ensures var t := After(s, steps);
      FailsOrderly(t, i) && t.stream[i].payload == s.stream[i].payload && t.stream[i].started == s.stream[i].started
    decreases |steps|
  {
    if steps != [] {
      var t := Apply(s, steps[0]);
      if steps[0] == Advance(i) {
        AdvanceOrderly(s, i);
        AdvanceExtends(s, i);
      } else {
        StepExtends(s, steps[0]);
        Elsewhere(s, steps[0], i);
        StaysOrderly(s, t, i);
      }
      RunOrderly(t, steps[1..], i);
    }
  }

  /**
   * An attempt that lacks a row when it begins or when it commits, whatever other workers do meanwhile: it is on the
   * failure path from then on; when its handling has finished the failed attempt is on record, the job has gone on to the
   * dead letters or back into the stream, and its operation has not been started if it was not before.
   */
  lemma LackingRowFails(s: State, steps: seq<Step>, i: nat)
    requires LacksRow(s, i) && Runs(s, [Advance(i)] + steps)
    ensures var t := After(s, [Advance(i)] + steps);
      && FailsOrderly(t, i) && t.stream[i].started == s.stream[i].started
      && (t.stream[i].pc == Finished ==> WentOn(t, t.stream[i]) && OnRecordFailed(t, t.stream[i]) && t.stream[i].acked)
  {
    LackRaises(s, i);
    assert ([Advance(i)] + steps)[1..] == steps;
    RunOrderly(Apply(s, Advance(i)), steps, i);
  }

  /** The same for a statement of the try block that raises. */
  lemma RaisingFails(s: State, steps: seq<Step>, i: nat, acked: bool)
    requires Runs(s, [Raise(i, acked)] + steps)
    ensures var t := After(s, [Raise(i, acked)] + steps);
      && FailsOrderly(t, i) && (t.stream[i].started <==> s.stream[i].started || s.stream[i].pc == DocMarked)
      && (t.stream[i].pc == Finished ==> WentOn(t, t.stream[i]) && OnRecordFailed(t, t.stream[i]) && t.stream[i].acked)
  {
    assert ([Raise(i, acked)] + steps)[1..] == steps;
    RunOrderly(Apply(s, Raise(i, acked)), steps, i);
  }
}
