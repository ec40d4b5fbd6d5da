/**
 * worker.py: one worker handling one delivered message, statement by statement, over the shared stores. Each
 * method is proved to have the effect of its protocol step, so a handled message is a run of the protocol.
 */
module Worker {
  import opened Wrappers
  import opened JobQueue

  /** Where an exception is raised during handling; `acked` if it comes from an acknowledgement that took effect. */
  datatype Fault = NoFault | RaiseAt(pc: Pc, acked: bool)

  lemma {:induction false} RunExtend(s: State, steps: seq<Step>, step: Step)
    requires Runs(s, steps) && Enabled(After(s, steps), step)
    ensures Runs(s, steps + [step]) && After(s, steps + [step]) == Apply(After(s, steps), step)
    decreases |steps|
  {
    if steps == [] {
      assert [] + [step] == [step];
    } else {
      RunExtend(Apply(s, steps[0]), steps[1..], step);
      assert (steps + [step])[1..] == steps[1..] + [step];
    }
  }

  /** `run` leads from `s0` to `s`. */
  predicate Reached(s0: State, run: seq<Step>, s: State) {
    Runs(s0, run) && After(s0, run) == s
  }

  /** The statement after the one at `pc`, when nothing goes wrong. */
  function NextStatement(pc: Pc): Pc {
    match pc
    case Fetched => JobMarked
    case JobMarked => DocMarked
    case DocMarked => Operated
    case Operated => Committed
    case _ => Finished
  }

  // ---------- what handling comes to ----------

  /** The whole failure path. */
  function FailedHandling(s: State, i: nat): State
    requires i < |s.stream| && s.stream[i].payload.Queued?
  {
    Ack(JobQueue.RecordFailure(HandOver(FailDocument(FailJob(s, i), i), i), i), i)
  }

  /** A handling in which nothing goes wrong. */
  function SucceededHandling(s: State, i: nat): State
    requires Healthy(s, i)
  {
    Ack(Commit(Operate(JobQueue.MarkDocument(Begin(s, i), i), i), i), i)
  }

  /** The operation raises: the failure path follows. */
  function RaisedOperation(s: State, i: nat): (t: State)
    requires Healthy(s, i)
    ensures i < |t.stream| && t.stream[i].payload == s.stream[i].payload
  {
    Raised(JobQueue.MarkDocument(Begin(s, i), i), i, false)
  }

  /** Both rows are there and the job has not succeeded before. */
  predicate Healthy(s: State, i: nat) {
    && i < |s.stream| && s.stream[i].payload.Queued? && s.stream[i].pc == Fetched
    && s.stream[i].payload.job.id in s.jobs && s.stream[i].payload.job.doc in s.docs
    && s.jobs[s.stream[i].payload.job.id].status != JobSucceeded
  }

  /** A row the handling cannot do without is not there: the job's own, or, unless it has succeeded, its document's. */
  predicate RowMissing(s: State, i: nat) {
    && i < |s.stream| && s.stream[i].payload.Queued? && s.stream[i].pc == Fetched
    && var job := s.stream[i].payload.job;
       job.id !in s.jobs || (s.jobs[job.id].status != JobSucceeded && job.doc !in s.docs)
  }

  /** The job has succeeded before: nothing is left to do. */
  predicate DoneBefore(s: State, i: nat) {
    && i < |s.stream| && s.stream[i].payload.Queued? && s.stream[i].pc == Fetched
    && s.stream[i].payload.job.id in s.jobs && s.jobs[s.stream[i].payload.job.id].status == JobSucceeded
  }

  /**
   * A failed attempt, as a whole: it is counted and recorded, the rows say what is next, and the job goes on exactly
   * once, to the dead letters when its attempts are used up and back into the stream otherwise.
   */
  predicate FailedAttempt(s: State, i: nat, t: State)
    requires i < |s.stream| && s.stream[i].payload.Queued?
  {
    var Queued(job, attempts) := s.stream[i].payload;
    var exhausted := attempts + 1 >= s.maxAttempts;
    && t.audit == s.audit + [AttemptFailed(job.id, attempts + 1, !exhausted)]
    && (if exhausted then t.dead == s.dead + [Exhausted(job.id, attempts + 1)] && |t.stream| == |s.stream|
        else t.dead == s.dead && |t.stream| == |s.stream| + 1 && Last(t.stream) == NewMessage(Queued(job, attempts + 1)))
    && (job.id in s.jobs ==>
          t.jobs == s.jobs[job.id := JobRow(s.jobs[job.id].doc, if exhausted then JobFailedStatus else JobQueued, attempts + 1)])
    && (job.id !in s.jobs ==> t.jobs == s.jobs)
    && (job.doc !in s.docs ==> t.docs == s.docs)
    && (job.doc in s.docs ==> t.docs == s.docs[job.doc :=
          if job.operation == Delete then if exhausted then DeleteFailed else DeleteQueued
          else if exhausted then DocFailedStatus else DocQueued])
    && (forall k | 0 <= k < |s.stream| && k != i :: t.stream[k] == s.stream[k])
    && t.stream[i].payload == s.stream[i].payload && t.stream[i].pc == Finished && t.stream[i].acked
  }

  lemma FailureOutcome(s: State, i: nat)
    requires i < |s.stream| && s.stream[i].payload.Queued?
    ensures FailedAttempt(s, i, FailedHandling(s, i))
    ensures FailedHandling(s, i).stream[i].started == s.stream[i].started
  {
  }

  /** Nothing else than the message and rows the failure path writes differs. */
  predicate FailsAlike(s: State, r: State, i: nat) {
    && i < |s.stream| && s.stream[i].payload.Queued? && |r.stream| == |s.stream|
    && r.stream == s.stream[i := r.stream[i]] && r.stream[i].payload == s.stream[i].payload
    && r.maxAttempts == s.maxAttempts && r.dead == s.dead && r.audit == s.audit
    && var job := s.stream[i].payload.job;
       && r.jobs.Keys == s.jobs.Keys && r.docs.Keys == s.docs.Keys
       && (forall id | id in s.jobs :: if id == job.id then r.jobs[id].doc == s.jobs[id].doc else r.jobs[id] == s.jobs[id])
       && (forall doc | doc in s.docs && doc != job.doc :: r.docs[doc] == s.docs[doc])
  }

  /** An attempt that raises after its rows were marked ends like any other failed one. */
  lemma FailureFrom(s: State, r: State, i: nat)
    requires FailsAlike(s, r, i)
    ensures FailedAttempt(s, i, FailedHandling(r, i))
    ensures FailedHandling(r, i).stream[i].started == r.stream[i].started
  {
    FailureOutcome(r, i);
    var job, t := s.stream[i].payload.job, FailedHandling(r, i);
    if job.id in s.jobs {
      var row := JobRow(s.jobs[job.id].doc,
        if s.stream[i].payload.attempts + 1 >= s.maxAttempts then JobFailedStatus else JobQueued, s.stream[i].payload.attempts + 1);
      assert r.jobs[job.id := row] == s.jobs[job.id := row];
    } else {
      assert r.jobs == s.jobs;
    }
    if job.doc in t.docs { SameButOne(s.docs, r.docs, job.doc, t.docs[job.doc]); }
    assert job.doc !in s.docs ==> r.docs == s.docs;
  }

  lemma SameButOne(a: map<DocId, DocStatus>, b: map<DocId, DocStatus>, doc: DocId, status: DocStatus)
    requires a.Keys == b.Keys && forall d | d in a && d != doc :: b[d] == a[d]
    ensures doc !in a ==> a == b
    ensures a[doc := status] == b[doc := status]
  {
    assert a[doc := status].Keys == b[doc := status].Keys;
  }

  lemma RaisedAlike(s: State, i: nat)
    requires Healthy(s, i)
    ensures FailsAlike(s, RaisedOperation(s, i), i) && RaisedOperation(s, i).stream[i].started
  {
  }

  /** Marking: the rows say that the job is being worked on, before its operation runs. */
  lemma MarkingOutcome(s: State, i: nat)
    requires Healthy(s, i) && Running(s, i)
    ensures Enabled(s, Advance(i)) && Enabled(Apply(s, Advance(i)), Advance(i))
    ensures var job := s.stream[i].payload.job;
      var t := Apply(Apply(s, Advance(i)), Advance(i));
      && t.stream == s.stream[i := s.stream[i].(pc := DocMarked)]
      && t.jobs == s.jobs[job.id := s.jobs[job.id].(status := JobProcessing)]
      && t.docs == s.docs[job.doc := if job.operation == Delete then Deleting else DocProcessing]
      && t.audit == s.audit && t.dead == s.dead
  {
  }

  function Last(stream: seq<Message>): Message
    requires |stream| > 0
  {
    stream[|stream| - 1]
  }

  /** A handling without failures: an ingest leaves its rows ready and succeeded, a delete leaves none of the document's
      rows; either is recorded once, and nothing is queued again. */
  ghost predicate SuccessfulAttempt(s: State, i: nat, t: State)
    requires Healthy(s, i)
  {
    var Queued(job, attempts) := s.stream[i].payload;
    && t.audit == s.audit + [Succeeded(job.id, attempts + 1)] && t.dead == s.dead
    && t.stream == s.stream[i := s.stream[i].(pc := Finished, acked := true, started := true)]
    && (job.operation == Ingest ==>
          t.docs == s.docs[job.doc := DocReady]
          && t.jobs == s.jobs[job.id := JobRow(s.jobs[job.id].doc, JobSucceeded, attempts + 1)])
    && (job.operation == Delete ==>
          t.docs == s.docs - {job.doc}
          && (forall id :: id in t.jobs <==> id in s.jobs && s.jobs[id].doc != job.doc)
          && forall id | id in t.jobs && id != job.id :: t.jobs[id] == s.jobs[id])
  }

  lemma SuccessOutcome(s: State, i: nat)
    requires Healthy(s, i)
    ensures SuccessfulAttempt(s, i, SucceededHandling(s, i))
  {
  }

  predicate Raises(fault: Fault, pc: Pc) {
    fault.RaiseAt? && fault.pc == pc
  }

  /** A dead letter, an acknowledgement and nothing else. */
  predicate OnlyRejected(s: State, i: nat, t: State)
    requires i < |s.stream|
  {
    t == s.(dead := s.dead + [BadMessage], stream := s.stream[i := s.stream[i].(pc := Finished, acked := true)])
  }

  /** An acknowledgement and nothing else. */
  predicate OnlySkipped(s: State, i: nat, t: State)
    requires i < |s.stream|
  {
    t == s.(stream := s.stream[i := s.stream[i].(pc := Finished, acked := true)])
  }

  /** The end of a handling in terms of the protocol's statements, where the fault and the rows decide it. */
  predicate HandledAs(s: State, i: nat, fault: Fault, t: State)
    requires i < |s.stream| && s.stream[i].pc == Fetched
  {
    && (s.stream[i].payload.Malformed? ==> t == Ack(Reject(s, i), i))
    && (!Raises(fault, Fetched) && DoneBefore(s, i) ==> t == Ack(s, i))
    && (!Raises(fault, Fetched) && RowMissing(s, i) ==> t == FailedHandling(SetPc(s, i, Failing), i))
    && (fault == NoFault && Healthy(s, i) ==> t == SucceededHandling(s, i))
    && (Raises(fault, DocMarked) && Healthy(s, i) ==> t == FailedHandling(RaisedOperation(s, i), i))
  }

  /** The same for the try block, which ends handled or failing. */
  predicate TriedAs(s: State, i: nat, fault: Fault, t: State)
    requires i < |s.stream| && s.stream[i].payload.Queued? && s.stream[i].pc == Fetched
  {
    && (!Raises(fault, Fetched) && DoneBefore(s, i) ==> t == Ack(s, i))
    && (!Raises(fault, Fetched) && RowMissing(s, i) ==> t == SetPc(s, i, Failing))
    && (fault == NoFault && Healthy(s, i) ==> t == SucceededHandling(s, i))
    && (Raises(fault, DocMarked) && Healthy(s, i) ==> t == RaisedOperation(s, i))
  }

  lemma SucceededPc(s: State, i: nat)
    requires Healthy(s, i)
    ensures i < |SucceededHandling(s, i).stream| && SucceededHandling(s, i).stream[i].pc == Finished
  {
    SuccessOutcome(s, i);
  }

  /** The failure path, when the try block has raised. */
  function Resolved(t: State, i: nat): State
    requires i < |t.stream| && (t.stream[i].pc == Failing ==> t.stream[i].payload.Queued?)
  {
    if t.stream[i].pc == Failing then FailedHandling(t, i) else t
  }

  lemma TriedThenHandled(s: State, i: nat, fault: Fault, t: State)
    requires i < |s.stream| && s.stream[i].payload.Queued? && s.stream[i].pc == Fetched && TriedAs(s, i, fault, t)
    requires i < |t.stream| && (t.stream[i].pc == Failing ==> t.stream[i].payload.Queued?)
    ensures HandledAs(s, i, fault, Resolved(t, i))
  {
    if Healthy(s, i) { SucceededPc(s, i); }
  }

  /** What that comes to in the rows, the streams and the audit log. */
  lemma HandlingMeans(s: State, i: nat, fault: Fault, t: State)
    requires i < |s.stream| && s.stream[i].pc == Fetched && HandledAs(s, i, fault, t)
    ensures s.stream[i].payload.Malformed? ==> OnlyRejected(s, i, t)
    ensures !Raises(fault, Fetched) && DoneBefore(s, i) ==> OnlySkipped(s, i, t)
    ensures !Raises(fault, Fetched) && RowMissing(s, i) ==>
      FailedAttempt(s, i, t) && t.stream[i].started == s.stream[i].started
    ensures fault == NoFault && Healthy(s, i) ==> SuccessfulAttempt(s, i, t)
    ensures Raises(fault, DocMarked) && Healthy(s, i) ==> FailedAttempt(s, i, t) && t.stream[i].started
  {
    if RowMissing(s, i) { FailureFrom(s, SetPc(s, i, Failing), i); }
    if Healthy(s, i) { HealthyMeans(s, i); }
  }

  lemma HealthyMeans(s: State, i: nat)
    requires Healthy(s, i)
    ensures SuccessfulAttempt(s, i, SucceededHandling(s, i))
    ensures var t := FailedHandling(RaisedOperation(s, i), i); FailedAttempt(s, i, t) && t.stream[i].started
  {
    SuccessOutcome(s, i);
    RaisedAlike(s, i);
    FailureFrom(s, RaisedOperation(s, i), i);
  }

  /** Message `i` of `t` is acknowledged, has failed, or is at `next`. */
  predicate LeftAt(t: State, i: nat, next: Pc) {
    && i < |t.stream| && t.stream[i].payload.Queued?
    && ((t.stream[i].pc == Finished && t.stream[i].acked)
        || (Running(t, i) && (t.stream[i].pc == Failing || t.stream[i].pc == next)))
  }

  lemma BeginLeaves(s: State, i: nat)
    requires Running(s, i) && s.stream[i].payload.Queued? && s.stream[i].pc == Fetched
    ensures LeftAt(Begin(s, i), i, JobMarked)
  {
  }

  lemma CommitLeaves(s: State, i: nat)
    requires Running(s, i) && s.stream[i].payload.Queued? && s.stream[i].pc == Operated
    ensures LeftAt(Commit(s, i), i, Committed)
  {
  }

  /** Where a statement of the try block leaves its message. */
  lemma StatementLeaves(s: State, i: nat)
    requires Running(s, i) && s.stream[i].payload.Queued? && InTryBlock(s.stream[i].pc)
    ensures LeftAt(Advanced(s, i), i, NextStatement(s.stream[i].pc))
  {
    match s.stream[i].pc
    case Fetched => BeginLeaves(s, i);
    case Operated => CommitLeaves(s, i);
    case _ =>
  }

  /** With both rows there, the operation and the commit go through. */
  lemma RowsSuffice(s: State, i: nat)
    requires Running(s, i) && s.stream[i].payload.Queued? && s.stream[i].pc == DocMarked
    requires s.stream[i].payload.job.id in s.jobs && s.stream[i].payload.job.doc in s.docs
    ensures var t := Operate(s, i);
      && Running(t, i) && t.stream[i].payload.Queued? && t.stream[i].pc == Operated
      && Running(Commit(t, i), i) && Commit(t, i).stream[i].payload.Queued? && Commit(t, i).stream[i].pc == Committed
  {
  }

  class Stores {
    const maxAttempts: nat
    var stream: seq<Message>
    var dead: seq<DeadLetter>
    var audit: seq<Event>
    var jobs: map<JobId, JobRow>
    var docs: map<DocId, DocStatus>
    var requested: set<Job>
    var refused: set<FailedRequest>
    var usedIds: set<JobId>
    var down: set<WorkerId>

    constructor (maxAttempts: nat)
      ensures Snapshot() == Init(maxAttempts)
    {
      this.maxAttempts := maxAttempts;
      stream, dead, audit, jobs, docs := [], [], [], map[], map[];
      requested, refused, usedIds, down := {}, {}, {}, {};
    }

    function Snapshot(): State
      reads this
    {
      State(maxAttempts, stream, dead, audit, jobs, docs, requested, refused, usedIds, down)
    }

    /** The message is delivered to a live worker and carries a job. */
    predicate Handling(i: nat, pc: Pc)
      reads this
    {
      Running(Snapshot(), i) && stream[i].payload.Queued? && stream[i].pc == pc
    }

    /** The message has been handled and acknowledged. */
    predicate Handled(i: nat)
      reads this
    {
      i < |stream| && stream[i].pc == Finished && stream[i].acked
    }

    method Mark(i: nat, pc: Pc)
      requires i < |stream|
      modifies this`stream
      ensures Snapshot() == SetPc(old(Snapshot()), i, pc)
    {
      stream := stream[i := stream[i].(pc := pc)];
    }

    method Acknowledge(i: nat)
      requires i < |stream|
      modifies this`stream
      ensures Snapshot() == Ack(old(Snapshot()), i)
    {
      stream := stream[i := stream[i].(pc := Finished, acked := true)];
    }

    method Raise(i: nat, acked: bool)
      requires i < |stream|
      modifies this`stream
      ensures Snapshot() == Raised(old(Snapshot()), i, acked)
    {
      var m := stream[i];
      stream := stream[i := m.(pc := Failing, acked := m.acked || acked, started := m.started || m.pc == DocMarked)];
    }

    method WriteJob(id: JobId, status: JobStatus, attempts: Option<nat>)
      modifies this`jobs
      ensures Snapshot() == old(Snapshot()).(jobs := UpdateJob(old(jobs), id, status, attempts))
    {
      if id in jobs {
        var row := jobs[id].(status := status);
        jobs := jobs[id := if attempts.Some? then row.(attempts := attempts.value) else row];
      }
    }

    method WriteDocument(doc: DocId, status: DocStatus)
      modifies this`docs
      ensures Snapshot() == old(Snapshot()).(docs := UpdateDocument(old(docs), doc, status))
    {
      if doc in docs {
        docs := docs[doc := status];
      }
    }

    method BeginJob(i: nat)
      requires Handling(i, Fetched)
      modifies this
      ensures Snapshot() == Begin(old(Snapshot()), i)
    {
      var job := stream[i].payload.job;
      if job.id !in jobs {
        Mark(i, Failing);
      } else if jobs[job.id].status == JobSucceeded {
        Acknowledge(i);
      } else if job.doc !in docs {
        Mark(i, Failing);
      } else {
        WriteJob(job.id, JobProcessing, None);
        Mark(i, JobMarked);
      }
    }

    method BeginDocument(i: nat)
      requires Handling(i, JobMarked)
      modifies this
      ensures Snapshot() == JobQueue.MarkDocument(old(Snapshot()), i)
    {
      var job := stream[i].payload.job;
      WriteDocument(job.doc, if job.operation == Delete then Deleting else DocProcessing);
      Mark(i, DocMarked);
    }

    method RunOperation(i: nat)
      requires Handling(i, DocMarked)
      modifies this
      ensures Snapshot() == Operate(old(Snapshot()), i)
    {
      var job := stream[i].payload.job;
      if job.operation == Ingest {
        WriteDocument(job.doc, DocReady);
      }
      stream := stream[i := stream[i].(pc := Operated, started := true)];
    }

    method CommitSuccess(i: nat)
      requires Handling(i, Operated)
      modifies this
      ensures Snapshot() == Commit(old(Snapshot()), i)
    {
      var Queued(job, attempts) := stream[i].payload;
      if job.id !in jobs {
        Mark(i, Failing);
        return;
      }
      if job.operation == Delete {
        if job.doc !in docs {
          Mark(i, Failing);
          return;
        }
        docs := docs - {job.doc};
        jobs := map id | id in jobs && jobs[id].doc != job.doc :: jobs[id];
      } else {
        WriteJob(job.id, JobSucceeded, Some(attempts + 1));
      }
      audit := audit + [Succeeded(job.id, attempts + 1)];
      Mark(i, Committed);
    }

    // ---------- the failure path ----------

    method FailJobRow(i: nat, ghost s0: State, ghost run: seq<Step>) returns (ghost r: seq<Step>)
      requires Handling(i, Failing) && Reached(s0, run, Snapshot())
      modifies this
      ensures Snapshot() == old(FailJob(Snapshot(), i))
      ensures Handling(i, JobFailed) && Reached(s0, r, Snapshot())
    {
      var Queued(job, attempts) := stream[i].payload;
      ghost var was := Snapshot();
      WriteJob(job.id, if attempts + 1 >= maxAttempts then JobFailedStatus else JobQueued, Some(attempts + 1));
      Mark(i, JobFailed);
      assert Snapshot() == FailJob(was, i);
      r := run + [Advance(i)];
      RunExtend(s0, run, Advance(i));
    }

    method FailDocumentRow(i: nat, ghost s0: State, ghost run: seq<Step>) returns (ghost r: seq<Step>)
      requires Handling(i, JobFailed) && Reached(s0, run, Snapshot())
      modifies this
      ensures Snapshot() == old(FailDocument(Snapshot(), i))
      ensures Handling(i, DocFailed) && Reached(s0, r, Snapshot())
    {
      var Queued(job, attempts) := stream[i].payload;
      ghost var was := Snapshot();
      WriteDocument(job.doc,
        if attempts + 1 >= maxAttempts then if job.operation == Delete then DeleteFailed else DocFailedStatus
        else if job.operation == Delete then DeleteQueued else DocQueued);
      Mark(i, DocFailed);
      assert Snapshot() == FailDocument(was, i);
      r := run + [Advance(i)];
      RunExtend(s0, run, Advance(i));
    }

    /** The retry or the dead letter. */
    method HandOverJob(i: nat, ghost s0: State, ghost run: seq<Step>) returns (ghost r: seq<Step>)
      requires Handling(i, DocFailed) && Reached(s0, run, Snapshot())
      modifies this
      ensures Snapshot() == old(HandOver(Snapshot(), i))
      ensures Handling(i, HandedOver) && Reached(s0, r, Snapshot())
    {
      var Queued(job, attempts) := stream[i].payload;
      ghost var was := Snapshot();
      Mark(i, HandedOver);
      if attempts + 1 >= maxAttempts {
        dead := dead + [Exhausted(job.id, attempts + 1)];
      } else {
        stream := stream + [NewMessage(Queued(job, attempts + 1))];
      }
      assert Snapshot() == HandOver(was, i);
      r := run + [Advance(i)];
      RunExtend(s0, run, Advance(i));
    }

    method AuditFailure(i: nat, ghost s0: State, ghost run: seq<Step>) returns (ghost r: seq<Step>)
      requires Handling(i, HandedOver) && Reached(s0, run, Snapshot())
      modifies this
      ensures Snapshot() == old(JobQueue.RecordFailure(Snapshot(), i))
      ensures Handling(i, Recorded) && Reached(s0, r, Snapshot())
    {
      var Queued(job, attempts) := stream[i].payload;
      ghost var was := Snapshot();
      audit := audit + [AttemptFailed(job.id, attempts + 1, attempts + 1 < maxAttempts)];
      Mark(i, Recorded);
      assert Snapshot() == JobQueue.RecordFailure(was, i);
      r := run + [Advance(i)];
      RunExtend(s0, run, Advance(i));
    }

    method AckMessage(i: nat, ghost s0: State, ghost run: seq<Step>) returns (ghost r: seq<Step>)
      requires Running(Snapshot(), i) && Reached(s0, run, Snapshot())
      requires stream[i].pc == Recorded || stream[i].pc == Rejected
      modifies this
      ensures Snapshot() == old(Ack(Snapshot(), i))
      ensures Handled(i) && Reached(s0, r, Snapshot())
    {
      ghost var was := Snapshot();
      Acknowledge(i);
      assert Snapshot() == Ack(was, i);
      r := run + [Advance(i)];
      RunExtend(s0, run, Advance(i));
    }

    /** `_record_failure`: both rows, then retry or dead letter, then the audit event, then the acknowledgement. */
    method RecordFailure(i: nat, ghost s0: State, ghost run: seq<Step>) returns (ghost r: seq<Step>)
      requires Handling(i, Failing) && Reached(s0, run, Snapshot())
      modifies this
      ensures Snapshot() == old(FailedHandling(Snapshot(), i))
      ensures Handled(i) && Reached(s0, r, Snapshot())
    {
      r := FailJobRow(i, s0, run);
      r := FailDocumentRow(i, s0, r);
      r := HandOverJob(i, s0, r);
      r := AuditFailure(i, s0, r);
      r := AckMessage(i, s0, r);
    }

    // ---------- the whole handler ----------

    /** A message that does not decode: dead letter, then acknowledgement. */
    method RejectMessage(i: nat, ghost s0: State, ghost run: seq<Step>) returns (ghost r: seq<Step>)
      requires Running(Snapshot(), i) && Reached(s0, run, Snapshot())
      requires stream[i].payload.Malformed? && stream[i].pc == Fetched
      modifies this
      ensures Handled(i) && Reached(s0, r, Snapshot())
      ensures Snapshot() == old(Ack(Reject(Snapshot(), i), i))
    {
      ghost var was := Snapshot();
      dead := dead + [BadMessage];
      Mark(i, Rejected);
      assert Snapshot() == Reject(was, i);
      RunExtend(s0, run, Advance(i));
      r := AckMessage(i, s0, run + [Advance(i)]);
    }

    method RaiseFault(i: nat, acked: bool, ghost s0: State, ghost run: seq<Step>) returns (ghost r: seq<Step>)
      requires i < |stream| && InTryBlock(stream[i].pc) && Handling(i, stream[i].pc)
      requires Reached(s0, run, Snapshot())
      modifies this
      ensures Snapshot() == old(Raised(Snapshot(), i, acked && MayAck(Snapshot(), stream[i])))
      ensures Handling(i, Failing) && Reached(s0, r, Snapshot())
    {
      var tookEffect := acked && MayAck(Snapshot(), stream[i]);
      Raise(i, tookEffect);
      RunExtend(s0, run, JobQueue.Raise(i, tookEffect));
      r := run + [JobQueue.Raise(i, tookEffect)];
    }

    /** One statement of the try block. */
    method Statement(i: nat, ghost s0: State, ghost run: seq<Step>) returns (ghost r: seq<Step>)
      requires i < |stream| && InTryBlock(stream[i].pc) && Handling(i, stream[i].pc)
      requires Reached(s0, run, Snapshot())
      modifies this
      ensures Reached(s0, r, Snapshot())
      ensures Snapshot() == old(Advanced(Snapshot(), i))
      ensures Handled(i) || Handling(i, Failing) || Handling(i, NextStatement(old(stream[i].pc)))
    {
      RunExtend(s0, run, Advance(i));
      StatementLeaves(Snapshot(), i);
      r := run + [Advance(i)];
      match stream[i].pc {
        case Fetched => BeginJob(i);
        case JobMarked => BeginDocument(i);
        case DocMarked => RunOperation(i);
        case Operated => CommitSuccess(i);
        case Committed => Acknowledge(i);
      }
    }

    /** A statement, or the exception raised in its place. */
    method Try(i: nat, fault: Fault, ghost s0: State, ghost run: seq<Step>) returns (ghost r: seq<Step>)
      requires i < |stream| && InTryBlock(stream[i].pc) && Handling(i, stream[i].pc)
      requires Reached(s0, run, Snapshot())
      modifies this
      ensures Reached(s0, r, Snapshot())
      ensures Snapshot() == old(if fault.RaiseAt? && fault.pc == stream[i].pc
        then Raised(Snapshot(), i, fault.acked && MayAck(Snapshot(), stream[i])) else Advanced(Snapshot(), i))
      ensures Handled(i) || Handling(i, Failing) || Handling(i, NextStatement(old(stream[i].pc)))
    {
      if fault.RaiseAt? && fault.pc == stream[i].pc {
        r := RaiseFault(i, fault.acked, s0, run);
      } else {
        r := Statement(i, s0, run);
      }
    }

    /** The statements up to the operation. */
    method MarkRows(i: nat, fault: Fault) returns (ghost r: seq<Step>)
      requires Handling(i, Fetched)
      modifies this
      ensures Reached(old(Snapshot()), r, Snapshot()) && (Handled(i) || Handling(i, Failing) || Handling(i, DocMarked))
      ensures (fault == NoFault || fault.pc == DocMarked) && old(Healthy(Snapshot(), i)) ==>
        Handling(i, DocMarked) && Snapshot() == old(JobQueue.MarkDocument(Begin(Snapshot(), i), i))
      ensures !Raises(fault, Fetched) && old(RowMissing(Snapshot(), i)) ==>
        Handling(i, Failing) && Snapshot() == old(SetPc(Snapshot(), i, Failing))
      ensures !Raises(fault, Fetched) && old(DoneBefore(Snapshot(), i)) ==>
        Handled(i) && Snapshot() == old(Ack(Snapshot(), i))
    {
      ghost var s0 := Snapshot();
      r := Try(i, fault, s0, []);
      if Handling(i, JobMarked) {
        r := Try(i, fault, s0, r);
      }
    }

    /** The operation and what follows it in the try block. */
    method OperateAndCommit(i: nat, fault: Fault, ghost s0: State, ghost run: seq<Step>) returns (ghost r: seq<Step>)
      requires Handling(i, DocMarked) && Reached(s0, run, Snapshot())
      modifies this
      ensures Reached(s0, r, Snapshot()) && (Handled(i) || Handling(i, Failing))
      ensures fault == NoFault && old(stream[i].payload.job.id in jobs && stream[i].payload.job.doc in docs) ==>
        Snapshot() == old(Ack(Commit(Operate(Snapshot(), i), i), i))
      ensures fault.RaiseAt? && fault.pc == DocMarked ==> Handling(i, Failing) && Snapshot() == old(Raised(Snapshot(), i, false))
    {
      ghost var s := Snapshot();
      if stream[i].payload.job.id in jobs && stream[i].payload.job.doc in docs { RowsSuffice(s, i); }
      r := Try(i, fault, s0, run);
      if Handling(i, Operated) {
        r := Try(i, fault, s0, r);
      }
      if Handling(i, Committed) {
        r := Try(i, fault, s0, r);
      }
    }

    /** The try block: the statements in turn until one ends the handling or raises. */
    method TryBlock(i: nat, fault: Fault) returns (ghost r: seq<Step>)
      requires Handling(i, Fetched)
      modifies this
      ensures Reached(old(Snapshot()), r, Snapshot()) && (Handled(i) || Handling(i, Failing))
      ensures TriedAs(old(Snapshot()), i, fault, Snapshot())
    {
      ghost var s0 := Snapshot();
      r := MarkRows(i, fault);
      if Handling(i, DocMarked) {
        r := OperateAndCommit(i, fault, s0, r);
      }
    }

    /** The handler, in terms of the protocol's statements. */
    method HandleMessage(i: nat, fault: Fault) returns (ghost r: seq<Step>)
      requires Running(Snapshot(), i) && stream[i].pc == Fetched
      modifies this
      ensures Handled(i) && Reached(old(Snapshot()), r, Snapshot())
      ensures HandledAs(old(Snapshot()), i, fault, Snapshot())
    {
      ghost var s0 := Snapshot();
      if stream[i].payload.Malformed? {
        r := RejectMessage(i, s0, []);
        return;
      }
      r := TryBlock(i, fault);
      TriedThenHandled(s0, i, fault, Snapshot());
      if Handling(i, Failing) {
        r := RecordFailure(i, s0, r);
      }
    }

    /**
     * `process_message`, with an exception at a place of the environment's choosing: it always ends with the
     * message acknowledged, and what it did is a run of the protocol. An undecodable message only leaves a dead letter
     * and one whose job has succeeded leaves nothing; one whose rows are missing fails without its operation having
     * started; and otherwise the attempt succeeds, or fails where its operation raises.
     */
    method ProcessMessage(i: nat, fault: Fault) returns (ghost r: seq<Step>)
      requires Running(Snapshot(), i) && stream[i].pc == Fetched
      modifies this
      ensures Handled(i) && Reached(old(Snapshot()), r, Snapshot())
      ensures old(stream[i].payload.Malformed?) ==> OnlyRejected(old(Snapshot()), i, Snapshot())
      ensures !Raises(fault, Fetched) && old(DoneBefore(Snapshot(), i)) ==> OnlySkipped(old(Snapshot()), i, Snapshot())
      ensures !Raises(fault, Fetched) && old(RowMissing(Snapshot(), i)) ==>
        FailedAttempt(old(Snapshot()), i, Snapshot()) && stream[i].started == old(stream[i].started)
      ensures fault == NoFault && old(Healthy(Snapshot(), i)) ==> SuccessfulAttempt(old(Snapshot()), i, Snapshot())
      ensures Raises(fault, DocMarked) && old(Healthy(Snapshot(), i)) ==>
        FailedAttempt(old(Snapshot()), i, Snapshot()) && stream[i].started
    {
      ghost var s0 := Snapshot();
      r := HandleMessage(i, fault);
      HandlingMeans(s0, i, fault, Snapshot());
    }

    // ---------- the request side ----------

    /** `create_job_with_audit`. */
    method CreateJob(job: Job)
      requires Enabled(Snapshot(), Request(job))
      modifies this
      ensures Snapshot() == old(Apply(Snapshot(), Request(job)))
    {
      jobs := jobs[job.id := JobRow(job.doc, JobQueued, 0)];
      audit := audit + [Requested(job.id)];
      requested, usedIds := requested + {job}, usedIds + {job.id};
    }

    /** The append raised, having taken effect or not. */
    method RefuseRequest(job: Job, applied: bool, ghost s0: State, ghost run: seq<Step>) returns (ghost r: seq<Step>)
      requires job in requested && Reached(s0, run, Snapshot())
      modifies this
      ensures Snapshot() == old(Apply(Snapshot(), EnqueueRaises(job, applied)))
      ensures Reached(s0, r, Snapshot())
    {
      RunExtend(s0, run, EnqueueRaises(job, applied));
      r := run + [EnqueueRaises(job, applied)];
      if applied {
        stream := stream + [NewMessage(Queued(job, 0))];
      }
      requested, refused := requested - {job}, refused + {FailedRequest(job, RowNext)};
    }

    /** The next commit for a request whose append raised. */
    method CommitRefusal(f: FailedRequest, ghost s0: State, ghost run: seq<Step>) returns (ghost r: seq<Step>)
      requires f in refused && Reached(s0, run, Snapshot())
      modifies this
      ensures Snapshot() == old(RefusedOnce(Snapshot(), f))
      ensures Reached(s0, r, Snapshot())
    {
      RunExtend(s0, run, FailRequest(f));
      r := run + [FailRequest(f)];
      refused := refused - {f};
      match f.next {
        case RowNext =>
          WriteJob(f.job.id, JobFailedStatus, None);
          refused := refused + {f.(next := DocNext)};
        case DocNext =>
          WriteDocument(f.job.doc, if f.job.operation == Delete then DeleteFailed else DocFailedStatus);
          refused := refused + {f.(next := EventNext)};
        case EventNext =>
          audit := audit + [EnqueueFailed(f.job.id)];
      }
    }

    /** An append that raised, with all that follows it when nobody interferes. */
    method RefuseJob(job: Job, applied: bool, ghost s0: State, ghost run: seq<Step>) returns (ghost r: seq<Step>)
      requires job in requested && Reached(s0, run, Snapshot())
      modifies this
      ensures Reached(s0, r, Snapshot())
      ensures stream == old(stream) + if applied then [NewMessage(Queued(job, 0))] else []
      ensures audit == old(audit) + [EnqueueFailed(job.id)]
      ensures jobs == UpdateJob(old(jobs), job.id, JobFailedStatus, None)
      ensures docs == UpdateDocument(old(docs), job.doc, if job.operation == Delete then DeleteFailed else DocFailedStatus)
    {
      r := RefuseRequest(job, applied, s0, run);
      r := CommitRefusal(FailedRequest(job, RowNext), s0, r);
      r := CommitRefusal(FailedRequest(job, DocNext), s0, r);
      r := CommitRefusal(FailedRequest(job, EventNext), s0, r);
    }

    /**
     * `_queue_document_job`: the job row and its audit event are committed before the message is appended. If the
     * append raises, three commits follow: the rows say failed and the failure is recorded, whether or not the message
     * is in the stream.
     */
    method QueueDocumentJob(job: Job, fault: Option<bool>) returns (ok: bool, ghost r: seq<Step>)
      requires Enabled(Snapshot(), Request(job))
      modifies this
      ensures ok == fault.None?
      ensures Reached(old(Snapshot()), r, Snapshot())
      ensures stream == old(stream) + if ok || fault.value then [NewMessage(Queued(job, 0))] else []
      ensures audit == old(audit) + if ok then [Requested(job.id)] else [Requested(job.id), EnqueueFailed(job.id)]
      ensures jobs == old(jobs)[job.id := JobRow(job.doc, if ok then JobQueued else JobFailedStatus, 0)]
      ensures docs == if ok then old(docs)
        else old(docs)[job.doc := if job.operation == Delete then DeleteFailed else DocFailedStatus]
    {
      ghost var s0 := Snapshot();
      CreateJob(job);
      RunExtend(s0, [], Request(job));
      r := [] + [Request(job)];
      ok := fault.None?;
      if ok {
        RunExtend(s0, r, Enqueue(job));
        r := r + [Enqueue(job)];
        stream, requested := stream + [NewMessage(Queued(job, 0))], requested - {job};
      } else {
        r := RefuseJob(job, fault.value, s0, r);
      }
    }
  }
}
