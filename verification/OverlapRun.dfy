/**
 * A delete that runs between two batches of an ingest of the same document: the ingest is recorded as succeeded, and
 * the chunks it stored before the delete are gone.
 */
module OverlapRun {
  import opened Wrappers
  import opened Sequences
  import opened ChunkIds
  import opened EndToEnd
  import opened JobQueue
  import Safety = JobSafety
  import Index = DualIndex
  import Convergence = DualConvergence

  type World = EndToEnd.World
  type Job = JobQueue.Job

  // ---------- runs in pieces ----------

  ghost predicate Leads(plans: Plans, w: World, moves: seq<Move>, v: World) {
    EndToEnd.Runs(plans, w, moves) && EndToEnd.After(plans, w, moves) == v
  }

  lemma {:induction false} LeadsOn(plans: Plans, w: World, a: seq<Move>, v: World, b: seq<Move>, u: World)
    requires Leads(plans, w, a, v) && Leads(plans, v, b, u)
    ensures Leads(plans, w, a + b, u)
    decreases |a|
  {
    if a == [] {
      assert a + b == b;
    } else {
      LeadsOn(plans, EndToEnd.Apply(plans, w, a[0]), a[1..], v, b, u);
      assert (a + b)[1..] == a[1..] + b;
    }
  }

  lemma OneMove(plans: Plans, w: World, move: Move)
    requires Legal(plans, w, move)
    ensures Leads(plans, w, [move], EndToEnd.Apply(plans, w, move))
  {
    assert [move][1..] == [];
    assert EndToEnd.Runs(plans, EndToEnd.Apply(plans, w, move), []);
  }

  /** One move more. */
  lemma Then(plans: Plans, w: World, moves: seq<Move>, v: World, move: Move)
    requires Leads(plans, w, moves, v) && Legal(plans, v, move)
    ensures Leads(plans, w, moves + [move], EndToEnd.Apply(plans, v, move))
  {
    OneMove(plans, v, move);
    LeadsOn(plans, w, moves, v, [move], EndToEnd.Apply(plans, v, move));
  }

  /** No effect on the indexes. */
  const NOTHING := Effect(Index.Partial({}), Index.Partial({}), Index.Aborted({}), Index.Aborted({}))

  /** A new job is requested and its message appended. */
  lemma QueueJob(plans: Plans, w0: World, before: seq<Move>, w: World, job: Job) returns (moves: seq<Move>, v: World)
    requires Leads(plans, w0, before, w)
    requires job.operation == plans(job.id).operation && job.id !in w.queue.usedIds && job.doc in w.queue.docs
    ensures Leads(plans, w0, moves, v) && v.log == w.log
    ensures v.queue.stream == w.queue.stream + [NewMessage(Queued(job, 0))]
    ensures v.queue.jobs == w.queue.jobs[job.id := JobRow(job.doc, JobQueued, 0)] && v.queue.docs == w.queue.docs
    ensures v.queue.usedIds == w.queue.usedIds + {job.id} && v.queue.down == w.queue.down
    ensures v.queue.audit == w.queue.audit + [Requested(job.id)]
  {
    var request, enqueue := Take(Request(job), NOTHING), Take(Enqueue(job), NOTHING);
    Then(plans, w0, before, w, request);
    var u := EndToEnd.Apply(plans, w, request);
    Then(plans, w0, before + [request], u, enqueue);
    moves, v := before + [request] + [enqueue], EndToEnd.Apply(plans, u, enqueue);
  }

  /** The newest message is the only one waiting, and its rows are there. */
  predicate NextToRun(s: JobQueue.State, i: nat, worker: WorkerId) {
    && i + 1 == |s.stream| && s.stream[i].payload.Queued? && s.stream[i].pc == Ready && Idle(s, worker)
    && (forall k | 0 <= k < i :: s.stream[k].pc != Ready)
    && s.stream[i].payload.job.doc in s.docs
    && s.stream[i].payload.job.id in s.jobs && s.jobs[s.stream[i].payload.job.id].status != JobSucceeded
  }

  /** A worker takes the message and sets both rows; its operation runs next. */
  lemma StartJob(plans: Plans, w0: World, before: seq<Move>, w: World, i: nat, worker: WorkerId)
    returns (moves: seq<Move>, v: World)
    requires Leads(plans, w0, before, w) && NextToRun(w.queue, i, worker)
    ensures Leads(plans, w0, moves, v) && v.log == w.log
    ensures v.queue.stream == w.queue.stream[i := w.queue.stream[i].(pc := DocMarked, owner := Some(worker))]
    ensures v.queue.jobs.Keys == w.queue.jobs.Keys && v.queue.docs.Keys == w.queue.docs.Keys
    ensures v.queue.usedIds == w.queue.usedIds && v.queue.down == w.queue.down && v.queue.audit == w.queue.audit
  {
    var read, advance := Take(Read(worker, i), NOTHING), Take(Advance(i), NOTHING);
    Then(plans, w0, before, w, read);
    var u1 := EndToEnd.Apply(plans, w, read);
    assert u1.queue.stream == w.queue.stream[i := w.queue.stream[i].(pc := Fetched, owner := Some(worker))];
    Then(plans, w0, before + [read], u1, advance);
    var u2 := EndToEnd.Apply(plans, u1, advance);
    assert u2.queue.stream == w.queue.stream[i := w.queue.stream[i].(pc := JobMarked, owner := Some(worker))];
    Then(plans, w0, before + [read] + [advance], u2, advance);
    moves, v := before + [read] + [advance] + [advance], EndToEnd.Apply(plans, u2, advance);
  }

  predicate AtOperation(s: JobQueue.State, i: nat) {
    && Running(s, i) && s.stream[i].payload.Queued? && s.stream[i].pc == DocMarked
    && s.stream[i].payload.job.operation == Ingest && s.stream[i].payload.job.id in s.jobs
  }

  /** The operation of an ingest returns and its success is committed. */
  lemma FinishIngest(plans: Plans, w0: World, before: seq<Move>, w: World, i: nat, e: Effect)
    returns (moves: seq<Move>, v: World)
    requires Leads(plans, w0, before, w) && AtOperation(w.queue, i)
    requires Completes(w.log, i, PlanOf(plans, w.queue, i), e)
    ensures Leads(plans, w0, moves, v) && v.log == w.log + [Entry(i, Piece(PlanOf(plans, w.queue, i), e))]
    ensures v.queue.stream == w.queue.stream[i := w.queue.stream[i].(pc := Committed, started := true)]
    ensures v.queue.docs.Keys == w.queue.docs.Keys
    ensures v.queue.usedIds == w.queue.usedIds && v.queue.down == w.queue.down
    ensures v.queue.audit == w.queue.audit
      + [Succeeded(w.queue.stream[i].payload.job.id, w.queue.stream[i].payload.attempts + 1)]
  {
    var operate, commit := Take(Advance(i), e), Take(Advance(i), NOTHING);
    Then(plans, w0, before, w, operate);
    var u := EndToEnd.Apply(plans, w, operate);
    assert u.queue.stream == w.queue.stream[i := w.queue.stream[i].(pc := Operated, started := true)];
    Then(plans, w0, before + [operate], u, commit);
    moves, v := before + [operate] + [commit], EndToEnd.Apply(plans, u, commit);
  }

  // ---------- the run ----------

  /** Jobs 0 and 1 ingest the document, every other job deletes it. */
  function OverlapPlans(doc: Doc): Plans {
    (id: JobId) => if id <= 1 then Plan(doc, Index.MilvusOnly, Ingest) else Plan(doc, Index.Both, Delete)
  }

  const FIRST: Job := JobQueue.Job(0, 0, Ingest)
  const AGAIN: Job := JobQueue.Job(1, 0, Ingest)
  const REMOVAL: Job := JobQueue.Job(2, 0, Delete)

  const WHOLE := NOTHING.(milvus := Index.Complete)
  const BATCH := NOTHING.(milvus := Index.Partial({0}))
  const CLEARING := NOTHING.(fromMilvus := Index.Removed, fromNeo4j := Index.Removed)

  function Below(n: nat): (r: set<nat>)
    ensures forall pos: nat :: pos in r <==> pos < n
  {
    if n == 0 then {} else Below(n - 1) + {n - 1}
  }

  /** All positions but the first. */
  function Rest(doc: Doc): Effect {
    NOTHING.(milvus := Index.Partial(Below(|doc.texts|) - {0}))
  }

  lemma WholeCompletes(doc: Doc)
    requires doc.texts != []
    ensures Completes([], 0, Plan(doc, Index.MilvusOnly, Ingest), WHOLE)
  {
  }

  /** A document is added, and a worker is about to ingest it. */
  lemma FirstAtOperation(doc: Doc, maxAttempts: nat) returns (moves: seq<Move>, v: World)
    ensures Leads(OverlapPlans(doc), Start(maxAttempts), moves, v) && v.log == []
    ensures v.queue.stream == [Message(Queued(FIRST, 0), DocMarked, false, false, Some(0))]
    ensures v.queue.docs.Keys == {0} && v.queue.jobs.Keys == {0} && v.queue.usedIds == {0} && v.queue.down == {}
  {
    var plans, w0 := OverlapPlans(doc), Start(maxAttempts);
    var add := Take(AddDocument(0), NOTHING);
    OneMove(plans, w0, add);
    moves, v := QueueJob(plans, w0, [add], EndToEnd.Apply(plans, w0, add), FIRST);
    moves, v := StartJob(plans, w0, moves, v, 0, 0);
  }

  /** It is ingested and recorded, and the message is acknowledged. */
  lemma IngestedBefore(doc: Doc, maxAttempts: nat) returns (moves: seq<Move>, v: World)
    requires doc.texts != []
    ensures Leads(OverlapPlans(doc), Start(maxAttempts), moves, v)
    ensures v.log == [Entry(0, Piece(Plan(doc, Index.MilvusOnly, Ingest), WHOLE))]
    ensures |v.queue.stream| == 1 && v.queue.stream[0].pc == Finished
    ensures v.queue.docs.Keys == {0} && v.queue.usedIds == {0} && v.queue.down == {}
  {
    var plans, w0 := OverlapPlans(doc), Start(maxAttempts);
    moves, v := FirstAtOperation(doc, maxAttempts);
    WholeCompletes(doc);
    moves, v := FinishIngest(plans, w0, moves, v, 0, WHOLE);
    moves, v := Acknowledge(plans, w0, moves, v, 0);
  }

  lemma Acknowledge(plans: Plans, w0: World, before: seq<Move>, w: World, i: nat) returns (moves: seq<Move>, v: World)
    requires Leads(plans, w0, before, w) && Running(w.queue, i)
    requires w.queue.stream[i].payload.Queued? && w.queue.stream[i].pc == Committed
    ensures Leads(plans, w0, moves, v) && v == w.(queue := Ack(w.queue, i))
  {
    var ack := Take(Advance(i), NOTHING);
    Then(plans, w0, before, w, ack);
    moves, v := before + [ack], EndToEnd.Apply(plans, w, ack);
  }

  /** The same worker is about to ingest it again. */
  lemma AgainAtOperation(doc: Doc, maxAttempts: nat) returns (moves: seq<Move>, v: World)
    requires doc.texts != []
    ensures Leads(OverlapPlans(doc), Start(maxAttempts), moves, v)
    ensures v.log == [Entry(0, Piece(Plan(doc, Index.MilvusOnly, Ingest), WHOLE))]
    ensures |v.queue.stream| == 2 && v.queue.stream[0].pc == Finished
    ensures v.queue.stream[1] == Message(Queued(AGAIN, 0), DocMarked, false, false, Some(0))
    ensures v.queue.docs.Keys == {0} && 1 in v.queue.jobs && v.queue.usedIds == {0, 1} && v.queue.down == {}
  {
    var plans, w0 := OverlapPlans(doc), Start(maxAttempts);
    moves, v := IngestedBefore(doc, maxAttempts);
    moves, v := QueueJob(plans, w0, moves, v, AGAIN);
    moves, v := StartJob(plans, w0, moves, v, 1, 0);
  }

  /** And another one is about to delete it. */
  lemma BothAtOperation(doc: Doc, maxAttempts: nat) returns (moves: seq<Move>, v: World)
    requires doc.texts != []
    ensures Leads(OverlapPlans(doc), Start(maxAttempts), moves, v)
    ensures v.log == [Entry(0, Piece(Plan(doc, Index.MilvusOnly, Ingest), WHOLE))]
    ensures |v.queue.stream| == 3 && v.queue.down == {} && 1 in v.queue.jobs
    ensures v.queue.stream[1] == Message(Queued(AGAIN, 0), DocMarked, false, false, Some(0))
    ensures v.queue.stream[2] == Message(Queued(REMOVAL, 0), DocMarked, false, false, Some(1))
  {
    var plans, w0 := OverlapPlans(doc), Start(maxAttempts);
    moves, v := AgainAtOperation(doc, maxAttempts);
    moves, v := QueueJob(plans, w0, moves, v, REMOVAL);
    moves, v := StartJob(plans, w0, moves, v, 2, 1);
  }

  /** The log of the run: ingest, first batch, delete, remaining batches. */
  function OverlapLog(doc: Doc): seq<Entry> {
    var p := Plan(doc, Index.MilvusOnly, Ingest);
    [Entry(0, Piece(p, WHOLE)), Entry(1, Piece(p, BATCH)),
     Entry(2, Piece(Plan(doc, Index.Both, Delete), CLEARING)), Entry(1, Piece(p, Rest(doc)))]
  }

  lemma RestCompletes(doc: Doc)
    requires |doc.texts| >= 2
    ensures Completes(OverlapLog(doc)[..3], 1, Plan(doc, Index.MilvusOnly, Ingest), Rest(doc))
  {
    var p := Plan(doc, Index.MilvusOnly, Ingest);
    var log := OverlapLog(doc)[..3];
    assert log[1].message == 1 && log[1].step == Piece(p, BATCH);
    forall backend, pos: nat | Index.Selects(p.mode, backend) && pos < |doc.texts|
      ensures Convergence.Writes(Piece(p, Rest(doc)), backend, doc, pos) <==> !WroteAt(log, 1, backend, doc, pos)
    {
      if pos == 0 { assert Convergence.Writes(log[1].step, backend, doc, pos); }
    }
  }

  lemma FirstBatchLost(doc: Doc)
    requires |doc.texts| >= 2 && doc.tenant != "" && doc.id != ""
    ensures !NothingLost(OverlapLog(doc), Index.Vector, doc)
  {
    var steps := Done(OverlapLog(doc));
    assert Convergence.Clears(steps[2], Index.Vector, doc, 0);
    assert !Convergence.Writes(steps[2], Index.Vector, doc, 0) && !Convergence.Writes(steps[3], Index.Vector, doc, 0);
    assert !Convergence.StoredSince(steps, Index.Vector, doc, 0);
  }

  /** The first batch is stored, the delete clears the document, and its worker crashes. */
  lemma DeletedInBetween(doc: Doc, maxAttempts: nat) returns (moves: seq<Move>, w: World)
    requires doc.texts != []
    ensures Leads(OverlapPlans(doc), Start(maxAttempts), moves, w)
    ensures w.log == OverlapLog(doc)[..3]
    ensures AtOperation(w.queue, 1) && w.queue.stream[1].payload == Queued(AGAIN, 0)
  {
    var plans, w0 := OverlapPlans(doc), Start(maxAttempts);
    moves, w := BothAtOperation(doc, maxAttempts);
    var touch, remove, crash := Touch(1, BATCH), Take(Advance(2), CLEARING), Take(Crash(1), NOTHING);
    Then(plans, w0, moves, w, touch);
    moves, w := moves + [touch], EndToEnd.Apply(plans, w, touch);
    Then(plans, w0, moves, w, remove);
    moves, w := moves + [remove], EndToEnd.Apply(plans, w, remove);
    Then(plans, w0, moves, w, crash);
    moves, w := moves + [crash], EndToEnd.Apply(plans, w, crash);
    assert w.log == OverlapLog(doc)[..3];
  }

  /**
   * The guarantee needs its condition. For every document of at least two chunks there is a run in which it is ingested,
   * ingested again, deleted by another worker between the first batch and the rest, and that worker crashes before its
   * commit: the second ingest is recorded as succeeded and nothing has removed the document since it returned, yet the
   * index lacks the first batch.
   */
  lemma DeleteBetweenBatches(doc: Doc, maxAttempts: nat) returns (moves: seq<Move>, w: World)
    requires |doc.texts| >= 2 && Distinguishable(doc.id, doc.version) && doc.tenant != "" && doc.id != ""
    ensures EndToEnd.Runs(OverlapPlans(doc), Start(maxAttempts), moves)
    ensures w == EndToEnd.After(OverlapPlans(doc), Start(maxAttempts), moves) && OneContent(OverlapPlans(doc), doc)
    ensures OverlapPlans(doc)(1) == Plan(doc, Index.MilvusOnly, Ingest) && Safety.Success(w.queue, 1) >= 1
    ensures w.log == OverlapLog(doc)
    ensures !Index.Exact(Index.Run(map[], Index.Vector, Done(w.log)), doc)
  {
    var plans, w0 := OverlapPlans(doc), Start(maxAttempts);
    moves, w := DeletedInBetween(doc, maxAttempts);
    RestCompletes(doc);
    moves, w := FinishIngest(plans, w0, moves, w, 1, Rest(doc));
    RecordedLast(w.queue, 1);
    LogOfRun(doc, w.log);
  }

  lemma LogOfRun(doc: Doc, log: seq<Entry>)
    requires |doc.texts| >= 2 && Distinguishable(doc.id, doc.version) && doc.tenant != "" && doc.id != ""
    requires log == OverlapLog(doc)
    ensures !Index.Exact(Index.Run(map[], Index.Vector, Done(log)), doc)
  {
    FirstBatchLost(doc);
    LogExact(log, Index.Vector, doc);
  }

  lemma RecordedLast(s: JobQueue.State, id: JobId)
    requires s.audit != [] && Safety.SuccessOf(id)(s.audit[|s.audit| - 1])
    ensures Safety.Success(s, id) >= 1
  {
    CountPositive(Safety.SuccessOf(id), s.audit);
  }
}
