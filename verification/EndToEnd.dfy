/**
 * The queue and the indexes together. An operation a worker runs writes or removes piece by piece, and operations of
 * other workers may come between any two pieces. What the audit log records as ingested was then written, every chunk
 * of it, and is still there exactly where nothing has removed it since.
 */
module EndToEnd {
  import opened Wrappers
  import opened Sequences
  import opened ChunkIds
  import Queue = JobQueue
  import Safety = JobSafety
  import Index = DualIndex
  import Convergence = DualConvergence

  /** What a job is for: fixed when it is requested, and carried by all its messages. */
  datatype Plan = Plan(doc: Doc, mode: Index.Mode, operation: Queue.Operation)

  type Plans = Queue.JobId -> Plan

  /** What one piece of an operation does to each index. */
  datatype Effect = Effect(milvus: Index.Write, neo4j: Index.Write, fromMilvus: Index.Removal, fromNeo4j: Index.Removal)

  /** A piece of the operation of a message. */
  datatype Entry = Entry(message: nat, step: Index.Step)

  /** The queue, and everything done to the indexes, in order. */
  datatype World = World(queue: Queue.State, log: seq<Entry>)

  function Done(log: seq<Entry>): seq<Index.Step> {
    seq(|log|, k requires 0 <= k < |log| => log[k].step)
  }

  function Piece(p: Plan, e: Effect): Index.Step {
    if p.operation == Queue.Ingest then Index.Ingest(p.doc, p.mode, e.milvus, e.neo4j)
    else Index.Remove(p.doc.tenant, p.doc.id, p.mode, e.fromMilvus, e.fromNeo4j)
  }

  function PlanOf(plans: Plans, s: Queue.State, i: nat): Plan
    requires i < |s.stream| && s.stream[i].payload.Queued?
  {
    plans(s.stream[i].payload.job.id)
  }

  /** Message `m` has stored the chunk at `pos` in the index, in some piece of its operation. */
  predicate WroteAt(log: seq<Entry>, m: nat, backend: Index.Backend, doc: Doc, pos: nat) {
    exists k :: 0 <= k < |log| && log[k].message == m && Convergence.Writes(log[k].step, backend, doc, pos)
  }

  /**
   * The last piece of an ingest that returns: it stores, in every store the mode selects, what the operation has not
   * stored yet. An ingest without chunks or with an unknown mode does not return.
   */
  ghost predicate Completes(log: seq<Entry>, m: nat, p: Plan, e: Effect) {
    p.operation == Queue.Ingest ==>
      && p.doc.texts != [] && p.mode != Index.Unsupported
      && forall backend, pos: nat | Index.Selects(p.mode, backend) && pos < |p.doc.texts| ::
           Convergence.Writes(Piece(p, e), backend, p.doc, pos) <==> !WroteAt(log, m, backend, p.doc, pos)
  }

  /** The step in which the operation of message `i` ends, by returning or by an exception. */
  predicate Operates(s: Queue.State, step: Queue.Step)
    requires Queue.Enabled(s, step)
  {
    (step.Advance? || step.Raise?) && s.stream[step.i].payload.Queued? && s.stream[step.i].pc == Queue.DocMarked
  }

  /**
   * A step of the protocol, or a piece of an operation under way. A crash may follow a piece, and a piece may still
   * take effect after the crash of the worker that sent it.
   */
  datatype Move = Take(step: Queue.Step, effect: Effect) | Touch(i: nat, effect: Effect)

  ghost predicate Legal(plans: Plans, w: World, move: Move) {
    match move
    case Take(step, e) =>
      && Queue.Enabled(w.queue, step)
      && (step.Request? ==> step.job.operation == plans(step.job.id).operation)
      && (step.Advance? && Operates(w.queue, step) ==> Completes(w.log, step.i, PlanOf(plans, w.queue, step.i), e))
    case Touch(i, _) =>
      i < |w.queue.stream| && w.queue.stream[i].payload.Queued? && w.queue.stream[i].pc == Queue.DocMarked
  }

  ghost function Apply(plans: Plans, w: World, move: Move): World
    requires Legal(plans, w, move)
  {
    match move
    case Take(step, e) =>
      World(Queue.Apply(w.queue, step),
        if Operates(w.queue, step) then w.log + [Entry(step.i, Piece(PlanOf(plans, w.queue, step.i), e))] else w.log)
    case Touch(i, e) => w.(log := w.log + [Entry(i, Piece(PlanOf(plans, w.queue, i), e))])
  }

  ghost predicate Runs(plans: Plans, w: World, moves: seq<Move>)
    decreases |moves|
  {
    moves == [] || (Legal(plans, w, moves[0]) && Runs(plans, Apply(plans, w, moves[0]), moves[1..]))
  }

  ghost function After(plans: Plans, w: World, moves: seq<Move>): World
    requires Runs(plans, w, moves)
    decreases |moves|
  {
    if moves == [] then w else After(plans, Apply(plans, w, moves[0]), moves[1..])
  }

  function Start(maxAttempts: nat): World {
    World(Queue.Init(maxAttempts), [])
  }

  // ---------- the invariant ----------

  /** The operation of message `m` has stored every chunk in every store its mode selects. */
  ghost predicate WroteAll(log: seq<Entry>, m: nat, p: Plan) {
    && p.doc.texts != [] && p.mode != Index.Unsupported
    && forall backend, pos: nat | Index.Selects(p.mode, backend) && pos < |p.doc.texts| :: WroteAt(log, m, backend, p.doc, pos)
  }

  predicate PastOperation(m: Queue.Message) {
    m.payload.Queued? && (m.pc == Queue.Operated || m.pc == Queue.Committed)
  }

  ghost predicate MessageOk(plans: Plans, log: seq<Entry>, i: nat, m: Queue.Message) {
    PastOperation(m) && plans(m.payload.job.id).operation == Queue.Ingest ==> WroteAll(log, i, plans(m.payload.job.id))
  }

  /** Message `m` is one of the job's, and its operation has stored everything. */
  ghost predicate Ingested(plans: Plans, w: World, id: Queue.JobId, m: nat) {
    m < |w.queue.stream| && Safety.IsOf(w.queue.stream[m], id) && WroteAll(w.log, m, plans(id))
  }

  ghost predicate EventOk(plans: Plans, w: World, e: Queue.Event) {
    e.Succeeded? && plans(e.job).operation == Queue.Ingest ==> exists m :: Ingested(plans, w, e.job, m)
  }

  ghost predicate MessagesOk(plans: Plans, w: World) {
    forall i | 0 <= i < |w.queue.stream| :: MessageOk(plans, w.log, i, w.queue.stream[i])
  }

  ghost predicate Inv(plans: Plans, w: World) {
    MessagesOk(plans, w) && forall e | e in w.queue.audit :: EventOk(plans, w, e)
  }

  lemma StaysWritten(log: seq<Entry>, more: seq<Entry>, m: nat, p: Plan)
    requires WroteAll(log, m, p)
    ensures WroteAll(log + more, m, p)
  {
    forall backend, pos: nat | Index.Selects(p.mode, backend) && pos < |p.doc.texts|
      ensures WroteAt(log + more, m, backend, p.doc, pos)
    {
      WroteStill(log, more, m, backend, p.doc, pos);
    }
  }

  lemma WroteStill(log: seq<Entry>, more: seq<Entry>, m: nat, backend: Index.Backend, doc: Doc, pos: nat)
    requires WroteAt(log, m, backend, doc, pos)
    ensures WroteAt(log + more, m, backend, doc, pos)
  {
    var k :| 0 <= k < |log| && log[k].message == m && Convergence.Writes(log[k].step, backend, doc, pos);
    assert (log + more)[k] == log[k];
  }

  lemma AddPieces(plans: Plans, w: World, more: seq<Entry>)
    requires Inv(plans, w)
    ensures Inv(plans, w.(log := w.log + more))
  {
    var v := w.(log := w.log + more);
    forall i | 0 <= i < |w.queue.stream| ensures MessageOk(plans, v.log, i, w.queue.stream[i]) {
      var m := w.queue.stream[i];
      assert MessageOk(plans, w.log, i, m);
      if PastOperation(m) && plans(m.payload.job.id).operation == Queue.Ingest {
        StaysWritten(w.log, more, i, plans(m.payload.job.id));
      }
    }
    forall e | e in w.queue.audit ensures EventOk(plans, v, e) {
      if e.Succeeded? && plans(e.job).operation == Queue.Ingest {
        assert EventOk(plans, w, e);
        var m :| Ingested(plans, w, e.job, m);
        StaysWritten(w.log, more, m, plans(e.job));
        assert Ingested(plans, v, e.job, m);
      }
    }
  }

  /** What every step does to the stream: messages keep their places and payloads. */
  predicate SamePlaces(s: Queue.State, t: Queue.State) {
    |s.stream| <= |t.stream| && forall i | 0 <= i < |s.stream| :: t.stream[i].payload == s.stream[i].payload
  }

  /** What every step but the commit and the operation does. */
  predicate Harmless(s: Queue.State, t: Queue.State) {
    && SamePlaces(s, t)
    && (forall i | 0 <= i < |t.stream| && PastOperation(t.stream[i]) :: i < |s.stream| && PastOperation(s.stream[i]))
    && (forall e | e in t.audit :: e in s.audit || !e.Succeeded?)
  }

  lemma SameEvent(plans: Plans, w: World, t: Queue.State, e: Queue.Event)
    requires EventOk(plans, w, e) && SamePlaces(w.queue, t)
    ensures EventOk(plans, w.(queue := t), e)
  {
    if e.Succeeded? && plans(e.job).operation == Queue.Ingest {
      var m :| Ingested(plans, w, e.job, m);
      assert Ingested(plans, w.(queue := t), e.job, m);
    }
  }

  lemma HarmlessKeeps(plans: Plans, w: World, t: Queue.State)
    requires Inv(plans, w) && Harmless(w.queue, t)
    ensures Inv(plans, w.(queue := t))
  {
    forall i | 0 <= i < |t.stream| ensures MessageOk(plans, w.log, i, t.stream[i]) {
      if PastOperation(t.stream[i]) { assert MessageOk(plans, w.log, i, w.queue.stream[i]); }
    }
    forall e | e in t.audit ensures EventOk(plans, w.(queue := t), e) {
      if e.Succeeded? { SameEvent(plans, w, t, e); }
    }
  }

  /** Steps outside a handler: they append messages that wait, or events that are no success. */
  lemma OutsideHarmless(s: Queue.State, step: Queue.Step)
    requires Queue.Enabled(s, step) && !step.Advance? && !step.Raise?
    ensures Harmless(s, Queue.Apply(s, step))
  {
  }

  lemma RaiseHarmless(s: Queue.State, i: nat, acked: bool)
    requires Queue.Enabled(s, Queue.Raise(i, acked))
    ensures Harmless(s, Queue.Raised(s, i, acked))
  {
  }

  lemma BeginHarmless(s: Queue.State, i: nat)
    requires i < |s.stream| && s.stream[i].payload.Queued? && s.stream[i].pc == Queue.Fetched
    ensures Harmless(s, Queue.Begin(s, i))
  {
  }

  lemma RowsHarmless(s: Queue.State, i: nat)
    requires i < |s.stream| && s.stream[i].payload.Queued?
    ensures Harmless(s, Queue.FailJob(s, i)) && Harmless(s, Queue.FailDocument(s, i))
  {
  }

  lemma HandOverHarmless(s: Queue.State, i: nat)
    requires i < |s.stream| && s.stream[i].payload.Queued?
    ensures Harmless(s, Queue.HandOver(s, i)) && Harmless(s, Queue.RecordFailure(s, i))
  {
  }

  lemma OtherHarmless(s: Queue.State, i: nat)
    requires Queue.Running(s, i)
    requires s.stream[i].payload.Malformed? || s.stream[i].pc in {Queue.JobMarked, Queue.Committed, Queue.Recorded}
    ensures Harmless(s, Queue.Advanced(s, i))
  {
  }

  lemma AdvanceHarmless(s: Queue.State, i: nat)
    requires Queue.Running(s, i)
    requires s.stream[i].payload.Malformed? || s.stream[i].pc !in {Queue.DocMarked, Queue.Operated}
    ensures Harmless(s, Queue.Advanced(s, i))
  {
    if s.stream[i].payload.Queued? && s.stream[i].pc == Queue.Fetched {
      BeginHarmless(s, i);
    } else if s.stream[i].payload.Queued?
      && s.stream[i].pc in {Queue.Failing, Queue.JobFailed, Queue.DocFailed, Queue.HandedOver} {
      RowsHarmless(s, i);
      HandOverHarmless(s, i);
    } else {
      OtherHarmless(s, i);
    }
  }

  /** The returning piece completes what the operation has stored. */
  lemma ReturnWritesAll(log: seq<Entry>, m: nat, p: Plan, e: Effect)
    requires p.operation == Queue.Ingest && Completes(log, m, p, e)
    ensures WroteAll(log + [Entry(m, Piece(p, e))], m, p)
  {
    var more := log + [Entry(m, Piece(p, e))];
    forall backend, pos: nat | Index.Selects(p.mode, backend) && pos < |p.doc.texts|
      ensures WroteAt(more, m, backend, p.doc, pos)
    {
      if WroteAt(log, m, backend, p.doc, pos) {
        WroteStill(log, [Entry(m, Piece(p, e))], m, backend, p.doc, pos);
      } else {
        assert more[|log|].message == m && Convergence.Writes(more[|log|].step, backend, p.doc, pos);
      }
    }
  }

  lemma OperateKeeps(plans: Plans, w: World, i: nat, e: Effect)
    requires Inv(plans, w) && Legal(plans, w, Take(Queue.Advance(i), e)) && Operates(w.queue, Queue.Advance(i))
    ensures Inv(plans, Apply(plans, w, Take(Queue.Advance(i), e)))
  {
    var p := PlanOf(plans, w.queue, i);
    var v := w.(log := w.log + [Entry(i, Piece(p, e))]);
    var t := Queue.Operate(w.queue, i);
    AddPieces(plans, w, [Entry(i, Piece(p, e))]);
    if p.operation == Queue.Ingest { ReturnWritesAll(w.log, i, p, e); }
    forall k | 0 <= k < |t.stream| ensures MessageOk(plans, v.log, k, t.stream[k]) {
      if k != i { assert MessageOk(plans, v.log, k, v.queue.stream[k]); }
    }
    forall x | x in t.audit ensures EventOk(plans, v.(queue := t), x) { SameEvent(plans, v, t, x); }
  }

  lemma CommitKeeps(plans: Plans, w: World, i: nat)
    requires Inv(plans, w) && i < |w.queue.stream|
    requires w.queue.stream[i].payload.Queued? && w.queue.stream[i].pc == Queue.Operated
    ensures Inv(plans, w.(queue := Queue.Commit(w.queue, i)))
  {
    var t := Queue.Commit(w.queue, i);
    var m := w.queue.stream[i];
    assert MessageOk(plans, w.log, i, m);
    forall k | 0 <= k < |t.stream| ensures MessageOk(plans, w.log, k, t.stream[k]) {
      if k != i { assert MessageOk(plans, w.log, k, w.queue.stream[k]); }
    }
    forall e | e in t.audit ensures EventOk(plans, w.(queue := t), e) {
      if e in w.queue.audit {
        SameEvent(plans, w, t, e);
      } else if plans(m.payload.job.id).operation == Queue.Ingest {
        assert Ingested(plans, w.(queue := t), m.payload.job.id, i);
      }
    }
  }

  lemma AdvanceKeeps(plans: Plans, w: World, i: nat)
    requires Inv(plans, w) && Queue.Running(w.queue, i) && !Operates(w.queue, Queue.Advance(i))
    ensures Inv(plans, w.(queue := Queue.Advanced(w.queue, i)))
  {
    if w.queue.stream[i].payload.Queued? && w.queue.stream[i].pc == Queue.Operated {
      CommitKeeps(plans, w, i);
    } else {
      AdvanceHarmless(w.queue, i);
      HarmlessKeeps(plans, w, Queue.Advanced(w.queue, i));
    }
  }

  lemma TakeKeeps(plans: Plans, w: World, step: Queue.Step, e: Effect)
    requires Inv(plans, w) && Legal(plans, w, Take(step, e))
    ensures Inv(plans, Apply(plans, w, Take(step, e)))
  {
    var s := w.queue;
    if step.Raise? {
      RaiseHarmless(s, step.i, step.acked);
      HarmlessKeeps(plans, w, Queue.Apply(s, step));
      if Operates(s, step) {
        AddPieces(plans, w.(queue := Queue.Apply(s, step)), [Entry(step.i, Piece(PlanOf(plans, s, step.i), e))]);
      }
    } else if !step.Advance? {
      OutsideHarmless(s, step);
      HarmlessKeeps(plans, w, Queue.Apply(s, step));
    } else if Operates(s, step) {
      OperateKeeps(plans, w, step.i, e);
    } else {
      AdvanceKeeps(plans, w, step.i);
    }
  }

  lemma MoveKeeps(plans: Plans, w: World, move: Move)
    requires Inv(plans, w) && Legal(plans, w, move)
    ensures Inv(plans, Apply(plans, w, move))
  {
    match move
    case Take(step, e) => TakeKeeps(plans, w, step, e);
    case Touch(i, e) => AddPieces(plans, w, [Entry(i, Piece(PlanOf(plans, w.queue, i), e))]);
  }

  lemma {:induction false} RunKeeps(plans: Plans, w: World, moves: seq<Move>)
    requires Inv(plans, w) && Runs(plans, w, moves)
    ensures Inv(plans, After(plans, w, moves))
    decreases |moves|
  {
    if moves != [] {
      MoveKeeps(plans, w, moves[0]);
      RunKeeps(plans, Apply(plans, w, moves[0]), moves[1..]);
    }
  }

  // ---------- the result ----------

  /** Every plan's ids can be told apart, and the plans for one document agree on what it holds. */
  ghost predicate OneContent(plans: Plans, doc: Doc) {
    forall id ::
      && Distinguishable(plans(id).doc.id, plans(id).doc.version)
      && (plans(id).doc.tenant == doc.tenant && plans(id).doc.id == doc.id ==> plans(id).doc == doc)
  }

  predicate AllFaithful(log: seq<Entry>, doc: Doc) {
    forall k | 0 <= k < |log| :: Convergence.Faithful(log[k].step, doc)
  }

  lemma {:induction false} RunFaithful(plans: Plans, w: World, moves: seq<Move>, doc: Doc)
    requires OneContent(plans, doc) && AllFaithful(w.log, doc) && Runs(plans, w, moves)
    ensures AllFaithful(After(plans, w, moves).log, doc)
    decreases |moves|
  {
    if moves != [] { RunFaithful(plans, Apply(plans, w, moves[0]), moves[1..], doc); }
  }

  /** Every chunk was stored and not removed since it was last stored. */
  predicate NothingLost(log: seq<Entry>, backend: Index.Backend, doc: Doc) {
    forall pos: nat | pos < |doc.texts| :: Convergence.StoredSince(Done(log), backend, doc, pos)
  }

  lemma LogExact(log: seq<Entry>, backend: Index.Backend, doc: Doc)
    requires AllFaithful(log, doc) && Distinguishable(doc.id, doc.version)
    ensures Index.Exact(Index.Run(map[], backend, Done(log)), doc) <==> NothingLost(log, backend, doc)
  {
    forall step | step in Done(log) ensures Convergence.Faithful(step, doc) {
      var k :| 0 <= k < |log| && Done(log)[k] == step;
      assert Convergence.Faithful(log[k].step, doc);
    }
    Convergence.ExactIff(map[], backend, Done(log), doc);
  }

  /** Message `m` has done nothing before `from`, and nothing removes the document from then on. */
  predicate UndisturbedFrom(log: seq<Entry>, m: nat, from: nat, doc: Doc) {
    && (forall k | 0 <= k < |log| && log[k].message == m :: from <= k)
    && (forall k | from <= k < |log| :: !Convergence.Removes(log[k].step, doc))
  }

  lemma UndisturbedStays(log: seq<Entry>, m: nat, from: nat, p: Plan, backend: Index.Backend)
    requires WroteAll(log, m, p) && Index.Selects(p.mode, backend) && UndisturbedFrom(log, m, from, p.doc)
    ensures NothingLost(log, backend, p.doc)
  {
    var steps := Done(log);
    forall pos: nat | pos < |p.doc.texts| ensures Convergence.StoredSince(steps, backend, p.doc, pos) {
      assert WroteAt(log, m, backend, p.doc, pos);
      var k :| 0 <= k < |log| && log[k].message == m && Convergence.Writes(log[k].step, backend, p.doc, pos);
      assert Convergence.Writes(steps[k], backend, p.doc, pos);
      assert Convergence.NeverCleared(steps, k + 1, backend, p.doc, pos);
    }
  }

  lemma RecordedIsIngested(plans: Plans, maxAttempts: nat, moves: seq<Move>, id: Queue.JobId)
    requires Runs(plans, Start(maxAttempts), moves) && plans(id).operation == Queue.Ingest
    requires Safety.Success(After(plans, Start(maxAttempts), moves).queue, id) >= 1
    ensures exists m :: Ingested(plans, After(plans, Start(maxAttempts), moves), id, m)
  {
    var w := After(plans, Start(maxAttempts), moves);
    RunKeeps(plans, Start(maxAttempts), moves);
    CountPositive(Safety.SuccessOf(id), w.queue.audit);
    var e :| e in w.queue.audit && e.Succeeded? && e.job == id;
    assert EventOk(plans, w, e);
  }

  /**
   * End to end: in every run, with any crashes, exceptions and deletes, and however the pieces of the operations of
   * several workers interleave: the operation of some message of an ingest the audit log records as succeeded has stored
   * every chunk in each store its mode selects; and the store holds exactly the document's chunks if and only if none of
   * them was removed after it was last stored.
   */
  lemma RecordedIngestIsIndexed(plans: Plans, maxAttempts: nat, moves: seq<Move>,
                                id: Queue.JobId, backend: Index.Backend)
    requires Runs(plans, Start(maxAttempts), moves)
    requires plans(id).operation == Queue.Ingest && OneContent(plans, plans(id).doc)
    requires Index.Selects(plans(id).mode, backend)
    requires Safety.Success(After(plans, Start(maxAttempts), moves).queue, id) >= 1
    ensures var w := After(plans, Start(maxAttempts), moves);
      && (exists m :: Ingested(plans, w, id, m))
      && (Index.Exact(Index.Run(map[], backend, Done(w.log)), plans(id).doc) <==> NothingLost(w.log, backend, plans(id).doc))
  {
    RecordedIsIngested(plans, maxAttempts, moves, id);
    RunFaithful(plans, Start(maxAttempts), moves, plans(id).doc);
    LogExact(After(plans, Start(maxAttempts), moves).log, backend, plans(id).doc);
  }

  /** So the store is exact when nothing has removed the document since the operation of such a message began. */
  lemma UndisturbedIngestIsIndexed(plans: Plans, maxAttempts: nat, moves: seq<Move>,
                                   id: Queue.JobId, backend: Index.Backend, m: nat, from: nat)
    requires Runs(plans, Start(maxAttempts), moves)
    requires plans(id).operation == Queue.Ingest && OneContent(plans, plans(id).doc)
    requires Index.Selects(plans(id).mode, backend)
    requires Ingested(plans, After(plans, Start(maxAttempts), moves), id, m)
    requires UndisturbedFrom(After(plans, Start(maxAttempts), moves).log, m, from, plans(id).doc)
    ensures Index.Exact(Index.Run(map[], backend, Done(After(plans, Start(maxAttempts), moves).log)), plans(id).doc)
  {
    var log := After(plans, Start(maxAttempts), moves).log;
    UndisturbedStays(log, m, from, plans(id), backend);
    RunFaithful(plans, Start(maxAttempts), moves, plans(id).doc);
    LogExact(log, backend, plans(id).doc);
  }
}
