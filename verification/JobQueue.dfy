/**
 * The document job queue: API requests, the Redis stream, any number of workers and the metadata database.
 * Every stream append, every database commit and every acknowledgement is a step of its own, and a worker
 * may crash between any two of them.
 */
module JobQueue {
  import opened Wrappers

  type JobId = nat
  type DocId = nat
  type WorkerId = nat

  datatype Operation = Ingest | Delete

  datatype Job = Job(id: JobId, doc: DocId, operation: Operation)

  datatype Payload = Malformed | Queued(job: Job, attempts: nat)

  /** How far the handling of a message has come: the last statement that took effect. */
  datatype Pc =
    | Ready        // appended, not delivered
    | Fetched      // delivered to a worker
    | JobMarked    // job row set to processing
    | DocMarked    // document row set to processing or deleting; the operation runs next
    | Operated     // the operation returned
    | Committed    // success and its audit event committed
    | Failing      // an exception was caught
    | JobFailed    // failure written to the job row
    | DocFailed    // failure written to the document row
    | HandedOver   // retry or dead letter appended
    | Recorded     // failure audit event committed
    | Rejected     // malformed message dead-lettered
    | Finished     // handling returned

  datatype Message = Message(payload: Payload, pc: Pc, acked: bool, started: bool, owner: Option<WorkerId>)

  datatype DeadLetter = BadMessage | Exhausted(job: JobId, attempts: nat)

  datatype Event =
    | Requested(job: JobId)
    | EnqueueFailed(job: JobId)
    | AttemptFailed(job: JobId, attempts: nat, willRetry: bool)
    | Succeeded(job: JobId, attempts: nat)

  datatype JobStatus = JobQueued | JobProcessing | JobSucceeded | JobFailedStatus

  datatype JobRow = JobRow(doc: DocId, status: JobStatus, attempts: nat)

  datatype DocStatus =
    | Uploaded | DocQueued | DocProcessing | DocReady | DocFailedStatus | DeleteQueued | Deleting | DeleteFailed

  /** What the API still has to commit for a job whose append raised. */
  datatype RequestPc = RowNext | DocNext | EventNext

  datatype FailedRequest = FailedRequest(job: Job, next: RequestPc)

  datatype State = State(
    maxAttempts: nat,
    stream: seq<Message>,
    dead: seq<DeadLetter>,
    audit: seq<Event>,
    jobs: map<JobId, JobRow>,
    docs: map<DocId, DocStatus>,
    requested: set<Job>,   // job rows committed by the API whose enqueue has not been tried yet
    refused: set<FailedRequest>,   // requests whose append raised, with commits still to come
    usedIds: set<JobId>,
    down: set<WorkerId>)

  datatype Step =
    | AddDocument(doc: DocId)
    | SetDocument(doc: DocId, status: DocStatus)
    | Request(job: Job)
    | Enqueue(job: Job)
    | EnqueueRaises(job: Job, applied: bool)
    | FailRequest(request: FailedRequest)
    | Inject
    | Read(worker: WorkerId, i: nat)
    | Advance(i: nat)
    | Raise(i: nat, acked: bool)
    | Crash(worker: WorkerId)

  function Init(maxAttempts: nat): State {
    State(maxAttempts, [], [], [], map[], map[], {}, {}, {}, {})
  }

  // ---------- single statements ----------

  function NewMessage(payload: Payload): Message {
    Message(payload, Ready, false, false, None)
  }

  function Put(s: State, i: nat, m: Message): State
    requires i < |s.stream|
  {
    s.(stream := s.stream[i := m])
  }

  function SetPc(s: State, i: nat, pc: Pc): State
    requires i < |s.stream|
  {
    Put(s, i, s.stream[i].(pc := pc))
  }

  function Ack(s: State, i: nat): State
    requires i < |s.stream|
  {
    Put(s, i, s.stream[i].(pc := Finished, acked := true))
  }

  /** `update_job`: silently nothing when the row is missing. */
  function UpdateJob(jobs: map<JobId, JobRow>, id: JobId, status: JobStatus, attempts: Option<nat>): map<JobId, JobRow> {
    if id in jobs then
      jobs[id := JobRow(jobs[id].doc, status, if attempts.Some? then attempts.value else jobs[id].attempts)]
    else jobs
  }

  /** `update_document`: silently nothing when the row is missing. */
  function UpdateDocument(docs: map<DocId, DocStatus>, doc: DocId, status: DocStatus): map<DocId, DocStatus> {
    if doc in docs then docs[doc := status] else docs
  }

  predicate AlreadySucceeded(s: State, id: JobId) {
    id in s.jobs && s.jobs[id].status == JobSucceeded
  }

  /** The checks before the operation and the first commit. */
  function Begin(s: State, i: nat): State
    requires i < |s.stream| && s.stream[i].payload.Queued?
  {
    var job := s.stream[i].payload.job;
    if job.id !in s.jobs then SetPc(s, i, Failing)
    else if s.jobs[job.id].status == JobSucceeded then Ack(s, i)
    else if job.doc !in s.docs then SetPc(s, i, Failing)
    else SetPc(s, i, JobMarked).(jobs := UpdateJob(s.jobs, job.id, JobProcessing, None))
  }

  function MarkDocument(s: State, i: nat): State
    requires i < |s.stream| && s.stream[i].payload.Queued?
  {
    var job := s.stream[i].payload.job;
    SetPc(s, i, DocMarked).(docs :=
      UpdateDocument(s.docs, job.doc, if job.operation == Delete then Deleting else DocProcessing))
  }

  /** The operation succeeds; an ingest ends by writing its document row. */
  function Operate(s: State, i: nat): State
    requires i < |s.stream| && s.stream[i].payload.Queued?
  {
    var job := s.stream[i].payload.job;
    Put(s, i, s.stream[i].(pc := Operated, started := true)).(docs :=
      if job.operation == Ingest then UpdateDocument(s.docs, job.doc, DocReady) else s.docs)
  }

  /** The final commit: the deletion (with its cascade) or the success row, together with the audit event. */
  function Commit(s: State, i: nat): State
    requires i < |s.stream| && s.stream[i].payload.Queued?
  {
    var Queued(job, attempts) := s.stream[i].payload;
    if job.id !in s.jobs || (job.operation == Delete && job.doc !in s.docs) then SetPc(s, i, Failing)
    else
      var done := SetPc(s, i, Committed).(audit := s.audit + [Succeeded(job.id, attempts + 1)]);
      if job.operation == Delete then
        done.(docs := s.docs - {job.doc}, jobs := map id | id in s.jobs && s.jobs[id].doc != job.doc :: s.jobs[id])
      else
        done.(jobs := UpdateJob(s.jobs, job.id, JobSucceeded, Some(attempts + 1)))
  }

  /** The failure path decides between retry and dead letter. */
  predicate Exhausts(s: State, attempts: nat) {
    attempts + 1 >= s.maxAttempts
  }

  function FailJob(s: State, i: nat): State
    requires i < |s.stream| && s.stream[i].payload.Queued?
  {
    var Queued(job, attempts) := s.stream[i].payload;
    var status := if Exhausts(s, attempts) then JobFailedStatus else JobQueued;
    SetPc(s, i, JobFailed).(jobs := UpdateJob(s.jobs, job.id, status, Some(attempts + 1)))
  }

  function FailDocument(s: State, i: nat): State
    requires i < |s.stream| && s.stream[i].payload.Queued?
  {
    var Queued(job, attempts) := s.stream[i].payload;
    var status :=
      if Exhausts(s, attempts) then if job.operation == Delete then DeleteFailed else DocFailedStatus
      else if job.operation == Delete then DeleteQueued else DocQueued;
    SetPc(s, i, DocFailed).(docs := UpdateDocument(s.docs, job.doc, status))
  }

  function HandOver(s: State, i: nat): State
    requires i < |s.stream| && s.stream[i].payload.Queued?
  {
    var Queued(job, attempts) := s.stream[i].payload;
    var s' := SetPc(s, i, HandedOver);
    if Exhausts(s, attempts) then s'.(dead := s'.dead + [Exhausted(job.id, attempts + 1)])
    else s'.(stream := s'.stream + [NewMessage(Queued(job, attempts + 1))])
  }

  function RecordFailure(s: State, i: nat): State
    requires i < |s.stream| && s.stream[i].payload.Queued?
  {
    var Queued(job, attempts) := s.stream[i].payload;
    SetPc(s, i, Recorded).(audit := s.audit + [AttemptFailed(job.id, attempts + 1, !Exhausts(s, attempts))])
  }

  function Reject(s: State, i: nat): State
    requires i < |s.stream|
  {
    SetPc(s, i, Rejected).(dead := s.dead + [BadMessage])
  }

  /** The next commit of the API for a request whose append raised, whether or not the message is in the stream. */
  function RefusedOnce(s: State, f: FailedRequest): State {
    var rest := s.refused - {f};
    match f.next
    case RowNext =>
      s.(jobs := UpdateJob(s.jobs, f.job.id, JobFailedStatus, None), refused := rest + {f.(next := DocNext)})
    case DocNext =>
      var status := if f.job.operation == Delete then DeleteFailed else DocFailedStatus;
      s.(docs := UpdateDocument(s.docs, f.job.doc, status), refused := rest + {f.(next := EventNext)})
    case EventNext =>
      s.(audit := s.audit + [EnqueueFailed(f.job.id)], refused := rest)
  }

  // ---------- steps ----------

  /** The worker handling message `i` is alive and has statements left. */
  predicate Running(s: State, i: nat) {
    && i < |s.stream|
    && s.stream[i].pc != Ready && s.stream[i].pc != Finished
    && s.stream[i].owner.Some? && s.stream[i].owner.value !in s.down
    && (s.stream[i].payload.Malformed? ==> s.stream[i].pc == Fetched || s.stream[i].pc == Rejected)
    && (s.stream[i].payload.Queued? ==> s.stream[i].pc != Rejected)
  }

  predicate InTryBlock(pc: Pc) {
    pc == Fetched || pc == JobMarked || pc == DocMarked || pc == Operated || pc == Committed
  }

  /** Whether the statement that raises can be an acknowledgement that still took effect. */
  predicate MayAck(s: State, m: Message) {
    m.pc == Committed || (m.pc == Fetched && m.payload.Queued? && AlreadySucceeded(s, m.payload.job.id))
  }

  predicate Idle(s: State, w: WorkerId) {
    w !in s.down && forall i | 0 <= i < |s.stream| :: s.stream[i].owner == Some(w) ==> s.stream[i].pc == Finished
  }

  predicate Enabled(s: State, step: Step) {
    match step
    case AddDocument(doc) => doc !in s.docs
    case SetDocument(_, _) => true
    case Request(job) => job.id !in s.usedIds && job.doc in s.docs
    case Enqueue(job) => job in s.requested
    case EnqueueRaises(job, _) => job in s.requested
    case FailRequest(f) => f in s.refused
    case Inject => true
    case Read(w, i) =>
      Idle(s, w) && i < |s.stream| && s.stream[i].pc == Ready
      && forall k | 0 <= k < i :: s.stream[k].pc != Ready
    case Advance(i) => Running(s, i)
    case Raise(i, acked) =>
      Running(s, i) && s.stream[i].payload.Queued? && InTryBlock(s.stream[i].pc)
      && (acked ==> MayAck(s, s.stream[i]))
    case Crash(w) => w !in s.down
  }

  function Advanced(s: State, i: nat): State
    requires Running(s, i)
  {
    if s.stream[i].payload.Malformed? then
      if s.stream[i].pc == Fetched then Reject(s, i) else Ack(s, i)
    else
      match s.stream[i].pc
      case Fetched => Begin(s, i)
      case JobMarked => MarkDocument(s, i)
      case DocMarked => Operate(s, i)
      case Operated => Commit(s, i)
      case Committed => Ack(s, i)
      case Failing => FailJob(s, i)
      case JobFailed => FailDocument(s, i)
      case DocFailed => HandOver(s, i)
      case HandedOver => RecordFailure(s, i)
      case _ => Ack(s, i)
  }

  function Raised(s: State, i: nat, acked: bool): State
    requires i < |s.stream|
  {
    var m := s.stream[i];
    Put(s, i, m.(pc := Failing, acked := m.acked || acked, started := m.started || m.pc == DocMarked))
  }

  function Apply(s: State, step: Step): State
    requires Enabled(s, step)
  {
    match step
    case AddDocument(doc) => s.(docs := s.docs[doc := Uploaded])
    case SetDocument(doc, status) => s.(docs := UpdateDocument(s.docs, doc, status))
    case Request(job) =>
      s.(jobs := s.jobs[job.id := JobRow(job.doc, JobQueued, 0)],
         audit := s.audit + [Requested(job.id)],
         requested := s.requested + {job}, usedIds := s.usedIds + {job.id})
    case Enqueue(job) =>
      s.(stream := s.stream + [NewMessage(Queued(job, 0))], requested := s.requested - {job})
    case EnqueueRaises(job, applied) =>
      s.(stream := if applied then s.stream + [NewMessage(Queued(job, 0))] else s.stream,
         requested := s.requested - {job}, refused := s.refused + {FailedRequest(job, RowNext)})
    case FailRequest(f) => RefusedOnce(s, f)
    case Inject => s.(stream := s.stream + [NewMessage(Malformed)])
    case Read(w, i) => Put(s, i, s.stream[i].(pc := Fetched, owner := Some(w)))
    case Advance(i) => Advanced(s, i)
    case Raise(i, acked) => Raised(s, i, acked)
    case Crash(w) => s.(down := s.down + {w})
  }

  /** `steps` can be taken one after the other from `s`. */
  predicate Runs(s: State, steps: seq<Step>)
    decreases |steps|
  {
    steps == [] || (Enabled(s, steps[0]) && Runs(Apply(s, steps[0]), steps[1..]))
  }

  function After(s: State, steps: seq<Step>): State
    requires Runs(s, steps)
    decreases |steps|
  {
    if steps == [] then s else After(Apply(s, steps[0]), steps[1..])
  }
}
