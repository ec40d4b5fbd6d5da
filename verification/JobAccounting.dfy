/** Where each job is, how often it is attempted, and why the queue drains. */
module JobAccounting {
  import opened Wrappers
  import opened Sequences
  import opened JobQueue
  import opened JobSafety

  // ---------- conservation ----------

  /** The message acknowledged without work because its job row already says succeeded. */
  predicate SkipsSucceeded(s: State, step: Step, id: JobId)
    requires Enabled(s, step)
  {
    && step.Advance? && IsOf(s.stream[step.i], id) && s.stream[step.i].pc == Fetched && AlreadySucceeded(s, id)
  }

  /** An exception after the final commit sends an already successful job into the failure path. */
  predicate RaisesAfterCommit(s: State, step: Step) {
    step.Raise? && step.i < |s.stream| && s.stream[step.i].pc == Committed
  }

  predicate Enters(step: Step, id: JobId) {
    match step
    case Enqueue(job) => job.id == id
    case EnqueueRaises(job, applied) => applied && job.id == id
    case _ => false
  }

  /** How a step changes the number of places a job is in. */
  function TokenChange(s: State, step: Step, id: JobId): int
    requires Enabled(s, step)
  {
    if Enters(step, id) then 1
    else if SkipsSucceeded(s, step, id) then -1
    else if RaisesAfterCommit(s, step) && IsOf(s.stream[step.i], id) then 1
    else 0
  }

  lemma HandOverTokens(s: State, i: nat, id: JobId)
    requires i < |s.stream| && s.stream[i].payload.Queued? && s.stream[i].pc == DocFailed
    ensures Tokens(HandOver(s, i), id) == Tokens(s, id)
    ensures Messages(HandOver(s, i), id) >= Messages(s, id)
  {
    var Queued(job, attempts) := s.stream[i].payload;
    var m := s.stream[i].(pc := HandedOver);
    PutCounts(s, i, m, id);
    CountAppend(DeadOf(id), s.dead, Exhausted(job.id, attempts + 1));
    AppendCounts(Put(s, i, m), Queued(job, attempts + 1), id);
  }

  lemma CommitTokens(s: State, i: nat, id: JobId)
    requires i < |s.stream| && s.stream[i].payload.Queued? && s.stream[i].pc == Operated
    ensures Tokens(Commit(s, i), id) == Tokens(s, id)
    ensures Messages(Commit(s, i), id) == Messages(s, id)
  {
    var job := s.stream[i].payload.job;
    PutCounts(s, i, s.stream[i].(pc := Failing), id);
    if job.id in s.jobs && (job.operation == Ingest || job.doc in s.docs) {
      CommitCounts(s, i, Commit(s, i), id);
    }
  }

  lemma RejectTokens(s: State, i: nat, id: JobId)
    requires i < |s.stream| && s.stream[i].payload.Malformed?
    ensures Tokens(Reject(s, i), id) == Tokens(s, id)
    ensures Messages(Reject(s, i), id) == Messages(s, id)
  {
    PutCounts(s, i, s.stream[i].(pc := Rejected), id);
    CountAppend(DeadOf(id), s.dead, BadMessage);
  }

  lemma RecordTokens(s: State, i: nat, id: JobId)
    requires i < |s.stream| && s.stream[i].payload.Queued? && s.stream[i].pc == HandedOver
    ensures Tokens(RecordFailure(s, i), id) == Tokens(s, id)
    ensures Messages(RecordFailure(s, i), id) == Messages(s, id)
  {
    var Queued(job, attempts) := s.stream[i].payload;
    PutCounts(s, i, s.stream[i].(pc := Recorded), id);
    CountAppend(SuccessOf(id), s.audit, AttemptFailed(job.id, attempts + 1, !Exhausts(s, attempts)));
  }

  lemma PutTokens(s: State, i: nat, m: Message, id: JobId)
    requires i < |s.stream| && m.payload == s.stream[i].payload
    ensures Tokens(Put(s, i, m), id) + Bit(LiveOf(id)(s.stream[i])) == Tokens(s, id) + Bit(LiveOf(id)(m))
    ensures Messages(Put(s, i, m), id) == Messages(s, id)
  {
    PutCounts(s, i, m, id);
  }

  /** Statements that only write rows or acknowledge and keep the message on the same side. */
  lemma WriteTokens(s: State, i: nat, id: JobId)
    requires Running(s, i) && s.stream[i].payload.Queued?
    requires s.stream[i].pc in {JobMarked, DocMarked, Committed, Failing, JobFailed, Recorded}
    ensures Tokens(Advanced(s, i), id) == Tokens(s, id)
    ensures Messages(Advanced(s, i), id) == Messages(s, id)
  {
    PutTokens(s, i, Advanced(s, i).stream[i], id);
    assert Advanced(s, i).stream == Put(s, i, Advanced(s, i).stream[i]).stream;
  }

  lemma MalformedTokens(s: State, i: nat, id: JobId)
    requires Running(s, i) && s.stream[i].payload.Malformed?
    ensures Tokens(Advanced(s, i), id) == Tokens(s, id)
    ensures Messages(Advanced(s, i), id) == Messages(s, id)
  {
    if s.stream[i].pc == Fetched {
      RejectTokens(s, i, id);
    } else {
      PutTokens(s, i, s.stream[i].(pc := Finished, acked := true), id);
    }
  }

  lemma AdvanceTokens(s: State, i: nat, id: JobId)
    requires Running(s, i)
    ensures Accounts(s, Advance(i), id)
  {
    if s.stream[i].payload.Malformed? {
      MalformedTokens(s, i, id);
    } else {
      match s.stream[i].pc
      case Fetched => BeginTokens(s, i, id);
      case Operated => CommitTokens(s, i, id);
      case DocFailed => HandOverTokens(s, i, id);
      case HandedOver => RecordTokens(s, i, id);
      case _ => WriteTokens(s, i, id);
    }
  }

  lemma BeginTokens(s: State, i: nat, id: JobId)
    requires i < |s.stream| && s.stream[i].payload.Queued? && s.stream[i].pc == Fetched
    ensures Tokens(Begin(s, i), id) + Bit(IsOf(s.stream[i], id) && AlreadySucceeded(s, id)) == Tokens(s, id)
    ensures Messages(Begin(s, i), id) == Messages(s, id)
  {
    var m := s.stream[i];
    PutTokens(s, i, m.(pc := Failing), id);
    PutTokens(s, i, m.(pc := JobMarked), id);
    PutTokens(s, i, m.(pc := Finished, acked := true), id);
  }

  /** A step changes the places of a job as said, and takes away no message of it. */
  predicate Accounts(s: State, step: Step, id: JobId)
    requires Enabled(s, step)
  {
    && Tokens(Apply(s, step), id) == Tokens(s, id) + TokenChange(s, step, id)
    && Messages(Apply(s, step), id) >= Messages(s, id)
  }

  lemma ReadTokens(s: State, w: WorkerId, i: nat, id: JobId)
    requires Enabled(s, Read(w, i))
    ensures Accounts(s, Read(w, i), id)
  {
    PutTokens(s, i, s.stream[i].(pc := Fetched, owner := Some(w)), id);
  }

  /** Steps that append to the stream. */
  lemma AppendTokens(s: State, step: Step, id: JobId)
    requires Enabled(s, step) && (step.Enqueue? || step.EnqueueRaises? || step.Inject?)
    ensures Accounts(s, step, id)
  {
    AppendCounts(s, if step.Inject? then Malformed else Queued(step.job, 0), id);
  }

  /** Steps that commit rows and events of the API, and crashes. */
  lemma CommitRowTokens(s: State, step: Step, id: JobId)
    requires Enabled(s, step)
    requires step.AddDocument? || step.SetDocument? || step.Request? || step.FailRequest? || step.Crash?
    ensures Accounts(s, step, id)
  {
    if step.Request? { CountAppend(SuccessOf(id), s.audit, Requested(step.job.id)); }
    if step.FailRequest? { CountAppend(SuccessOf(id), s.audit, EnqueueFailed(step.request.job.id)); }
  }

  lemma StepAccounts(s: State, step: Step, id: JobId)
    requires Enabled(s, step)
    ensures Accounts(s, step, id)
  {
    match step
    case Advance(i) => AdvanceTokens(s, i, id);
    case Raise(i, acked) => RaiseTokens(s, i, acked, id);
    case Read(w, i) => ReadTokens(s, w, i, id);
    case Enqueue(_) => AppendTokens(s, step, id);
    case EnqueueRaises(_, _) => AppendTokens(s, step, id);
    case Inject => AppendTokens(s, step, id);
    case _ => CommitRowTokens(s, step, id);
  }

  /** Every step accounts for its jobs: nothing but these three kinds of step creates or removes a place. */
  lemma Conservation(s: State, step: Step, id: JobId)
    requires Enabled(s, step)
    ensures Tokens(Apply(s, step), id) == Tokens(s, id) + TokenChange(s, step, id)
    ensures Messages(Apply(s, step), id) >= Messages(s, id)
  {
    StepAccounts(s, step, id);
  }

  lemma RaiseTokens(s: State, i: nat, acked: bool, id: JobId)
    requires Enabled(s, Raise(i, acked))
    ensures Tokens(Raised(s, i, acked), id) == Tokens(s, id) + Bit(s.stream[i].pc == Committed && IsOf(s.stream[i], id))
    ensures Messages(Raised(s, i, acked), id) == Messages(s, id)
  {
    var m := s.stream[i];
    PutTokens(s, i, m.(pc := Failing, acked := m.acked || acked, started := m.started || m.pc == DocMarked), id);
  }

  // ---------- exactly one place ----------

  ghost predicate ExactlyOne(s: State) {
    forall id :: Tokens(s, id) == if Messages(s, id) >= 1 then 1 else 0
  }

  /** No step of the run raises between the final commit and the end of handling. */
  predicate Calm(s: State, steps: seq<Step>)
    requires Runs(s, steps)
    decreases |steps|
  {
    steps == [] || (!RaisesAfterCommit(s, steps[0]) && Calm(Apply(s, steps[0]), steps[1..]))
  }

  lemma MessagesStep(s: State, step: Step, id: JobId)
    requires Inv(s) && Enabled(s, step)
    ensures Enters(step, id) ==> Messages(s, id) == 0 && Messages(Apply(s, step), id) == 1
    ensures !Enters(step, id) && Messages(s, id) == 0 ==> Messages(Apply(s, step), id) == 0
  {
    match step
    case Enqueue(job) => AppendCounts(s, Queued(job, 0), id);
    case EnqueueRaises(job, applied) => AppendCounts(s, Queued(job, 0), id);
    case Inject => AppendCounts(s, Malformed, id);
    case Advance(i) => if Messages(s, id) == 0 { NoMessageNoChange(s, i, id); }
    case Raise(i, acked) =>
      var m := s.stream[i];
      PutCounts(s, i, m.(pc := Failing, acked := m.acked || acked, started := m.started || m.pc == DocMarked), id);
    case Read(w, i) => PutCounts(s, i, s.stream[i].(pc := Fetched, owner := Some(w)), id);
    case _ =>
  }

  lemma NoMessageNoChange(s: State, i: nat, id: JobId)
    requires Running(s, i) && Messages(s, id) == 0
    ensures Messages(Advanced(s, i), id) == 0
  {
    if s.stream[i].payload.Malformed? {
      MalformedTokens(s, i, id);
    } else {
      CountPositive(Of(id), s.stream);
      assert !Of(id)(s.stream[i]);
      match s.stream[i].pc
      case Fetched => BeginTokens(s, i, id);
      case Operated => CommitTokens(s, i, id);
      case HandedOver => RecordTokens(s, i, id);
      case DocFailed =>
        var Queued(job, attempts) := s.stream[i].payload;
        PutCounts(s, i, s.stream[i].(pc := HandedOver), id);
        AppendCounts(SetPc(s, i, HandedOver), Queued(job, attempts + 1), id);
      case _ => WriteTokens(s, i, id);
    }
  }

  /** A live message of a job that already succeeded would be a second place. */
  lemma NoSkip(s: State, step: Step, id: JobId)
    requires Inv(s) && ExactlyOne(s) && Enabled(s, step)
    ensures !SkipsSucceeded(s, step, id)
  {
    if SkipsSucceeded(s, step, id) {
      assert LiveOf(id)(s.stream[step.i]);
      CountPositive(LiveOf(id), s.stream);
    }
  }

  lemma CalmStepKeeps(s: State, step: Step)
    requires Inv(s) && ExactlyOne(s) && Enabled(s, step) && !RaisesAfterCommit(s, step)
    ensures ExactlyOne(Apply(s, step))
  {
    forall id ensures Tokens(Apply(s, step), id) == if Messages(Apply(s, step), id) >= 1 then 1 else 0 {
      Conservation(s, step, id);
      MessagesStep(s, step, id);
      NoSkip(s, step, id);
    }
  }

  lemma {:induction false} CalmRunKeeps(s: State, steps: seq<Step>)
    requires Inv(s) && ExactlyOne(s) && Runs(s, steps) && Calm(s, steps)
    ensures ExactlyOne(After(s, steps))
    decreases |steps|
  {
    if steps != [] {
      CalmStepKeeps(s, steps[0]);
      StepKeeps(s, steps[0]);
      CalmRunKeeps(Apply(s, steps[0]), steps[1..]);
    }
  }

  /**
   * Unless a statement raises after its final commit, every job that entered the stream is in exactly one place,
   * crashes included: one live message, one dead letter or one success event.
   */
  lemma ExactlyOnePlace(maxAttempts: nat, steps: seq<Step>, id: JobId)
    requires maxAttempts >= 1 && Runs(Init(maxAttempts), steps) && Calm(Init(maxAttempts), steps)
    ensures var s := After(Init(maxAttempts), steps);
      Messages(s, id) >= 1 ==> Live(s, id) + Dead(s, id) + Success(s, id) == 1
  {
    InitInv(maxAttempts);
    CalmRunKeeps(Init(maxAttempts), steps);
  }

  /** Without that restriction it fails: raising after the commit leaves a success event and a live message. */
  lemma RaiseAfterCommitDuplicates(s: State, i: nat, acked: bool)
    requires Inv(s) && ExactlyOne(s) && Enabled(s, Raise(i, acked)) && s.stream[i].pc == Committed
    ensures Tokens(Raised(s, i, acked), s.stream[i].payload.job.id) == 2
  {
    RaiseTokens(s, i, acked, s.stream[i].payload.job.id);
    MessageCounts(s, i);
  }

  /** The restriction is exact: a step keeps every job in one place if and only if it does not raise after the commit. */
  lemma ExactlyOneIff(s: State, step: Step)
    requires Inv(s) && ExactlyOne(s) && Enabled(s, step)
    ensures ExactlyOne(Apply(s, step)) <==> !RaisesAfterCommit(s, step)
  {
    if RaisesAfterCommit(s, step) {
      RaiseAfterCommitDuplicates(s, step.i, step.acked);
      assert Tokens(Apply(s, step), s.stream[step.i].payload.job.id) == 2;
    } else {
      CalmStepKeeps(s, step);
    }
  }

  // ---------- attempts ----------

  function StartedOf(id: JobId): Message -> bool { (m: Message) => IsOf(m, id) && m.started }

  /** How often the job's operation was started: once for each message that got that far. */
  function Starts(s: State, id: JobId): nat { Count(StartedOf(id), s.stream) }

  lemma {:induction false} PrefixBound(s: State, n: nat, id: JobId)
    requires ChainOk(s) && n <= |s.stream|
    ensures Count(Of(id), s.stream[..n]) <= s.maxAttempts
    decreases n
  {
    if n > 0 {
      PrefixBound(s, n - 1, id);
      TakeNext(s.stream, n - 1);
      CountAppend(Of(id), s.stream[..n - 1], s.stream[n - 1]);
    }
  }

  /**
   * Attempt accounting in every reachable state: no job has more than the maximum of messages or starts, every
   * queued message is below the maximum, the attempts along a job's messages count up from zero, and a job has
   * at most one dead letter, which carries exactly the maximum.
   */
  lemma AttemptAccounting(maxAttempts: nat, steps: seq<Step>, id: JobId)
    requires maxAttempts >= 1 && Runs(Init(maxAttempts), steps)
    ensures var s := After(Init(maxAttempts), steps);
      && Starts(s, id) <= Messages(s, id) <= maxAttempts
      && (forall i | 0 <= i < |s.stream| && IsOf(s.stream[i], id) ::
           s.stream[i].payload.attempts == Count(Of(id), s.stream[..i]) < maxAttempts)
      && Dead(s, id) <= 1
      && (forall d | d in s.dead && DeadOf(id)(d) :: d.attempts == maxAttempts)
  {
    var s := After(Init(maxAttempts), steps);
    InitInv(maxAttempts);
    RunKeeps(Init(maxAttempts), steps);
    MaxConstant(Init(maxAttempts), steps);
    PrefixBound(s, |s.stream|, id);
    TakeAll(s.stream);
    CountImplied(StartedOf(id), Of(id), s.stream);
    assert Holding(s, id) + Dead(s, id) <= 1;
  }

  lemma {:induction false} MaxConstant(s: State, steps: seq<Step>)
    requires Runs(s, steps)
    ensures After(s, steps).maxAttempts == s.maxAttempts
    decreases |steps|
  {
    if steps != [] { MaxConstant(Apply(s, steps[0]), steps[1..]); }
  }

  // ---------- the audit log ----------

  function FailedOf(id: JobId): Event -> bool { (e: Event) => e.AttemptFailed? && e.job == id }

  predicate AuditedPc(pc: Pc) {
    pc == Committed || pc == Recorded || pc == Finished
  }

  function AuditedOf(id: JobId): Message -> bool { (m: Message) => IsOf(m, id) && AuditedPc(m.pc) }

  function Failures(s: State, id: JobId): nat { Count(FailedOf(id), s.audit) }
  function Audited(s: State, id: JobId): nat { Count(AuditedOf(id), s.stream) }

  lemma PutAudited(s: State, i: nat, m: Message, id: JobId)
    requires i < |s.stream| && m.payload == s.stream[i].payload
    ensures Audited(Put(s, i, m), id) + Bit(AuditedOf(id)(s.stream[i])) == Audited(s, id) + Bit(AuditedOf(id)(m))
  {
    CountUpdate(AuditedOf(id), s.stream, i, m);
  }

  lemma AppendAudited(s: State, payload: Payload, id: JobId)
    ensures Audited(Append(s, payload), id) == Audited(s, id)
  {
    CountAppend(AuditedOf(id), s.stream, NewMessage(payload));
  }

  lemma EventCounts(s: State, e: Event, id: JobId)
    ensures Count(FailedOf(id), s.audit + [e]) == Failures(s, id) + Bit(e.AttemptFailed? && e.job == id)
    ensures Count(SuccessOf(id), s.audit + [e]) == Success(s, id) + Bit(e.Succeeded? && e.job == id)
  {
    CountAppend(FailedOf(id), s.audit, e);
    CountAppend(SuccessOf(id), s.audit, e);
  }

  function OnRecord(s: State, id: JobId): nat { Failures(s, id) + Success(s, id) }

  lemma CommitBalance(s: State, i: nat, id: JobId)
    requires i < |s.stream| && s.stream[i].payload.Queued? && s.stream[i].pc == Operated
    ensures OnRecord(Commit(s, i), id) + Audited(s, id) == OnRecord(s, id) + Audited(Commit(s, i), id)
  {
    var Queued(job, attempts) := s.stream[i].payload;
    PutAudited(s, i, Commit(s, i).stream[i], id);
    EventCounts(s, Succeeded(job.id, attempts + 1), id);
    assert Commit(s, i).stream == Put(s, i, Commit(s, i).stream[i]).stream;
  }

  lemma RecordBalance(s: State, i: nat, id: JobId)
    requires i < |s.stream| && s.stream[i].payload.Queued? && s.stream[i].pc == HandedOver
    ensures OnRecord(RecordFailure(s, i), id) + Audited(s, id) == OnRecord(s, id) + Audited(RecordFailure(s, i), id)
  {
    var Queued(job, attempts) := s.stream[i].payload;
    PutAudited(s, i, s.stream[i].(pc := Recorded), id);
    EventCounts(s, AttemptFailed(job.id, attempts + 1, !Exhausts(s, attempts)), id);
  }

  lemma HandOverBalance(s: State, i: nat, id: JobId)
    requires i < |s.stream| && s.stream[i].payload.Queued? && s.stream[i].pc == DocFailed
    ensures OnRecord(HandOver(s, i), id) + Audited(s, id) == OnRecord(s, id) + Audited(HandOver(s, i), id)
  {
    var Queued(job, attempts) := s.stream[i].payload;
    PutAudited(s, i, s.stream[i].(pc := HandedOver), id);
    AppendAudited(SetPc(s, i, HandedOver), Queued(job, attempts + 1), id);
  }

  /** The step writes no event and leaves the job's message on the same side of its audit commit. */
  predicate Writes(s: State, i: nat, t: State, id: JobId) {
    && i < |s.stream| && |t.stream| == |s.stream| && t.stream == s.stream[i := t.stream[i]] && t.audit == s.audit
    && t.stream[i].payload == s.stream[i].payload
    && (IsOf(s.stream[i], id) ==> AuditedPc(t.stream[i].pc) == AuditedPc(s.stream[i].pc))
  }

  lemma BeginWrites(s: State, i: nat, id: JobId)
    requires i < |s.stream| && s.stream[i].payload.Queued? && s.stream[i].pc == Fetched
    requires !(IsOf(s.stream[i], id) && AlreadySucceeded(s, id))
    ensures Writes(s, i, Begin(s, i), id)
  {
  }

  lemma MalformedWrites(s: State, i: nat, id: JobId)
    requires Running(s, i) && s.stream[i].payload.Malformed?
    ensures Writes(s, i, Advanced(s, i), id)
  {
  }

  lemma OtherWrites(s: State, i: nat, id: JobId)
    requires Running(s, i) && s.stream[i].payload.Queued?
    requires s.stream[i].pc in {JobMarked, DocMarked, Committed, Failing, JobFailed, Recorded}
    ensures Writes(s, i, Advanced(s, i), id)
  {
  }

  lemma WritesBalance(s: State, i: nat, t: State, id: JobId)
    requires Writes(s, i, t, id)
    ensures OnRecord(t, id) + Audited(s, id) == OnRecord(s, id) + Audited(t, id)
  {
    PutAudited(s, i, t.stream[i], id);
  }

  lemma WriteBalance(s: State, i: nat, id: JobId)
    requires Running(s, i) && !SkipsSucceeded(s, Advance(i), id)
    requires s.stream[i].payload.Malformed? || s.stream[i].pc !in {Operated, HandedOver, DocFailed}
    ensures OnRecord(Advanced(s, i), id) + Audited(s, id) == OnRecord(s, id) + Audited(Advanced(s, i), id)
  {
    if s.stream[i].payload.Malformed? {
      MalformedWrites(s, i, id);
    } else if s.stream[i].pc == Fetched {
      BeginWrites(s, i, id);
    } else {
      OtherWrites(s, i, id);
    }
    WritesBalance(s, i, Advanced(s, i), id);
  }

  lemma AdvanceBalance(s: State, i: nat, id: JobId)
    requires Running(s, i) && !SkipsSucceeded(s, Advance(i), id)
    ensures OnRecord(Advanced(s, i), id) + Audited(s, id) == OnRecord(s, id) + Audited(Advanced(s, i), id)
  {
    if s.stream[i].payload.Malformed? {
      WriteBalance(s, i, id);
    } else {
      match s.stream[i].pc
      case Operated => CommitBalance(s, i, id);
      case HandedOver => RecordBalance(s, i, id);
      case DocFailed => HandOverBalance(s, i, id);
      case _ => WriteBalance(s, i, id);
    }
  }

  lemma BalanceStep(s: State, step: Step, id: JobId)
    requires Enabled(s, step) && !RaisesAfterCommit(s, step) && !SkipsSucceeded(s, step, id)
    ensures OnRecord(Apply(s, step), id) + Audited(s, id) == OnRecord(s, id) + Audited(Apply(s, step), id)
  {
    match step
    case Advance(i) => AdvanceBalance(s, i, id);
    case Raise(i, acked) => PutAudited(s, i, Raised(s, i, acked).stream[i], id);
    case Read(w, i) => PutAudited(s, i, s.stream[i].(pc := Fetched, owner := Some(w)), id);
    case Request(job) => EventCounts(s, Requested(job.id), id);
    case Enqueue(job) => AppendAudited(s, Queued(job, 0), id);
    case EnqueueRaises(job, applied) => AppendAudited(s, Queued(job, 0), id);
    case FailRequest(f) => EventCounts(s, EnqueueFailed(f.job.id), id);
    case Inject => AppendAudited(s, Malformed, id);
    case _ =>
  }

  /** What a skipped or raising statement moves between the handled messages and the places of its job. */
  lemma SkipBooks(s: State, i: nat, id: JobId)
    requires Running(s, i) && SkipsSucceeded(s, Advance(i), id)
    ensures OnRecord(Begin(s, i), id) == OnRecord(s, id) && Audited(Begin(s, i), id) == Audited(s, id) + 1
  {
    PutAudited(s, i, s.stream[i].(pc := Finished, acked := true), id);
  }

  lemma RaiseBooks(s: State, i: nat, acked: bool, id: JobId)
    requires Enabled(s, Raise(i, acked)) && s.stream[i].pc == Committed
    ensures OnRecord(Raised(s, i, acked), id) == OnRecord(s, id)
    ensures Audited(Raised(s, i, acked), id) + Bit(IsOf(s.stream[i], id)) == Audited(s, id)
  {
    PutAudited(s, i, Raised(s, i, acked).stream[i], id);
  }

  /** No step puts an event on record, a message to the handled ones or a job in a place without its counterpart. */
  lemma Books(s: State, step: Step, id: JobId)
    requires Enabled(s, step)
    ensures var t := Apply(s, step);
      OnRecord(t, id) - OnRecord(s, id) + Bit(Enters(step, id))
        == Audited(t, id) - Audited(s, id) + Tokens(t, id) - Tokens(s, id)
  {
    Conservation(s, step, id);
    if SkipsSucceeded(s, step, id) {
      SkipBooks(s, step.i, id);
    } else if RaisesAfterCommit(s, step) {
      RaiseBooks(s, step.i, step.acked, id);
    } else {
      BalanceStep(s, step, id);
    }
  }

  ghost predicate Balanced(s: State, id: JobId) {
    OnRecord(s, id) + Bit(Messages(s, id) >= 1) == Audited(s, id) + Tokens(s, id)
  }

  lemma {:induction false} RunBalances(s: State, steps: seq<Step>, id: JobId)
    requires Inv(s) && Balanced(s, id) && Runs(s, steps)
    ensures Balanced(After(s, steps), id)
    decreases |steps|
  {
    if steps != [] {
      Books(s, steps[0], id);
      MessagesStep(s, steps[0], id);
      Conservation(s, steps[0], id);
      StepKeeps(s, steps[0]);
      RunBalances(Apply(s, steps[0]), steps[1..], id);
    }
  }

  /**
   * In every reachable state the failed plus successful attempts on record of a job that entered the stream are its
   * handled messages, and one more for each place beyond the first that it is in. So they agree if and only if the job
   * is in one place, and a job that never entered has nothing on record.
   */
  lemma AuditBalance(maxAttempts: nat, steps: seq<Step>, id: JobId)
    requires maxAttempts >= 1 && Runs(Init(maxAttempts), steps)
    ensures var s := After(Init(maxAttempts), steps);
      && (Messages(s, id) >= 1 ==> Failures(s, id) + Success(s, id) + 1 == Audited(s, id) + Tokens(s, id))
      && (Messages(s, id) >= 1 ==> (Failures(s, id) + Success(s, id) == Audited(s, id) <==> Tokens(s, id) == 1))
      && (Messages(s, id) == 0 ==> Failures(s, id) + Success(s, id) == 0)
  {
    var s := After(Init(maxAttempts), steps);
    InitInv(maxAttempts);
    RunKeeps(Init(maxAttempts), steps);
    RunBalances(Init(maxAttempts), steps, id);
    CountImplied(AuditedOf(id), Of(id), s.stream);
    CountImplied(LiveOf(id), Of(id), s.stream);
  }

  /** In calm runs the failed plus successful attempts on record are exactly the handled messages of the job. */
  lemma CalmAuditBalance(maxAttempts: nat, steps: seq<Step>, id: JobId)
    requires maxAttempts >= 1 && Runs(Init(maxAttempts), steps) && Calm(Init(maxAttempts), steps)
    ensures var s := After(Init(maxAttempts), steps);
      Failures(s, id) + Success(s, id) == Audited(s, id)
  {
    AuditBalance(maxAttempts, steps, id);
    ExactlyOnePlace(maxAttempts, steps, id);
    CountImplied(AuditedOf(id), Of(id), After(Init(maxAttempts), steps).stream);
  }

  // ---------- draining ----------

  /** Statements still to come in the handling of a message. */
  function Remaining(pc: Pc): nat {
    match pc
    case Ready => 11
    case Fetched => 10
    case JobMarked => 9
    case DocMarked => 8
    case Operated => 7
    case Committed => 6
    case Failing => 5
    case JobFailed => 4
    case DocFailed => 3
    case HandedOver => 2
    case Rejected => 2
    case Recorded => 1
    case Finished => 0
  }

  /** An upper bound on the statements a message can still cause, its retries included. */
  function Cost(maxAttempts: nat): Message -> nat {
    (m: Message) =>
      Remaining(m.pc) +
      if m.payload.Queued? && Remaining(m.pc) >= 3 && m.payload.attempts < maxAttempts
      then 12 * (maxAttempts - m.payload.attempts) else 0
  }

  function Work(s: State): nat { Sum(Cost(s.maxAttempts), s.stream) }

  predicate WorkerStep(step: Step) {
    step.Read? || step.Advance? || step.Raise?
  }

  lemma PutWork(s: State, i: nat, m: Message)
    requires i < |s.stream| && Cost(s.maxAttempts)(m) < Cost(s.maxAttempts)(s.stream[i])
    ensures Sum(Cost(s.maxAttempts), s.stream[i := m]) < Work(s)
  {
    SumUpdate(Cost(s.maxAttempts), s.stream, i, m);
  }

  lemma HandOverWork(s: State, i: nat)
    requires i < |s.stream| && s.stream[i].payload.Queued? && s.stream[i].pc == DocFailed
    ensures Work(HandOver(s, i)) < Work(s)
  {
    var Queued(job, attempts) := s.stream[i].payload;
    var cost := Cost(s.maxAttempts);
    var m := s.stream[i].(pc := HandedOver);
    SumUpdate(cost, s.stream, i, m);
    SumAppend(cost, s.stream[i := m], NewMessage(Queued(job, attempts + 1)));
  }

  lemma LaterIsCheaper(s: State, i: nat, m: Message)
    requires i < |s.stream| && m.payload == s.stream[i].payload && Remaining(m.pc) < Remaining(s.stream[i].pc)
    ensures Cost(s.maxAttempts)(m) < Cost(s.maxAttempts)(s.stream[i])
  {
  }

  /** The step only moves message `i` to a later statement. */
  predicate Moves(s: State, i: nat, t: State) {
    && i < |s.stream| && |t.stream| == |s.stream| && t.maxAttempts == s.maxAttempts
    && t.stream == s.stream[i := t.stream[i]]
    && t.stream[i].payload == s.stream[i].payload && Remaining(t.stream[i].pc) < Remaining(s.stream[i].pc)
  }

  lemma BeginMoves(s: State, i: nat)
    requires Running(s, i) && s.stream[i].payload.Queued? && s.stream[i].pc == Fetched
    ensures Moves(s, i, Begin(s, i))
  {
  }

  lemma CommitMoves(s: State, i: nat)
    requires Running(s, i) && s.stream[i].payload.Queued? && s.stream[i].pc == Operated
    ensures Moves(s, i, Commit(s, i))
  {
  }

  lemma WriteMoves(s: State, i: nat)
    requires Running(s, i) && (s.stream[i].payload.Malformed? || s.stream[i].pc != DocFailed)
    ensures Moves(s, i, Advanced(s, i))
  {
    if s.stream[i].payload.Queued? {
      match s.stream[i].pc
      case Fetched => BeginMoves(s, i);
      case Operated => CommitMoves(s, i);
      case _ =>
    }
  }

  lemma AdvanceWork(s: State, i: nat)
    requires Running(s, i)
    ensures Work(Advanced(s, i)) < Work(s)
  {
    if s.stream[i].payload.Queued? && s.stream[i].pc == DocFailed {
      HandOverWork(s, i);
    } else {
      WriteMoves(s, i);
      var m := Advanced(s, i).stream[i];
      LaterIsCheaper(s, i, m);
      PutWork(s, i, m);
    }
  }

  /** Every statement a worker takes, whatever its outcome, uses up some of the remaining work. */
  lemma WorkDecreases(s: State, step: Step)
    requires Enabled(s, step) && WorkerStep(step)
    ensures Work(Apply(s, step)) < Work(s)
  {
    match step
    case Advance(i) => AdvanceWork(s, i);
    case Raise(i, acked) =>
      var m := Raised(s, i, acked).stream[i];
      LaterIsCheaper(s, i, m);
      PutWork(s, i, m);
    case Read(w, i) =>
      var m := s.stream[i].(pc := Fetched, owner := Some(w));
      LaterIsCheaper(s, i, m);
      PutWork(s, i, m);
  }

  function WorkerSteps(steps: seq<Step>): nat { Count((step: Step) => WorkerStep(step), steps) }

  /**
   * Draining: without new requests, workers take at most `Work(s)` more statements from any state, in any
   * interleaving and with any crashes.
   */
  lemma {:induction false} Drain(s: State, steps: seq<Step>)
    requires Runs(s, steps) && forall step | step in steps :: WorkerStep(step) || step.Crash?
    ensures WorkerSteps(steps) + Work(After(s, steps)) <= Work(s)
    decreases |steps|
  {
    if steps != [] {
      if WorkerStep(steps[0]) { WorkDecreases(s, steps[0]); }
      Drain(Apply(s, steps[0]), steps[1..]);
    }
  }

  /** Once every message is finished, each job that entered the stream is dead-lettered or done. */
  lemma DrainedOutcome(s: State, id: JobId)
    requires Inv(s) && Messages(s, id) >= 1
    requires forall i | 0 <= i < |s.stream| :: s.stream[i].pc == Finished
    ensures Dead(s, id) >= 1 || Success(s, id) >= 1
  {
    CountPositive(LiveOf(id), s.stream);
  }
}
