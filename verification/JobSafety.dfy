/** No job is lost, at whatever point workers crash or statements raise. */
module JobSafety {
  import opened Sequences
  import opened JobQueue

  // ---------- what is counted ----------

  predicate IsOf(m: Message, id: JobId) {
    m.payload.Queued? && m.payload.job.id == id
  }

  /** Handling has not yet passed the job on: neither success committed nor retry or dead letter appended. */
  predicate LivePc(pc: Pc) {
    pc != Committed && pc != HandedOver && pc != Recorded && pc != Rejected && pc != Finished
  }

  /** Handling may still hand the job over: live, or committed but not yet acknowledged. */
  predicate HoldingPc(pc: Pc) {
    LivePc(pc) || pc == Committed
  }

  function Of(id: JobId): Message -> bool { (m: Message) => IsOf(m, id) }
  function LiveOf(id: JobId): Message -> bool { (m: Message) => IsOf(m, id) && LivePc(m.pc) }
  function HoldingOf(id: JobId): Message -> bool { (m: Message) => IsOf(m, id) && HoldingPc(m.pc) }
  function DeadOf(id: JobId): DeadLetter -> bool { (d: DeadLetter) => d.Exhausted? && d.job == id }
  function SuccessOf(id: JobId): Event -> bool { (e: Event) => e.Succeeded? && e.job == id }

  /** Stream messages, holders, dead letters and success events of one job. */
  function Messages(s: State, id: JobId): nat { Count(Of(id), s.stream) }
  function Live(s: State, id: JobId): nat { Count(LiveOf(id), s.stream) }
  function Holding(s: State, id: JobId): nat { Count(HoldingOf(id), s.stream) }
  function Dead(s: State, id: JobId): nat { Count(DeadOf(id), s.dead) }
  function Success(s: State, id: JobId): nat { Count(SuccessOf(id), s.audit) }

  /** The places where a job can be: waiting to be handled, dead-lettered or successfully done. */
  function Tokens(s: State, id: JobId): nat {
    Live(s, id) + Dead(s, id) + Success(s, id)
  }

  // ---------- the invariant ----------

  /** Requested jobs are new: no message of theirs exists and their ids are reserved. */
  ghost predicate RequestsOk(s: State) {
    && (forall job | job in s.requested :: Messages(s, job.id) == 0 && job.id in s.usedIds)
    && (forall a, b | a in s.requested && b in s.requested && a.id == b.id :: a == b)
    && (forall i | 0 <= i < |s.stream| && s.stream[i].payload.Queued? :: s.stream[i].payload.job.id in s.usedIds)
  }

  /** The messages of a job carry the attempts 0, 1, 2, ... in stream order. */
  ghost predicate ChainOk(s: State) {
    forall i | 0 <= i < |s.stream| && s.stream[i].payload.Queued? ::
      && s.stream[i].payload.attempts == Count(Of(s.stream[i].payload.job.id), s.stream[..i])
      && s.stream[i].payload.attempts < s.maxAttempts
  }

  /** At most one message of a job can still hand it over, and never after its dead letter. */
  ghost predicate HoldOk(s: State) {
    forall id :: Holding(s, id) + Dead(s, id) <= 1
  }

  /** A message that can still hand its job over is the job's newest. */
  ghost predicate LastOk(s: State) {
    forall i | 0 <= i < |s.stream| && s.stream[i].payload.Queued? && HoldingPc(s.stream[i].pc) ::
      s.stream[i].payload.attempts + 1 == Messages(s, s.stream[i].payload.job.id)
  }

  /** A job row only says succeeded when a success event was committed. */
  ghost predicate RowsOk(s: State) {
    forall id | AlreadySucceeded(s, id) :: Success(s, id) >= 1
  }

  /** Commits and early acknowledgements are backed by a success event. */
  ghost predicate AckOk(s: State) {
    forall i | 0 <= i < |s.stream| && s.stream[i].payload.Queued? && HoldingPc(s.stream[i].pc)
      && (s.stream[i].acked || s.stream[i].pc == Committed) ::
      Success(s, s.stream[i].payload.job.id) >= 1
  }

  /** A dead letter for exhausted retries carries exactly the maximum. */
  ghost predicate DeadOk(s: State) {
    forall d | d in s.dead && d.Exhausted? :: d.attempts == s.maxAttempts
  }

  /** Dead letters and success events only exist for jobs that were in the stream. */
  ghost predicate OriginOk(s: State) {
    forall id :: Dead(s, id) + Success(s, id) >= 1 ==> Messages(s, id) >= 1
  }

  ghost predicate TokensOk(s: State) {
    forall id :: Messages(s, id) >= 1 ==> Tokens(s, id) >= 1
  }

  ghost predicate Inv(s: State) {
    && s.maxAttempts >= 1
    && RequestsOk(s) && ChainOk(s) && HoldOk(s) && LastOk(s) && RowsOk(s) && AckOk(s) && DeadOk(s) && OriginOk(s) && TokensOk(s)
  }

  lemma InitInv(maxAttempts: nat)
    requires maxAttempts >= 1
    ensures Inv(Init(maxAttempts))
  {
  }

  // ---------- steps that move a message without changing where its job is ----------

  predicate Same(m: Message, n: Message) {
    && n.payload == m.payload
    && LivePc(n.pc) == LivePc(m.pc) && HoldingPc(n.pc) == HoldingPc(m.pc)
    && (n.acked && HoldingPc(n.pc) ==> m.acked)
  }

  ghost predicate Quiet(s: State, t: State) {
    && t.maxAttempts == s.maxAttempts && t.requested == s.requested && t.usedIds == s.usedIds
    && |t.stream| == |s.stream|
    && (forall i | 0 <= i < |s.stream| :: Same(s.stream[i], t.stream[i]))
    && (t.dead == s.dead || t.dead == s.dead + [BadMessage])
    && (t.audit == s.audit || exists e: Event :: !e.Succeeded? && t.audit == s.audit + [e])
    && (forall id | AlreadySucceeded(t, id) :: AlreadySucceeded(s, id))
  }

  lemma {:induction false} CountPointwise<T>(p: T -> bool, a: seq<T>, b: seq<T>)
    requires |a| == |b| && forall i | 0 <= i < |a| :: p(a[i]) == p(b[i])
    ensures Count(p, a) == Count(p, b)
  {
    if |a| > 0 { CountPointwise(p, a[1..], b[1..]); }
  }

  lemma QuietCounts(s: State, t: State, id: JobId)
    requires Quiet(s, t)
    ensures Messages(t, id) == Messages(s, id) && Live(t, id) == Live(s, id) && Holding(t, id) == Holding(s, id)
    ensures Dead(t, id) == Dead(s, id) && Success(t, id) == Success(s, id)
  {
    CountPointwise(Of(id), s.stream, t.stream);
    CountPointwise(LiveOf(id), s.stream, t.stream);
    CountPointwise(HoldingOf(id), s.stream, t.stream);
    CountAppend(DeadOf(id), s.dead, BadMessage);
    if t.audit != s.audit {
      var e: Event :| !e.Succeeded? && t.audit == s.audit + [e];
      CountAppend(SuccessOf(id), s.audit, e);
    }
  }

  lemma QuietKeeps(s: State, t: State)
    requires Inv(s) && Quiet(s, t)
    ensures Inv(t)
  {
    forall id
      ensures Messages(t, id) == Messages(s, id) && Live(t, id) == Live(s, id) && Holding(t, id) == Holding(s, id)
      ensures Dead(t, id) == Dead(s, id) && Success(t, id) == Success(s, id)
    {
      QuietCounts(s, t, id);
    }
    forall i | 0 <= i < |s.stream| && s.stream[i].payload.Queued?
      ensures Count(Of(s.stream[i].payload.job.id), t.stream[..i]) == Count(Of(s.stream[i].payload.job.id), s.stream[..i])
    {
      CountPointwise(Of(s.stream[i].payload.job.id), s.stream[..i], t.stream[..i]);
    }
  }

  // ---------- steps that change where a job is ----------

  /** The invariant, except that one job may be nowhere. */
  ghost predicate InvBut(s: State, id: JobId) {
    && s.maxAttempts >= 1
    && RequestsOk(s) && ChainOk(s) && HoldOk(s) && LastOk(s) && RowsOk(s) && AckOk(s) && DeadOk(s) && OriginOk(s)
    && forall other :: other != id && Messages(s, other) >= 1 ==> Tokens(s, other) >= 1
  }

  function Bit(b: bool): nat { if b then 1 else 0 }

  lemma PutCounts(s: State, i: nat, m: Message, id: JobId)
    requires i < |s.stream| && m.payload == s.stream[i].payload
    ensures var t := Put(s, i, m);
      && Messages(t, id) == Messages(s, id)
      && Live(t, id) + Bit(LiveOf(id)(s.stream[i])) == Live(s, id) + Bit(LiveOf(id)(m))
      && Holding(t, id) + Bit(HoldingOf(id)(s.stream[i])) == Holding(s, id) + Bit(HoldingOf(id)(m))
  {
    CountUpdate(Of(id), s.stream, i, m);
    CountUpdate(LiveOf(id), s.stream, i, m);
    CountUpdate(HoldingOf(id), s.stream, i, m);
  }

  lemma PutPrefix(s: State, i: nat, m: Message, k: nat, id: JobId)
    requires i < |s.stream| && k <= |s.stream| && m.payload == s.stream[i].payload
    ensures Count(Of(id), Put(s, i, m).stream[..k]) == Count(Of(id), s.stream[..k])
  {
    CountPointwise(Of(id), Put(s, i, m).stream[..k], s.stream[..k]);
  }

  /** The parts of the invariant that only depend on payloads. */
  lemma PutKeepsChain(s: State, i: nat, m: Message)
    requires Inv(s) && i < |s.stream| && m.payload == s.stream[i].payload
    ensures var t := Put(s, i, m); RequestsOk(t) && ChainOk(t) && RowsOk(t) && DeadOk(t)
  {
    var t := Put(s, i, m);
    forall id ensures Messages(t, id) == Messages(s, id) {
      PutCounts(s, i, m, id);
    }
    forall k | 0 <= k < |t.stream| && t.stream[k].payload.Queued?
      ensures t.stream[k].payload.attempts == Count(Of(t.stream[k].payload.job.id), t.stream[..k])
    {
      PutPrefix(s, i, m, k, t.stream[k].payload.job.id);
    }
    assert forall id :: AlreadySucceeded(t, id) ==> AlreadySucceeded(s, id);
  }

  /** The message stops holding its job. */
  lemma LeaveHolding(s: State, i: nat, m: Message)
    requires Inv(s) && i < |s.stream| && m.payload == s.stream[i].payload && m.payload.Queued?
    requires HoldingPc(s.stream[i].pc) && !HoldingPc(m.pc)
    ensures var t, id := Put(s, i, m), m.payload.job.id;
      && InvBut(t, id) && Holding(t, id) == 0 && Dead(t, id) == 0 && Messages(t, id) == m.payload.attempts + 1
      && ((!LivePc(s.stream[i].pc) || Success(s, id) >= 1) ==> Inv(t))
  {
    var t, id := Put(s, i, m), m.payload.job.id;
    PutKeepsChain(s, i, m);
    forall other
      ensures Messages(t, other) == Messages(s, other)
      ensures other != id ==> Live(t, other) == Live(s, other) && Holding(t, other) == Holding(s, other)
      ensures other == id ==> Holding(t, id) + 1 == Holding(s, id) && Live(t, id) + Bit(LivePc(s.stream[i].pc)) == Live(s, id)
    {
      PutCounts(s, i, m, other);
    }
  }

  /** The message keeps holding its job and is live afterwards. */
  lemma StayHolding(s: State, i: nat, m: Message)
    requires Inv(s) && i < |s.stream| && m.payload == s.stream[i].payload && m.payload.Queued?
    requires HoldingPc(s.stream[i].pc) && LivePc(m.pc)
    requires m.acked ==> s.stream[i].acked || Success(s, m.payload.job.id) >= 1
    ensures Inv(Put(s, i, m))
  {
    var t, id := Put(s, i, m), m.payload.job.id;
    PutKeepsChain(s, i, m);
    forall other
      ensures Messages(t, other) == Messages(s, other) && Holding(t, other) == Holding(s, other)
      ensures Live(t, other) >= Live(s, other)
    {
      PutCounts(s, i, m, other);
    }
  }

  function Append(s: State, payload: Payload): State {
    s.(stream := s.stream + [NewMessage(payload)])
  }

  lemma AppendCounts(s: State, payload: Payload, id: JobId)
    ensures var t, mine := Append(s, payload), Bit(payload.Queued? && payload.job.id == id);
      && Messages(t, id) == Messages(s, id) + mine
      && Live(t, id) == Live(s, id) + mine && Holding(t, id) == Holding(s, id) + mine
  {
    CountAppend(Of(id), s.stream, NewMessage(payload));
    CountAppend(LiveOf(id), s.stream, NewMessage(payload));
    CountAppend(HoldingOf(id), s.stream, NewMessage(payload));
  }

  lemma AppendPrefix(s: State, payload: Payload, k: nat)
    requires k <= |s.stream|
    ensures Append(s, payload).stream[..k] == s.stream[..k]
    ensures Append(s, payload).stream[..|s.stream|] == s.stream
  {
  }

  lemma AppendChain(s: State, payload: Payload)
    requires ChainOk(s)
    requires payload.Queued? ==> payload.attempts == Messages(s, payload.job.id) && payload.attempts < s.maxAttempts
    ensures ChainOk(Append(s, payload))
  {
    var t := Append(s, payload);
    forall k | 0 <= k < |t.stream| && t.stream[k].payload.Queued?
      ensures t.stream[k].payload.attempts == Count(Of(t.stream[k].payload.job.id), t.stream[..k])
      ensures t.stream[k].payload.attempts < t.maxAttempts
    {
      AppendPrefix(s, payload, k);
      if k < |s.stream| { assert t.stream[k] == s.stream[k]; }
    }
  }

  /** A job that is nowhere enters the stream (first enqueue or retry). */
  lemma AppendJob(s: State, job: Job, attempts: nat)
    requires InvBut(s, job.id) && Holding(s, job.id) == 0 && Dead(s, job.id) == 0
    requires attempts == Messages(s, job.id) && attempts < s.maxAttempts
    requires job.id in s.usedIds && forall r | r in s.requested :: r.id != job.id
    ensures Inv(Append(s, Queued(job, attempts)))
  {
    var payload := Queued(job, attempts);
    var t := Append(s, payload);
    AppendChain(s, payload);
    forall id
      ensures Messages(t, id) == Messages(s, id) + Bit(job.id == id)
      ensures Live(t, id) == Live(s, id) + Bit(job.id == id)
      ensures Holding(t, id) == Holding(s, id) + Bit(job.id == id)
    {
      AppendCounts(s, payload, id);
    }
    assert forall id :: AlreadySucceeded(t, id) ==> AlreadySucceeded(s, id);
    assert LastOk(t) by { AppendLast(s, job, attempts); }
  }

  lemma HolderCounts(s: State, i: nat, id: JobId)
    requires i < |s.stream| && HoldingOf(id)(s.stream[i])
    ensures Holding(s, id) >= 1
  {
    CountPositive(HoldingOf(id), s.stream);
  }

  lemma AppendLast(s: State, job: Job, attempts: nat)
    requires LastOk(s) && Holding(s, job.id) == 0 && attempts == Messages(s, job.id)
    ensures LastOk(Append(s, Queued(job, attempts)))
  {
    var t := Append(s, Queued(job, attempts));
    forall i | 0 <= i < |t.stream| && t.stream[i].payload.Queued? && HoldingPc(t.stream[i].pc)
      ensures t.stream[i].payload.attempts + 1 == Messages(t, t.stream[i].payload.job.id)
    {
      var id := t.stream[i].payload.job.id;
      AppendCounts(s, Queued(job, attempts), id);
      if i < |s.stream| {
        assert t.stream[i] == s.stream[i];
        if id == job.id { HolderCounts(s, i, id); }
      }
    }
  }

  /** A job that is nowhere is dead-lettered. */
  lemma AppendDead(s: State, id: JobId)
    requires InvBut(s, id) && Holding(s, id) == 0 && Dead(s, id) == 0 && Messages(s, id) >= 1
    ensures Inv(s.(dead := s.dead + [Exhausted(id, s.maxAttempts)]))
  {
    var t := s.(dead := s.dead + [Exhausted(id, s.maxAttempts)]);
    forall other ensures Dead(t, other) == Dead(s, other) + Bit(other == id) {
      CountAppend(DeadOf(other), s.dead, Exhausted(id, s.maxAttempts));
    }
    assert forall other :: AlreadySucceeded(t, other) ==> AlreadySucceeded(s, other);
    assert forall other :: Messages(t, other) == Messages(s, other) && Live(t, other) == Live(s, other);
    assert forall other :: Holding(t, other) == Holding(s, other) && Success(t, other) == Success(s, other);
  }

  /** Nothing of any job is counted differently. */
  ghost predicate SameCounts(s: State, t: State) {
    forall id :: Messages(t, id) == Messages(s, id) && Live(t, id) == Live(s, id) && Holding(t, id) == Holding(s, id)
  }

  lemma MalformedMessages(s: State)
    requires RequestsOk(s) && LastOk(s) && AckOk(s) && SameCounts(s, Append(s, Malformed))
    ensures var t := Append(s, Malformed); RequestsOk(t) && LastOk(t) && AckOk(t)
  {
    var t := Append(s, Malformed);
    assert forall i | 0 <= i < |t.stream| && t.stream[i].payload.Queued? :: i < |s.stream| && t.stream[i] == s.stream[i];
  }

  lemma MalformedKeeps(s: State)
    requires Inv(s)
    ensures Inv(Append(s, Malformed))
  {
    var t := Append(s, Malformed);
    forall id ensures Messages(t, id) == Messages(s, id) && Live(t, id) == Live(s, id) && Holding(t, id) == Holding(s, id) {
      AppendCounts(s, Malformed, id);
    }
    AppendChain(s, Malformed);
    MalformedMessages(s);
    assert forall id :: AlreadySucceeded(t, id) ==> AlreadySucceeded(s, id);
    assert HoldOk(t) && OriginOk(t) && TokensOk(t);
  }

  // ---------- the steps ----------

  lemma HandOverKeeps(s: State, i: nat)
    requires Inv(s) && i < |s.stream| && s.stream[i].payload.Queued? && s.stream[i].pc == DocFailed
    ensures Inv(HandOver(s, i))
  {
    if Exhausts(s, s.stream[i].payload.attempts) { DeadLetterKeeps(s, i); } else { RetryKeeps(s, i); }
  }

  lemma DeadLetterKeeps(s: State, i: nat)
    requires Inv(s) && i < |s.stream| && s.stream[i].payload.Queued? && s.stream[i].pc == DocFailed
    requires Exhausts(s, s.stream[i].payload.attempts)
    ensures Inv(HandOver(s, i))
  {
    var m := s.stream[i].(pc := HandedOver);
    LeaveHolding(s, i, m);
    AppendDead(Put(s, i, m), m.payload.job.id);
  }

  lemma RetryKeeps(s: State, i: nat)
    requires Inv(s) && i < |s.stream| && s.stream[i].payload.Queued? && s.stream[i].pc == DocFailed
    requires !Exhausts(s, s.stream[i].payload.attempts)
    ensures Inv(HandOver(s, i))
  {
    var m := s.stream[i].(pc := HandedOver);
    LeaveHolding(s, i, m);
    Reserved(s, i);
    AppendJob(Put(s, i, m), m.payload.job, m.payload.attempts + 1);
  }

  /** A job in the stream has a reserved id and is not waiting to be queued. */
  lemma Reserved(s: State, i: nat)
    requires RequestsOk(s) && i < |s.stream| && s.stream[i].payload.Queued?
    ensures s.stream[i].payload.job.id in s.usedIds
    ensures forall r | r in s.requested :: r.id != s.stream[i].payload.job.id
  {
    MessageCounts(s, i);
  }

  /** Committing success moves the job's token from the message to the audit log. */
  lemma CommitCounts(s: State, i: nat, t: State, id: JobId)
    requires i < |s.stream| && s.stream[i].payload.Queued? && s.stream[i].pc == Operated
    requires t.stream == SetPc(s, i, Committed).stream
    requires t.audit == s.audit + [Succeeded(s.stream[i].payload.job.id, s.stream[i].payload.attempts + 1)]
    ensures var mine := Bit(s.stream[i].payload.job.id == id);
      && Messages(t, id) == Messages(s, id) && Holding(t, id) == Holding(s, id)
      && Live(t, id) + mine == Live(s, id) && Success(t, id) == Success(s, id) + mine
  {
    PutCounts(s, i, s.stream[i].(pc := Committed), id);
    CountAppend(SuccessOf(id), s.audit, Succeeded(s.stream[i].payload.job.id, s.stream[i].payload.attempts + 1));
  }

  /** `t` is `s` with message `i` marked committed and its success event appended, whatever became of the rows. */
  predicate Commits(s: State, i: nat, t: State) {
    && i < |s.stream| && s.stream[i].payload.Queued? && s.stream[i].pc == Operated
    && t.stream == SetPc(s, i, Committed).stream
    && t.audit == s.audit + [Succeeded(s.stream[i].payload.job.id, s.stream[i].payload.attempts + 1)]
    && t.maxAttempts == s.maxAttempts && t.requested == s.requested && t.usedIds == s.usedIds && t.dead == s.dead
  }

  ghost predicate CountsAfterCommit(s: State, i: nat, t: State)
    requires Commits(s, i, t)
  {
    forall id ::
      && Messages(t, id) == Messages(s, id) && Holding(t, id) == Holding(s, id) && Dead(t, id) == Dead(s, id)
      && Tokens(t, id) == Tokens(s, id)
      && Success(t, id) == Success(s, id) + Bit(s.stream[i].payload.job.id == id)
  }

  lemma CommitCountsAll(s: State, i: nat, t: State)
    requires Commits(s, i, t)
    ensures CountsAfterCommit(s, i, t)
  {
    forall id
      ensures Messages(t, id) == Messages(s, id) && Holding(t, id) == Holding(s, id) && Dead(t, id) == Dead(s, id)
      ensures Tokens(t, id) == Tokens(s, id) && Success(t, id) == Success(s, id) + Bit(s.stream[i].payload.job.id == id)
    {
      CommitCounts(s, i, t, id);
    }
  }

  lemma CommitTotals(s: State, i: nat, t: State)
    requires Inv(s) && Commits(s, i, t) && CountsAfterCommit(s, i, t)
    ensures HoldOk(t) && OriginOk(t) && TokensOk(t)
  {
    MessageCounts(s, i);
  }

  lemma CommitHolders(s: State, i: nat, t: State)
    requires LastOk(s) && AckOk(s) && Commits(s, i, t) && CountsAfterCommit(s, i, t)
    ensures LastOk(t) && AckOk(t)
  {
    forall k | 0 <= k < |t.stream| && t.stream[k].payload.Queued? && HoldingPc(t.stream[k].pc)
      ensures t.stream[k].payload.attempts + 1 == Messages(t, t.stream[k].payload.job.id)
      ensures t.stream[k].acked || t.stream[k].pc == Committed ==> Success(t, t.stream[k].payload.job.id) >= 1
    {
      if k != i { assert t.stream[k] == s.stream[k]; }
    }
  }

  lemma CommitChain(s: State, i: nat, t: State)
    requires Inv(s) && Commits(s, i, t)
    ensures RequestsOk(t) && ChainOk(t) && DeadOk(t)
  {
    var u := Put(s, i, s.stream[i].(pc := Committed));
    PutKeepsChain(s, i, s.stream[i].(pc := Committed));
    assert t.stream == u.stream;
    assert forall id :: Messages(t, id) == Messages(u, id);
  }

  lemma CommittedKeeps(s: State, i: nat, t: State)
    requires Inv(s) && Commits(s, i, t)
    requires forall id | AlreadySucceeded(t, id) :: AlreadySucceeded(s, id) || id == s.stream[i].payload.job.id
    ensures Inv(t)
  {
    CommitChain(s, i, t);
    CommitCountsAll(s, i, t);
    CommitTotals(s, i, t);
    CommitHolders(s, i, t);
    assert RowsOk(t);
  }

  lemma MessageCounts(s: State, i: nat)
    requires i < |s.stream| && s.stream[i].payload.Queued?
    ensures Messages(s, s.stream[i].payload.job.id) >= 1
  {
    var id := s.stream[i].payload.job.id;
    assert Of(id)(s.stream[i]);
    CountPositive(Of(id), s.stream);
  }

  lemma CommitKeeps(s: State, i: nat)
    requires Inv(s) && i < |s.stream| && s.stream[i].payload.Queued? && s.stream[i].pc == Operated
    ensures Inv(Commit(s, i))
  {
    var job := s.stream[i].payload.job;
    if job.id !in s.jobs || (job.operation == Delete && job.doc !in s.docs) {
      StayHolding(s, i, s.stream[i].(pc := Failing));
    } else {
      CommittedKeeps(s, i, Commit(s, i));
    }
  }

  lemma AckKeeps(s: State, i: nat)
    requires Inv(s) && i < |s.stream|
    requires LivePc(s.stream[i].pc) && s.stream[i].payload.Queued? ==> AlreadySucceeded(s, s.stream[i].payload.job.id)
    requires s.stream[i].payload.Malformed? ==> !HoldingPc(s.stream[i].pc)
    ensures Inv(Ack(s, i))
  {
    var m := s.stream[i].(pc := Finished, acked := true);
    if HoldingPc(s.stream[i].pc) {
      LeaveHolding(s, i, m);
    } else {
      QuietKeeps(s, Ack(s, i));
    }
  }

  lemma BeginKeeps(s: State, i: nat)
    requires Inv(s) && i < |s.stream| && s.stream[i].payload.Queued? && s.stream[i].pc == Fetched
    ensures Inv(Begin(s, i))
  {
    var job := s.stream[i].payload.job;
    if AlreadySucceeded(s, job.id) {
      AckKeeps(s, i);
    } else {
      BeginQuiet(s, i);
      QuietKeeps(s, Begin(s, i));
    }
  }

  lemma BeginQuiet(s: State, i: nat)
    requires i < |s.stream| && s.stream[i].payload.Queued? && s.stream[i].pc == Fetched
    requires !AlreadySucceeded(s, s.stream[i].payload.job.id)
    ensures Quiet(s, Begin(s, i))
  {
  }

  lemma RejectKeeps(s: State, i: nat)
    requires Inv(s) && i < |s.stream| && s.stream[i].payload.Malformed? && s.stream[i].pc == Fetched
    ensures Inv(Reject(s, i))
  {
    var t := Reject(s, i);
    var m := s.stream[i].(pc := Rejected);
    PutKeepsChain(s, i, m);
    forall id
      ensures Messages(t, id) == Messages(s, id) && Live(t, id) == Live(s, id) && Holding(t, id) == Holding(s, id)
      ensures Dead(t, id) == Dead(s, id)
    {
      PutCounts(s, i, m, id);
      CountAppend(DeadOf(id), s.dead, BadMessage);
    }
    assert forall id :: Success(t, id) == Success(s, id);
    assert RowsOk(t) by { assert forall id :: AlreadySucceeded(t, id) ==> AlreadySucceeded(s, id); }
    assert ChainOk(t);
  }

  lemma RecordKeeps(s: State, i: nat)
    requires Inv(s) && i < |s.stream| && s.stream[i].payload.Queued? && s.stream[i].pc == HandedOver
    ensures Inv(RecordFailure(s, i))
  {
    var Queued(job, attempts) := s.stream[i].payload;
    var e := AttemptFailed(job.id, attempts + 1, !Exhausts(s, attempts));
    assert !e.Succeeded? && RecordFailure(s, i).audit == s.audit + [e];
    QuietKeeps(s, RecordFailure(s, i));
  }

  lemma MarkKeeps(s: State, i: nat)
    requires Inv(s) && i < |s.stream| && s.stream[i].payload.Queued? && s.stream[i].pc == JobMarked
    ensures Inv(MarkDocument(s, i))
  {
    QuietKeeps(s, MarkDocument(s, i));
  }

  lemma OperateKeeps(s: State, i: nat)
    requires Inv(s) && i < |s.stream| && s.stream[i].payload.Queued? && s.stream[i].pc == DocMarked
    ensures Inv(Operate(s, i))
  {
    QuietKeeps(s, Operate(s, i));
  }

  lemma FailJobKeeps(s: State, i: nat)
    requires Inv(s) && i < |s.stream| && s.stream[i].payload.Queued? && s.stream[i].pc == Failing
    ensures Inv(FailJob(s, i))
  {
    QuietKeeps(s, FailJob(s, i));
  }

  lemma FailDocumentKeeps(s: State, i: nat)
    requires Inv(s) && i < |s.stream| && s.stream[i].payload.Queued? && s.stream[i].pc == JobFailed
    ensures Inv(FailDocument(s, i))
  {
    QuietKeeps(s, FailDocument(s, i));
  }

  lemma AdvanceKeeps(s: State, i: nat)
    requires Inv(s) && Running(s, i)
    ensures Inv(Advanced(s, i))
  {
    if s.stream[i].payload.Malformed? {
      if s.stream[i].pc == Fetched { RejectKeeps(s, i); } else { AckKeeps(s, i); }
    } else {
      match s.stream[i].pc
      case Fetched => BeginKeeps(s, i);
      case Operated => CommitKeeps(s, i);
      case DocFailed => HandOverKeeps(s, i);
      case HandedOver => RecordKeeps(s, i);
      case JobMarked => MarkKeeps(s, i);
      case DocMarked => OperateKeeps(s, i);
      case Failing => FailJobKeeps(s, i);
      case JobFailed => FailDocumentKeeps(s, i);
      case _ => AckKeeps(s, i);
    }
  }

  lemma RaiseKeeps(s: State, i: nat, acked: bool)
    requires Inv(s) && Enabled(s, Raise(i, acked))
    ensures Inv(Raised(s, i, acked))
  {
    var m := s.stream[i];
    StayHolding(s, i, m.(pc := Failing, acked := m.acked || acked, started := m.started || m.pc == DocMarked));
  }

  lemma NothingYet(s: State, id: JobId)
    requires Inv(s) && Messages(s, id) == 0
    ensures Holding(s, id) == 0 && Dead(s, id) == 0 && Success(s, id) == 0
  {
    CountImplied(HoldingOf(id), Of(id), s.stream);
  }

  lemma EnqueueKeeps(s: State, job: Job)
    requires Inv(s) && job in s.requested
    ensures Inv(Apply(s, Enqueue(job)))
  {
    var t := s.(requested := s.requested - {job});
    assert Inv(t) by { QuietRequests(s, job); }
    NothingYet(s, job.id);
    AppendJob(t, job, 0);
    assert Apply(s, Enqueue(job)) == Append(t, Queued(job, 0));
  }

  lemma QuietRequests(s: State, job: Job)
    requires Inv(s)
    ensures Inv(s.(requested := s.requested - {job}))
  {
    var t := s.(requested := s.requested - {job});
    assert forall id :: Messages(t, id) == Messages(s, id) && Live(t, id) == Live(s, id) && Holding(t, id) == Holding(s, id);
    assert forall id :: Dead(t, id) == Dead(s, id) && Success(t, id) == Success(s, id);
    assert forall id :: AlreadySucceeded(t, id) ==> AlreadySucceeded(s, id);
  }

  lemma RequestKeeps(s: State, job: Job)
    requires Inv(s) && Enabled(s, Request(job))
    ensures Inv(Apply(s, Request(job)))
  {
    var t := Apply(s, Request(job));
    forall id ensures Success(t, id) == Success(s, id) {
      CountAppend(SuccessOf(id), s.audit, Requested(job.id));
    }
    if Messages(s, job.id) >= 1 { UsedIds(s, job.id); }
    assert forall id :: Messages(t, id) == Messages(s, id) && Live(t, id) == Live(s, id) && Holding(t, id) == Holding(s, id);
    assert forall id :: Dead(t, id) == Dead(s, id);
    assert forall id :: AlreadySucceeded(t, id) ==> AlreadySucceeded(s, id);
  }

  lemma UsedIds(s: State, id: JobId)
    requires RequestsOk(s) && Messages(s, id) >= 1
    ensures id in s.usedIds
  {
    CountPositive(Of(id), s.stream);
  }

  lemma EnqueueRaisesKeeps(s: State, job: Job, applied: bool)
    requires Inv(s) && job in s.requested
    ensures Inv(Apply(s, EnqueueRaises(job, applied)))
  {
    EnqueueKeeps(s, job);
    QuietRequests(s, job);
    var u := if applied then Apply(s, Enqueue(job)) else s.(requested := s.requested - {job});
    QuietKeeps(u, Apply(s, EnqueueRaises(job, applied)));
  }

  lemma FailRequestKeeps(s: State, f: FailedRequest)
    requires Inv(s) && f in s.refused
    ensures Inv(RefusedOnce(s, f))
  {
    var e := EnqueueFailed(f.job.id);
    assert !e.Succeeded?;
    assert f.next == EventNext ==> RefusedOnce(s, f).audit == s.audit + [e];
    QuietKeeps(s, RefusedOnce(s, f));
  }

  lemma QuietStep(s: State, step: Step)
    requires Inv(s) && Enabled(s, step)
    requires step.AddDocument? || step.SetDocument? || step.Read? || step.Crash?
    ensures Inv(Apply(s, step))
  {
    QuietKeeps(s, Apply(s, step));
  }

  lemma StepKeeps(s: State, step: Step)
    requires Inv(s) && Enabled(s, step)
    ensures Inv(Apply(s, step))
  {
    match step
    case Request(job) => RequestKeeps(s, job);
    case Enqueue(job) => EnqueueKeeps(s, job);
    case EnqueueRaises(job, applied) => EnqueueRaisesKeeps(s, job, applied);
    case FailRequest(f) => FailRequestKeeps(s, f);
    case Inject => MalformedKeeps(s);
    case Advance(i) => AdvanceKeeps(s, i);
    case Raise(i, acked) => RaiseKeeps(s, i, acked);
    case _ => QuietStep(s, step);
  }

  lemma {:induction false} RunKeeps(s: State, steps: seq<Step>)
    requires Inv(s) && Runs(s, steps)
    ensures Inv(After(s, steps))
    decreases |steps|
  {
    if steps != [] {
      StepKeeps(s, steps[0]);
      RunKeeps(Apply(s, steps[0]), steps[1..]);
    }
  }

  // ---------- main results ----------

  /**
   * In every reachable state each job that ever entered the stream has an unacknowledged message, a dead letter
   * or a committed success event.
   */
  lemma NoJobLost(maxAttempts: nat, steps: seq<Step>, id: JobId)
    requires maxAttempts >= 1 && Runs(Init(maxAttempts), steps)
    ensures var s := After(Init(maxAttempts), steps);
      Messages(s, id) >= 1 ==>
        || (exists i :: 0 <= i < |s.stream| && IsOf(s.stream[i], id) && !s.stream[i].acked)
        || Dead(s, id) >= 1 || Success(s, id) >= 1
  {
    InitInv(maxAttempts);
    RunKeeps(Init(maxAttempts), steps);
    var s := After(Init(maxAttempts), steps);
    if Messages(s, id) >= 1 && Live(s, id) >= 1 {
      CountPositive(LiveOf(id), s.stream);
      var i :| 0 <= i < |s.stream| && LiveOf(id)(s.stream[i]);
      assert IsOf(s.stream[i], id);
    }
  }
}
