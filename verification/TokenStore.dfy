/**
 * The access-token store of the web client (frontend auth.ts): tokens set and cleared at any time, at most one
 * development-token request in flight, and answers that arrive late.
 */
module TokenStore {
  import opened Wrappers
  import opened Text

  datatype Status = Initializing | Authenticated | Unauthenticated

  datatype Source = Development | Oidc

  datatype Snapshot = Snapshot(status: Status, source: Option<Source>, error: Option<string>)

  /** How a development-token request ends: a well-formed token answer, or any error. */
  datatype Answer = Granted(token: string) | Refused(error: string)

  const EMPTY_TOKEN := "访问令牌不能为空"

  datatype State = State(
    token: Option<string>,
    revision: nat,
    snapshot: Snapshot,
    inFlight: Option<nat>,    // the revision the request in flight began at
    started: nat,             // requests sent so far
    finished: nat)            // requests answered so far

  datatype Event =
    | SetToken(token: string, source: Source)
    | Clear
    | Request
    | Answered(answer: Answer)
    | Unauthorized(token: string)    // a 401 for a call made with this token

  const START := State(None, 0, Snapshot(Initializing, None, None), None, 0, 0)

  function Trim(s: string): string {
    Strip(s, JsSpace)
  }

  function Set(s: State, token: string, source: Source): State {
    s.(revision := s.revision + 1, token := Some(Trim(token)), snapshot := Snapshot(Authenticated, Some(source), None))
  }

  function Cleared(s: State): State {
    s.(revision := s.revision + 1, token := None, snapshot := Snapshot(Unauthenticated, None, None))
  }

  function Failed(s: State, error: string): State {
    s.(snapshot := Snapshot(Unauthenticated, None, Some(error)))
  }

  /** The end of the request that began at `began`. */
  function Finish(s: State, began: nat, answer: Answer): State {
    var done := s.(inFlight := None, finished := s.finished + 1);
    if s.revision != began || s.token.Some? then done
    else
      match answer
      case Granted(token) => if Trim(token) == "" then Failed(done, EMPTY_TOKEN) else Set(done, token, Development)
      case Refused(error) => Failed(done, error)
  }

  function Next(s: State, e: Event): State {
    match e
    case SetToken(token, source) => if Trim(token) == "" then s else Set(s, token, source)
    case Clear => Cleared(s)
    case Request =>
      if s.token.Some? || s.inFlight.Some? then s
      else s.(snapshot := Snapshot(Initializing, None, None), inFlight := Some(s.revision), started := s.started + 1)
    case Answered(answer) => if s.inFlight.None? then s else Finish(s, s.inFlight.value, answer)
    case Unauthorized(token) => if s.token == Some(token) then Cleared(s) else s
  }

  function Run(s: State, events: seq<Event>): State
    decreases |events|
  {
    if |events| == 0 then s else Run(Next(s, events[0]), events[1..])
  }

  // ---------- the module's functions ----------

  class Store {
    var accessToken: Option<string>
    var tokenRevision: nat
    var snapshot: Snapshot
    var request: Option<nat>
    ghost var started: nat
    ghost var finished: nat

    ghost function Abstract(): State
      reads this
    {
      State(accessToken, tokenRevision, snapshot, request, started, finished)
    }

    constructor ()
      ensures Abstract() == START
    {
      accessToken, tokenRevision, snapshot, request := None, 0, Snapshot(Initializing, None, None), None;
      started, finished := 0, 0;
    }

    /** `setAccessToken`, false for the error it throws on an empty token. */
    method SetAccessToken(token: string, source: Source) returns (ok: bool)
      modifies this
      ensures ok == (Strip(token, JsSpace) != "") && (ok ==> accessToken == Some(Strip(token, JsSpace)))
      ensures Abstract() == old(Next(Abstract(), SetToken(token, source)))
    {
      var normalized := Strip(token, JsSpace);
      if normalized == "" {
        return false;
      }
      tokenRevision := tokenRevision + 1;
      accessToken := Some(normalized);
      snapshot := Snapshot(Authenticated, Some(source), None);
      ok := true;
    }

    method ClearAccessToken()
      modifies this
      ensures Abstract() == old(Next(Abstract(), Clear))
    {
      tokenRevision := tokenRevision + 1;
      accessToken := None;
      snapshot := Snapshot(Unauthenticated, None, None);
    }

    method ClearAccessTokenIfCurrent(token: string)
      modifies this
      ensures Abstract() == old(Next(Abstract(), Unauthorized(token)))
    {
      if accessToken == Some(token) {
        ClearAccessToken();
      }
    }

    /** `requestDevelopmentToken` up to the request it sends. */
    method RequestDevelopmentToken() returns (sent: bool)
      modifies this
      ensures Abstract() == old(Next(Abstract(), Request))
      ensures sent == old(accessToken.None? && request.None?)
    {
      if accessToken.Some? || request.Some? {
        return false;
      }
      var requestRevision := tokenRevision;
      snapshot := Snapshot(Initializing, None, None);
      request, started := Some(requestRevision), started + 1;
      sent := true;
    }

    /** The rest of it, once the answer is there. */
    method ReceiveAnswer(answer: Answer)
      requires request.Some?
      modifies this
      ensures Abstract() == old(Next(Abstract(), Answered(answer)))
    {
      var requestRevision := request.value;
      var error := None;
      match answer {
        case Granted(token) =>
          if tokenRevision == requestRevision && accessToken.None? {
            var ok := SetAccessToken(token, Development);
            if !ok {
              error := Some(EMPTY_TOKEN);
            }
          }
        case Refused(message) => error := Some(message);
      }
      if error.Some? && tokenRevision == requestRevision && accessToken.None? {
        snapshot := Snapshot(Unauthenticated, None, error);
      }
      request, finished := None, finished + 1;
    }
  }

  // ---------- what every interleaving keeps ----------

  predicate Inv(s: State) {
    && (s.snapshot.status == Authenticated <==> s.token.Some?)
    && (s.token.Some? ==> s.token.value != "" && Stripped(s.token.value, JsSpace))
    && s.started == s.finished + (if s.inFlight.Some? then 1 else 0)
    && (s.inFlight.Some? ==> s.inFlight.value <= s.revision)
    && (s.inFlight == Some(s.revision) ==> s.token.None?)
    && (s.snapshot.status == Initializing ==> s.started == 0 || s.inFlight == Some(s.revision))
  }

  lemma NextKeeps(s: State, e: Event)
    requires Inv(s)
    ensures Inv(Next(s, e))
  {
    match e
    case SetToken(token, _) => StripIsStripped(token, JsSpace);
    case Answered(answer) => if answer.Granted? { StripIsStripped(answer.token, JsSpace); }
    case _ =>
  }

  lemma {:induction false} RunKeeps(s: State, events: seq<Event>)
    requires Inv(s)
    ensures Inv(Run(s, events))
    decreases |events|
  {
    if |events| > 0 {
      NextKeeps(s, events[0]);
      RunKeeps(Next(s, events[0]), events[1..]);
    }
  }

  /**
   * In every interleaving: the status is authenticated exactly when a token is held, at most one request is in
   * flight, and once a request was sent and answered the status is not initializing.
   */
  lemma EveryInterleaving(events: seq<Event>)
    ensures var s := Run(START, events);
      && (s.snapshot.status == Authenticated <==> s.token.Some?)
      && s.finished <= s.started <= s.finished + 1 && (s.inFlight.Some? <==> s.started == s.finished + 1)
      && (s.started > 0 && s.inFlight.None? ==> s.snapshot.status != Initializing)
  {
    RunKeeps(START, events);
  }

  /** An event that changes the token or clears it, other than the answer. */
  predicate Overrides(s: State, e: Event) {
    match e
    case SetToken(token, _) => Trim(token) != ""
    case Clear => true
    case Unauthorized(token) => s.token == Some(token)
    case _ => false
  }

  predicate NoAnswer(events: seq<Event>) {
    forall i | 0 <= i < |events| :: !events[i].Answered?
  }

  /** None of the events sets or clears the token, each seen in the state it happens in. */
  predicate Undisturbed(s: State, events: seq<Event>)
    decreases |events|
  {
    |events| == 0 || (!Overrides(s, events[0]) && Undisturbed(Next(s, events[0]), events[1..]))
  }

  lemma {:induction false} RevisionGrows(s: State, events: seq<Event>)
    ensures Run(s, events).revision >= s.revision
    decreases |events|
  {
    if |events| > 0 { RevisionGrows(Next(s, events[0]), events[1..]); }
  }

  /** Until it is answered, the request in flight stays the same one, and the revision tells whether the token was
      disturbed meanwhile. */
  lemma {:induction false} WhileInFlight(s: State, events: seq<Event>)
    requires s.inFlight.Some? && NoAnswer(events)
    ensures Run(s, events).inFlight == s.inFlight && Run(s, events).revision >= s.revision
    ensures Run(s, events).revision == s.revision <==> Undisturbed(s, events)
    ensures Undisturbed(s, events) ==> Run(s, events).token == s.token
    decreases |events|
  {
    if |events| > 0 {
      RevisionGrows(Next(s, events[0]), events[1..]);
      WhileInFlight(Next(s, events[0]), events[1..]);
    }
  }

  /**
   * Sign-in, from the request to its answer. In any history, the answer to a request that was sent changes the token if
   * and only if it grants one that is not blank and no event between the two set or cleared a token; it then holds
   * that token, trimmed.
   */
  lemma AnswerSignsIn(before: seq<Event>, between: seq<Event>, answer: Answer)
    requires Run(START, before).token.None? && Run(START, before).inFlight.None? && NoAnswer(between)
    ensures var sent := Next(Run(START, before), Request);
      var t := Run(sent, between);
      var r := Next(t, Answered(answer));
      && (r.token != t.token <==> Undisturbed(sent, between) && answer.Granted? && Trim(answer.token) != "")
      && (r.token != t.token ==>
            r.token == Some(Trim(answer.token)) && r.snapshot == Snapshot(Authenticated, Some(Development), None))
      && (Undisturbed(sent, between) && answer.Refused? ==>
            r.token.None? && r.snapshot == Snapshot(Unauthenticated, None, Some(answer.error)))
      && (Undisturbed(sent, between) && answer.Granted? && Trim(answer.token) == "" ==>
            r.token.None? && r.snapshot.status == Unauthenticated && r.snapshot.error.Some?)
      && r.inFlight.None?
  {
    WhileInFlight(Next(Run(START, before), Request), between);
  }

  /** An event that ends the session of the token held: another sign-in, a sign-out, or a 401 for this very token. */
  predicate Ends(e: Event, token: string) {
    match e
    case SetToken(other, _) => Trim(other) != ""
    case Clear => true
    case Unauthorized(other) => other == token
    case _ => false
  }

  /**
   * A session lasts exactly until such an event: 401s for other tokens, answers to older requests and new requests
   * change neither token nor status, in any order and number.
   */
  lemma {:induction false} SessionLasts(s: State, events: seq<Event>)
    requires s.token.Some?
    ensures Run(s, events).revision == s.revision <==> forall e | e in events :: !Ends(e, s.token.value)
    ensures Run(s, events).revision == s.revision ==>
      Run(s, events).token == s.token && Run(s, events).snapshot == s.snapshot
    decreases |events|
  {
    if |events| > 0 {
      var t := Next(s, events[0]);
      assert forall e :: e in events <==> e == events[0] || e in events[1..];
      if Ends(events[0], s.token.value) {
        RevisionGrows(t, events[1..]);
      } else {
        SessionLasts(t, events[1..]);
      }
    }
  }

  lemma {:induction false} RunSplit(s: State, a: seq<Event>, b: seq<Event>)
    ensures Run(s, a + b) == Run(Run(s, a), b)
    decreases |a|
  {
    if |a| == 0 {
      assert a + b == b;
    } else {
      RunSplit(Next(s, a[0]), a[1..], b);
      assert (a + b)[1..] == a[1..] + b;
    }
  }

  /**
   * An answer to a request that began before a later set or clear changes neither token nor status: whatever happened
   * before the request, between it and the set or clear, and after that.
   */
  lemma StaleAnswerIgnored(s: State, before: seq<Event>, e: Event, later: seq<Event>, answer: Answer)
    requires Inv(s) && s.inFlight.Some? && NoAnswer(before) && NoAnswer(later) && Overrides(Run(s, before), e)
    ensures var t := Run(s, before + [e] + later);
      t.inFlight == s.inFlight
      && Next(t, Answered(answer)) == t.(inFlight := None, finished := t.finished + 1)
  {
    var u := Run(s, before);
    WhileInFlight(s, before);
    RunKeeps(s, before);
    RunSplit(s, before + [e], later);
    RunSplit(s, before, [e]);
    assert [e][1..] == [];
    assert Run(u, [e]) == Next(u, e);
    WhileInFlight(Next(u, e), later);
  }

  /**
   * Signing out and asking for a token again at once: the answer that comes next signs in if and only if it grants a
   * token that is not blank and no request was in flight at the sign-out. If one was, the new request is not sent, the
   * answer is that to the old one and is ignored.
   */
  lemma ReissueSignsIn(before: seq<Event>, answer: Answer)
    ensures var s := Run(START, before);
      var t := Run(s, [Clear, Request, Answered(answer)]);
      && (t.token.Some? <==> s.inFlight.None? && answer.Granted? && Trim(answer.token) != "")
      && (t.token.Some? ==> t.token == Some(Trim(answer.token)))
      && t.started == s.started + (if s.inFlight.None? then 1 else 0)
      && (s.inFlight.Some? ==> t.snapshot == Snapshot(Unauthenticated, None, None))
  {
    RunKeeps(START, before);
    RunThree(Run(START, before), Clear, Request, Answered(answer));
  }

  lemma RunThree(s: State, a: Event, b: Event, c: Event)
    ensures Run(s, [a, b, c]) == Next(Next(Next(s, a), b), c)
  {
    assert [c][1..] == [] && [b, c][1..] == [c] && [a, b, c][1..] == [b, c];
    assert Run(Next(Next(s, a), b), [c]) == Next(Next(Next(s, a), b), c);
  }
}
