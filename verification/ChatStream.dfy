/**
 * The chat stream: the server's event frames (main.py) and the client's incremental reader (frontend chat.ts). The
 * text of the frames is what the JSON encoder wrote; reads cut it anywhere.
 */
module ChatStream {
  import opened Wrappers
  import opened Text

  const GAP: string := "\n\n"

  const MARK: string := "data: "

  /** One server frame: `data: <payload>` and a blank line. */
  function Frames(payloads: seq<string>): string
    decreases |payloads|
  {
    if |payloads| == 0 then "" else (MARK + payloads[0]) + GAP + Frames(payloads[1..])
  }

  /** What the client makes of one piece between blank lines. */
  function PayloadOf(piece: string): Option<string> {
    var line := Strip(piece, JsSpace);
    if !(MARK <= line) then None
    else
      var payload := line[|MARK|..];
      if payload == "" then None else Some(payload)
  }

  function Payloads(pieces: seq<string>): seq<string>
    decreases |pieces|
  {
    if |pieces| == 0 then []
    else
      var last := PayloadOf(pieces[|pieces| - 1]);
      Payloads(pieces[..|pieces| - 1]) + if last.Some? then [last.value] else []
  }

  /** The payloads of a text taken as a whole, and what of it is still unfinished. */
  function Delivered(text: string): seq<string> {
    Payloads(Init(Split(text, GAP)))
  }

  function Unfinished(text: string): string {
    Last(Split(text, GAP))
  }

  function Concat(values: seq<string>): string
    decreases |values|
  {
    if |values| == 0 then "" else Concat(values[..|values| - 1]) + values[|values| - 1]
  }

  lemma {:induction false} PayloadsConcat(a: seq<string>, b: seq<string>)
    ensures Payloads(a + b) == Payloads(a) + Payloads(b)
    decreases |b|
  {
    if |b| == 0 {
      assert a + b == a;
    } else {
      PayloadsConcat(a, b[..|b| - 1]);
      assert (a + b)[..|a + b| - 1] == a + b[..|b| - 1];
    }
  }

  lemma InitLastConcat<T>(a: seq<T>, b: seq<T>)
    requires |b| > 0
    ensures Init(a + b) == a + Init(b) && Last(a + b) == Last(b)
  {
  }

  /** One more read: what was unfinished is continued by the new text. */
  lemma ReadMore(text: string, more: string)
    ensures Delivered(text + more) == Delivered(text) + Delivered(Unfinished(text) + more)
    ensures Unfinished(text + more) == Unfinished(Unfinished(text) + more)
  {
    var a, b := Init(Split(text, GAP)), Split(Unfinished(text) + more, GAP);
    SplitAppend(text, more, GAP);
    InitLastConcat(a, b);
    PayloadsConcat(a, Init(b));
  }

  class Client {
    var buffer: string
    var events: seq<string>

    constructor ()
      ensures buffer == "" && events == []
    {
      buffer, events := "", [];
    }

    /** The body of the read loop. */
    method Read(value: string)
      modifies this
      ensures events == old(events) + Delivered(old(buffer) + value)
      ensures buffer == Unfinished(old(buffer) + value)
    {
      buffer := buffer + value;
      var chunks := Split(buffer, GAP);
      buffer := Last(chunks);
      chunks := Init(chunks);
      ghost var before := events;
      for i := 0 to |chunks|
        invariant events == before + Payloads(chunks[..i])
        invariant buffer == Unfinished(old(buffer) + value)
      {
        assert chunks[..i + 1][..i] == chunks[..i];
        var line := Strip(chunks[i], JsSpace);
        if MARK <= line {
          var payload := line[|MARK|..];
          if payload != "" {
            events := events + [payload];
          }
        }
      }
      assert chunks[..|chunks|] == chunks;
    }

    /** `streamChat`: however the text is cut into reads, the events are those of the whole text. */
    method StreamChat(values: seq<string>)
      requires buffer == "" && events == []
      modifies this
      ensures events == Delivered(Concat(values)) && buffer == Unfinished(Concat(values))
    {
      for i := 0 to |values|
        invariant events == Delivered(Concat(values[..i])) && buffer == Unfinished(Concat(values[..i]))
      {
        assert values[..i + 1][..i] == values[..i];
        ReadMore(Concat(values[..i]), values[i]);
        Read(values[i]);
      }
      assert values[..|values|] == values;
    }
  }

  // ---------- what arrives ----------

  /** A payload that survives framing: not empty, no blank line inside, no white space at its end. */
  predicate Sendable(p: string) {
    p != "" && !Contains(p, GAP) && !JsSpace(Last(p))
  }

  lemma SliceOfSlice(s: string, i: nat, k: nat, j: nat, m: nat)
    requires i <= k <= |s| && j <= m <= k - i
    ensures s[i..k][j..m] == s[i + j..i + m]
  {
    var t := s[i..k];
    forall x | 0 <= x < m - j ensures t[j..m][x] == s[i + j..i + m][x] {
      assert t[j..m][x] == t[j + x] == s[i + j + x];
    }
  }

  lemma StripKeepsOut(piece: string)
    requires !Contains(piece, GAP)
    ensures !Contains(Strip(piece, JsSpace), GAP)
  {
    var s := Strip(piece, JsSpace);
    var i := StripInside(piece, JsSpace);
    forall j: nat ensures !OccursAt(s, GAP, j) {
      if j + |GAP| <= |s| {
        SliceOfSlice(piece, i, i + |s|, j, j + |GAP|);
        assert !OccursAt(piece, GAP, i + j);
      }
    }
  }

  lemma StripInside(s: string, ws: char -> bool) returns (i: nat)
    ensures i + |Strip(s, ws)| <= |s| && Strip(s, ws) == s[i..i + |Strip(s, ws)|]
  {
    var left := StripLeft(s, ws);
    StripLeftSuffix(s, ws);
    StripRightEnd(left, ws);
    i := |s| - |left|;
    assert Strip(s, ws) == left[..|Strip(s, ws)|];
    assert Strip(s, ws) == s[i..i + |Strip(s, ws)|];
  }

  lemma {:induction false} StripLeftSuffix(s: string, ws: char -> bool)
    ensures |StripLeft(s, ws)| <= |s| && StripLeft(s, ws) == s[|s| - |StripLeft(s, ws)|..]
  {
    if s != "" && ws(s[0]) { StripLeftSuffix(s[1..], ws); }
  }

  /** Whatever the client delivers is sendable. */
  lemma PayloadSendable(piece: string)
    requires !Contains(piece, GAP) && PayloadOf(piece).Some?
    ensures Sendable(PayloadOf(piece).value)
  {
    var line := Strip(piece, JsSpace);
    var p := PayloadOf(piece).value;
    StripKeepsOut(piece);
    StripIsStripped(piece, JsSpace);
    assert Last(p) == Last(line);
    forall j: nat ensures !OccursAt(p, GAP, j) {
      if j + |GAP| <= |p| {
        assert p[j..j + |GAP|] == line[|MARK| + j..|MARK| + j + |GAP|];
        assert !OccursAt(line, GAP, |MARK| + j);
      }
    }
  }

  lemma {:induction false} PayloadsSendable(pieces: seq<string>)
    requires forall i | 0 <= i < |pieces| :: !Contains(pieces[i], GAP)
    ensures forall i | 0 <= i < |Payloads(pieces)| :: Sendable(Payloads(pieces)[i])
    decreases |pieces|
  {
    if |pieces| > 0 {
      PayloadsSendable(pieces[..|pieces| - 1]);
      if PayloadOf(pieces[|pieces| - 1]).Some? { PayloadSendable(pieces[|pieces| - 1]); }
    }
  }

  lemma DeliveredSendable(text: string)
    ensures forall i | 0 <= i < |Delivered(text)| :: Sendable(Delivered(text)[i])
  {
    SplitPieces(text, GAP);
    PayloadsSendable(Init(Split(text, GAP)));
  }

  /** The frame of a sendable payload ends where its blank line begins. */
  lemma FrameEnds(p: string)
    requires Sendable(p)
    ensures Find(MARK + p + GAP, GAP) == |MARK + p|
  {
    var head := MARK + p;
    var s := head + GAP;
    assert s[|head|..|head| + |GAP|] == GAP;
    forall j: nat | j < |head| ensures !OccursAt(s, GAP, j) {
      NoEarlyGap(p, j);
    }
    FindIs(s, GAP, |head|);
  }

  lemma NoEarlyGap(p: string, j: nat)
    requires Sendable(p) && j < |MARK + p|
    ensures !OccursAt(MARK + p + GAP, GAP, j)
  {
    var s := MARK + p + GAP;
    GapStart(s, j);
    if j < |MARK| {
      assert s[j] == MARK[j];
    } else if j + 1 < |MARK + p| {
      assert s[j..j + 2] == p[j - |MARK|..j - |MARK| + 2];
      assert !OccursAt(p, GAP, j - |MARK|);
    } else {
      assert s[j] == Last(p);
    }
  }

  lemma GapStart(s: string, j: nat)
    ensures OccursAt(s, GAP, j) ==> s[j] == '\n'
  {
    if OccursAt(s, GAP, j) {
      assert s[j..j + 2][0] == s[j];
    }
  }

  lemma PieceDelivers(p: string)
    requires Sendable(p)
    ensures PayloadOf(MARK + p) == Some(p)
  {
    var piece := MARK + p;
    assert piece[0] == 'd' && piece[|piece| - 1] == Last(p);
    assert !JsSpace('d');
    StripStripped(piece, JsSpace);
    assert piece[|MARK|..] == p;
  }

  lemma {:induction false} SplitFrames(payloads: seq<string>)
    requires forall i | 0 <= i < |payloads| :: Sendable(payloads[i])
    ensures Delivered(Frames(payloads)) == payloads && Unfinished(Frames(payloads)) == ""
    decreases |payloads|
  {
    if |payloads| == 0 {
      assert Split("", GAP) == [""];
    } else {
      var p, rest := payloads[0], payloads[1..];
      SplitFrames(rest);
      FrameEnds(p);
      SplitJoinHead(MARK + p, Frames(rest), GAP);
      var pieces := Split(Frames(rest), GAP);
      InitLastConcat([MARK + p], pieces);
      PayloadsConcat([MARK + p], Init(pieces));
      PieceDelivers(p);
      assert Payloads([MARK + p]) == [p];
      assert payloads == [p] + rest;
    }
  }

  /**
   * However the server's text is cut into reads, the client delivers the payloads the server sent, each once and in
   * order, exactly when every one of them is sendable.
   */
  lemma StreamDelivers(payloads: seq<string>, values: seq<string>)
    requires Concat(values) == Frames(payloads)
    ensures Delivered(Concat(values)) == payloads <==> forall i | 0 <= i < |payloads| :: Sendable(payloads[i])
  {
    DeliveredSendable(Frames(payloads));
    if forall i | 0 <= i < |payloads| :: Sendable(payloads[i]) { SplitFrames(payloads); }
  }
}
