/** Strings as the Python and TypeScript code uses them: find, split, join and strip. */
module Text {
  // ---------- find ----------

  predicate OccursAt(s: string, sep: string, i: nat) {
    i + |sep| <= |s| && s[i..i + |sep|] == sep
  }

  /** Index of the first occurrence of `sep` at or after `from`, or -1. */
  function Find(s: string, sep: string, from: nat := 0): (r: int)
    ensures r == -1 || from <= r
    ensures r >= 0 ==> OccursAt(s, sep, r)
    ensures forall i: nat :: from <= i && (r < 0 || i < r) ==> !OccursAt(s, sep, i)
    decreases |s| - from
  {
    if |s| < from + |sep| then -1
    else if OccursAt(s, sep, from) then from
    else Find(s, sep, from + 1)
  }

  predicate Contains(s: string, sep: string) {
    Find(s, sep) >= 0
  }

  /** `Find` is pinned down by the first occurrence. */
  lemma FindIs(s: string, sep: string, i: nat)
    requires OccursAt(s, sep, i)
    requires forall j: nat | j < i :: !OccursAt(s, sep, j)
    ensures Find(s, sep) == i
  {
  }

  /** Text after the first occurrence does not move it. */
  lemma FindExtend(a: string, b: string, sep: string)
    requires Find(a, sep) >= 0
    ensures Find(a + b, sep) == Find(a, sep)
  {
    var i := Find(a, sep);
    assert (a + b)[i..i + |sep|] == a[i..i + |sep|];
    forall j: nat | j < i ensures !OccursAt(a + b, sep, j) {
      assert (a + b)[j..j + |sep|] == a[j..j + |sep|];
      assert !OccursAt(a, sep, j);
    }
    FindIs(a + b, sep, i);
  }

  /** A one-character separator never straddles a boundary. */
  lemma FindChar(a: string, b: string, c: char)
    requires c !in a
    ensures Find(a + [c] + b, [c]) == |a|
    ensures Find(a, [c]) == -1
  {
    var s := a + [c] + b;
    assert s[|a|..|a| + 1] == [c];
    forall j: nat | j < |a| ensures !OccursAt(s, [c], j) {
      assert s[j..j + 1][0] == a[j];
    }
    FindIs(s, [c], |a|);
    forall j: nat ensures !OccursAt(a, [c], j) {
      if j + 1 <= |a| { assert a[j..j + 1][0] == a[j]; }
    }
  }

  lemma FindCharNone(a: string, c: char)
    ensures Find(a, [c]) == -1 <==> c !in a
  {
    if c !in a {
      FindChar(a, "", c);
    } else {
      var i :| 0 <= i < |a| && a[i] == c;
      assert a[i..i + 1] == [c];
      assert OccursAt(a, [c], i);
    }
  }

  /** Appending a separator adds an earlier occurrence exactly when all but its last character already does. */
  lemma EarlierSeparator(a: string, sep: string)
    requires sep != ""
    ensures Find(a + sep, sep) == |a| <==> !Contains(a + Init(sep), sep)
  {
    var b := a + sep;
    assert b[|a|..|a| + |sep|] == sep;
    forall j: nat ensures OccursAt(a + Init(sep), sep, j) <==> j < |a| && OccursAt(b, sep, j) {
      if j < |a| { assert (a + Init(sep))[j..] == b[j..|b| - 1]; }
    }
    assert OccursAt(b, sep, |a|);
    if Find(b, sep) < |a| {
      assert OccursAt(a + Init(sep), sep, Find(b, sep));
    }
  }

  // ---------- split and join ----------

  /** `s.split(sep)`: leftmost, non-overlapping. */
  function Split(s: string, sep: string): (parts: seq<string>)
    requires sep != ""
    ensures |parts| >= 1
  {
    var i := Find(s, sep);
    if i < 0 then [s] else [s[..i]] + Split(s[i + |sep|..], sep)
  }

  /** `sep.join(parts)`. */
  function Join(parts: seq<string>, sep: string): string {
    if parts == [] then ""
    else if |parts| == 1 then parts[0]
    else parts[0] + sep + Join(parts[1..], sep)
  }

  function Init<T>(s: seq<T>): seq<T>
    requires |s| > 0
  {
    s[..|s| - 1]
  }

  function Last<T>(s: seq<T>): T
    requires |s| > 0
  {
    s[|s| - 1]
  }

  /** No piece of a split contains the separator. */
  lemma {:induction false} SplitPieces(s: string, sep: string)
    requires sep != ""
    ensures forall i | 0 <= i < |Split(s, sep)| :: !Contains(Split(s, sep)[i], sep)
  {
    var i := Find(s, sep);
    if i >= 0 {
      SplitPieces(s[i + |sep|..], sep);
      var piece := s[..i];
      forall j: nat ensures !OccursAt(piece, sep, j) {
        if j + |sep| <= |piece| {
          assert piece[j..j + |sep|] == s[j..j + |sep|];
          assert !OccursAt(s, sep, j);
        }
      }
    }
  }

  lemma ConsInitLast<T>(x: T, t: seq<T>, u: seq<T>)
    requires |t| > 0
    ensures Init([x] + t) + u == [x] + (Init(t) + u)
    ensures Last([x] + t) == Last(t)
  {
  }

  lemma SplitHead(s: string, sep: string)
    requires sep != "" && Find(s, sep) >= 0
    ensures var i := Find(s, sep); Split(s, sep) == [s[..i]] + Split(s[i + |sep|..], sep)
  {
  }

  /** The first separator of a text is where it was when more text is there. */
  lemma SplitFirst(a: string, b: string, sep: string)
    requires sep != "" && Find(a, sep) >= 0
    ensures var i := Find(a, sep); Split(a + b, sep) == [a[..i]] + Split(a[i + |sep|..] + b, sep)
  {
    var i := Find(a, sep);
    FindExtend(a, b, sep);
    SplitHead(a + b, sep);
    assert (a + b)[i + |sep|..] == a[i + |sep|..] + b && (a + b)[..i] == a[..i];
  }

  /** Splitting after more text has arrived: the finished pieces stay, only the tail is split again. */
  lemma {:induction false} SplitAppend(a: string, b: string, sep: string)
    requires sep != ""
    ensures Split(a + b, sep) == Init(Split(a, sep)) + Split(Last(Split(a, sep)) + b, sep)
    decreases |a|
  {
    var i := Find(a, sep);
    if i < 0 {
      assert Split(a, sep) == [a];
    } else {
      var rest := a[i + |sep|..];
      SplitFirst(a, b, sep);
      SplitHead(a, sep);
      SplitAppend(rest, b, sep);
      var t := Split(rest, sep);
      ConsInitLast(a[..i], t, Split(Last(t) + b, sep));
    }
  }

  /** What `Join` output must satisfy for `Split` to recover the parts: no separator starts early. */
  predicate Separable(parts: seq<string>, sep: string)
    requires |parts| > 0
  {
    && (forall i | 0 <= i < |parts| - 1 :: Find(parts[i] + sep, sep) == |parts[i]|)
    && !Contains(Last(parts), sep)
  }

  lemma SeparableStep(parts: seq<string>, sep: string)
    requires |parts| > 1
    ensures Separable(parts, sep) <==>
      Find(parts[0] + sep, sep) == |parts[0]| && Separable(parts[1..], sep)
  {
    var rest := parts[1..];
    assert Last(parts) == Last(rest);
    if Find(parts[0] + sep, sep) == |parts[0]| && Separable(rest, sep) {
      forall k | 0 <= k < |parts| - 1 ensures Find(parts[k] + sep, sep) == |parts[k]| {
        if k > 0 { assert parts[k] == rest[k - 1]; }
      }
    }
    if Separable(parts, sep) {
      forall k | 0 <= k < |rest| - 1 ensures Find(rest[k] + sep, sep) == |rest[k]| {
        assert parts[k + 1] == rest[k];
      }
    }
  }

  /** A split undoes a join exactly when the joined parts are separable. */
  lemma {:induction false} SplitJoin(parts: seq<string>, sep: string)
    requires sep != "" && |parts| > 0
    ensures Split(Join(parts, sep), sep) == parts <==> Separable(parts, sep)
    decreases |parts|
  {
    if |parts| == 1 {
      SplitPieces(parts[0], sep);
      assert parts == [parts[0]];
    } else {
      SplitJoin(parts[1..], sep);
      SeparableStep(parts, sep);
      SplitJoinStep(parts, sep);
    }
  }

  lemma SplitJoinStep(parts: seq<string>, sep: string)
    requires sep != "" && |parts| > 1
    ensures Split(Join(parts, sep), sep) == parts <==>
      Find(parts[0] + sep, sep) == |parts[0]| && Split(Join(parts[1..], sep), sep) == parts[1..]
  {
    var head, tail := parts[0], Join(parts[1..], sep);
    assert Join(parts, sep) == head + sep + tail;
    SplitJoinHead(head, tail, sep);
    ConsIff(head, parts, Split(tail, sep), Split(head + sep + tail, sep));
  }

  lemma ConsIff(head: string, parts: seq<string>, rest: seq<string>, pieces: seq<string>)
    requires |parts| > 1 && parts[0] == head && |pieces| > 0
    ensures pieces == [head] + rest ==> (pieces == parts <==> rest == parts[1..])
    ensures |pieces[0]| != |head| ==> pieces != parts
  {
    assert parts == [head] + parts[1..];
    if pieces == [head] + rest { assert pieces[1..] == rest; }
  }

  lemma SplitJoinHead(head: string, tail: string, sep: string)
    requires sep != ""
    ensures var pieces := Split(head + sep + tail, sep);
      if Find(head + sep, sep) == |head| then pieces == [head] + Split(tail, sep)
      else |pieces[0]| != |head|
  {
    assert (head + sep)[|head|..] == sep;
    assert OccursAt(head + sep, sep, |head|);
    FindExtend(head + sep, tail, sep);
    var s := head + sep + tail;
    assert s[..|head|] == head && s[|head| + |sep|..] == tail;
  }

  /** Joining the pieces of a split rebuilds the text. */
  lemma {:induction false} JoinSplit(s: string, sep: string)
    requires sep != ""
    ensures Join(Split(s, sep), sep) == s
    decreases |s|
  {
    var i := Find(s, sep);
    if i >= 0 {
      JoinSplit(s[i + |sep|..], sep);
      assert s == s[..i] + sep + s[i + |sep|..];
      assert Split(s, sep)[1..] == Split(s[i + |sep|..], sep);
    }
  }

  /** Two joined blocks are one joined list whose meeting parts are merged. */
  lemma {:induction false} JoinMerge(a: seq<string>, x: string, t: string, b: seq<string>, sep: string)
    ensures Join(a + [x + sep + t] + b, sep) == Join(a + [x], sep) + sep + Join([t] + b, sep)
    decreases |a|
  {
    if a == [] {
      JoinMergeHead(x, t, b, sep);
      assert [] + [x + sep + t] + b == [x + sep + t] + b && [] + [x] == [x];
    } else {
      JoinMerge(a[1..], x, t, b, sep);
      var all := a + [x + sep + t] + b;
      assert all[1..] == a[1..] + [x + sep + t] + b && (a + [x])[1..] == a[1..] + [x];
      JoinCons(all, sep);
      JoinCons(a + [x], sep);
      Regroup(a[0] + sep, Join(a[1..] + [x], sep), sep + Join([t] + b, sep));
      Regroup(Join(a[1..] + [x], sep), sep, Join([t] + b, sep));
      Regroup(a[0] + sep + Join(a[1..] + [x], sep), sep, Join([t] + b, sep));
    }
  }

  lemma JoinCons(parts: seq<string>, sep: string)
    requires |parts| > 1
    ensures Join(parts, sep) == parts[0] + sep + Join(parts[1..], sep)
  {
  }

  lemma JoinMergeHead(x: string, t: string, b: seq<string>, sep: string)
    ensures Join([x + sep + t] + b, sep) == Join([x], sep) + sep + Join([t] + b, sep)
  {
    if b == [] {
      assert [x + sep + t] + b == [x + sep + t] && [t] + b == [t];
    } else {
      assert ([x + sep + t] + b)[1..] == b && ([t] + b)[1..] == b;
      Regroup(x + sep, t, sep + Join(b, sep));
      Regroup(x + sep + t, sep, Join(b, sep));
      Regroup(t, sep, Join(b, sep));
    }
  }

  /** A single-character separator splits a concatenation around it exactly. */
  lemma SplitConcat(a: string, b: string, c: char)
    ensures Split(a + [c] + b, [c]) == Split(a, [c]) + Split(b, [c])
  {
    var pieces := Split(a, [c]);
    var tail := Last(pieces);
    assert c !in tail by { LastPieceFree(a, c); }
    SplitCharHead(tail, b, c);
    Regroup(a, [c], b);
    Regroup(tail, [c], b);
    SplitAppend(a, [c] + b, [c]);
    Regroup(Init(pieces), [tail], Split(b, [c]));
    assert pieces == Init(pieces) + [tail];
  }

  lemma Regroup<T>(x: seq<T>, y: seq<T>, z: seq<T>)
    ensures x + (y + z) == x + y + z
  {
  }

  lemma LastPieceFree(a: string, c: char)
    ensures c !in Last(Split(a, [c]))
  {
    SplitPieces(a, [c]);
    var pieces := Split(a, [c]);
    assert !Contains(pieces[|pieces| - 1], [c]);
    FindCharNone(Last(pieces), c);
  }

  lemma SplitCharHead(a: string, b: string, c: char)
    requires c !in a
    ensures Split(a + [c] + b, [c]) == [a] + Split(b, [c])
  {
    FindChar(a, b, c);
    var s := a + [c] + b;
    assert s[..|a|] == a && s[|a| + 1..] == b;
  }

  // ---------- cutting at a character ----------

  lemma LastCut(a: string, b: string, a': string, b': string, c: char)
    requires c !in b && c !in b' && a + [c] + b == a' + [c] + b'
    ensures a == a' && b == b'
  {
    var s := a + [c] + b;
    assert s[|a|] == c && s[|a'|] == c;
    assert forall k | |a| < k < |s| :: s[k] == b[k - |a| - 1] && s[k] != c;
    assert forall k | |a'| < k < |s| :: s[k] == b'[k - |a'| - 1] && s[k] != c;
    assert a == s[..|a|] && a' == s[..|a'|];
    assert b == s[|a| + 1..] && b' == s[|a'| + 1..];
  }

  lemma FirstCut(a: string, b: string, a': string, b': string, c: char)
    requires c !in a && c !in a' && a + [c] + b == a' + [c] + b'
    ensures a == a' && b == b'
  {
    var s := a + [c] + b;
    assert s[|a|] == c && s[|a'|] == c;
    assert forall k | 0 <= k < |a| :: s[k] == a[k] && s[k] != c;
    assert forall k | 0 <= k < |a'| :: s[k] == a'[k] && s[k] != c;
    assert a == s[..|a|] && a' == s[..|a'|];
    assert b == s[|a| + 1..] && b' == s[|a'| + 1..];
  }

  lemma SplitAt(s: string, c: char) returns (a: string, b: string)
    requires c in s
    ensures s == a + [c] + b
  {
    var k :| 0 <= k < |s| && s[k] == c;
    a, b := s[..k], s[k + 1..];
  }

  // ---------- strip ----------

  function StripLeft(s: string, ws: char -> bool): string {
    if s != "" && ws(s[0]) then StripLeft(s[1..], ws) else s
  }

  function StripRight(s: string, ws: char -> bool): string {
    if s != "" && ws(s[|s| - 1]) then StripRight(s[..|s| - 1], ws) else s
  }

  /** `s.strip()` for the whitespace class `ws`. */
  function Strip(s: string, ws: char -> bool): string {
    StripRight(StripLeft(s, ws), ws)
  }

  predicate Stripped(s: string, ws: char -> bool) {
    s != "" ==> !ws(s[0]) && !ws(s[|s| - 1])
  }

  predicate All(s: string, ws: char -> bool) {
    forall c | c in s :: ws(c)
  }

  lemma {:induction false} StripLeftStart(s: string, ws: char -> bool)
    ensures StripLeft(s, ws) != "" ==> !ws(StripLeft(s, ws)[0])
  {
    if s != "" && ws(s[0]) { StripLeftStart(s[1..], ws); }
  }

  lemma {:induction false} StripRightEnd(s: string, ws: char -> bool)
    ensures StripRight(s, ws) <= s
    ensures StripRight(s, ws) != "" ==> !ws(Last(StripRight(s, ws)))
  {
    if s != "" && ws(s[|s| - 1]) { StripRightEnd(s[..|s| - 1], ws); }
  }

  lemma StripIsStripped(s: string, ws: char -> bool)
    ensures Stripped(Strip(s, ws), ws)
  {
    StripLeftStart(s, ws);
    StripRightEnd(StripLeft(s, ws), ws);
  }

  lemma StripStripped(s: string, ws: char -> bool)
    requires Stripped(s, ws)
    ensures Strip(s, ws) == s
  {
  }

  lemma {:induction false} StripLeftPad(p: string, s: string, ws: char -> bool)
    requires All(p, ws)
    ensures StripLeft(p + s, ws) == StripLeft(s, ws)
    decreases |p|
  {
    if p == "" {
      assert p + s == s;
    } else {
      assert p[0] in p;
      assert (p + s)[1..] == p[1..] + s;
      StripLeftPad(p[1..], s, ws);
    }
  }

  lemma {:induction false} StripRightPad(s: string, q: string, ws: char -> bool)
    requires All(q, ws)
    ensures StripRight(s + q, ws) == StripRight(s, ws)
    decreases |q|
  {
    if q == "" {
      assert s + q == s;
    } else {
      assert q[|q| - 1] in q;
      assert (s + q)[..|s + q| - 1] == s + q[..|q| - 1];
      StripRightPad(s, q[..|q| - 1], ws);
    }
  }

  lemma {:induction false} StripLeftKeeps(s: string, q: string, ws: char -> bool)
    ensures StripLeft(s + q, ws) == if StripLeft(s, ws) == "" then StripLeft(q, ws) else StripLeft(s, ws) + q
  {
    if s == "" {
      assert s + q == q;
    } else if ws(s[0]) {
      assert (s + q)[1..] == s[1..] + q;
      StripLeftKeeps(s[1..], q, ws);
    }
  }

  /** Whitespace added around a text does not change what stripping leaves of it. */
  lemma StripPad(p: string, s: string, q: string, ws: char -> bool)
    requires All(p, ws) && All(q, ws)
    ensures Strip(p + s + q, ws) == Strip(s, ws)
  {
    Regroup(p, s, q);
    StripLeftPad(p, s + q, ws);
    StripLeftKeeps(s, q, ws);
    StripLeftPad(q, "", ws);
    assert q + "" == q;
    StripRightPad(StripLeft(s, ws), q, ws);
  }

  /** Text that ends in a solid part strips to more than its front alone. */
  lemma StripGrows(s: string, gap: string, t: string, ws: char -> bool)
    requires All(gap, ws) && t != "" && !ws(t[0]) && !ws(t[|t| - 1])
    ensures |Strip(s + gap + t, ws)| > |Strip(s, ws)|
  {
    Regroup(s, gap, t);
    StripLeftKeeps(s, gap + t, ws);
    StripLeftPad(gap, t, ws);
    StripRightEnd(StripLeft(s, ws), ws);
  }

  /** The characters Python's str.strip() removes. */
  predicate PythonSpace(c: char) {
    || '\t' <= c <= '\r' || '\U{1c}' <= c <= ' ' || c == '\U{85}' || UnicodeSpace(c)
  }

  /** The characters JavaScript's String.trim() removes. */
  predicate JsSpace(c: char) {
    || '\t' <= c <= '\r' || c == ' ' || c == '\U{feff}' || UnicodeSpace(c)
  }

  /** Space characters beyond the control range that both languages treat as whitespace. */
  predicate UnicodeSpace(c: char) {
    || c == '\U{a0}' || c == '\U{1680}' || '\U{2000}' <= c <= '\U{200a}'
    || '\U{2028}' <= c <= '\U{2029}' || c == '\U{202f}' || c == '\U{205f}' || c == '\U{3000}'
  }
}
