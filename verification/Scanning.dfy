/**
 * A pattern anchored at both line ends, applied over a whole text. Such a pattern matches whole lines only,
 * so the text is its list of lines and the pattern is a parameter saying what one line captures.
 */
module Scanning {
  import opened Wrappers
  import opened Text

  type Groups = Option<(string, string)>
  type Pattern = string -> Groups

  /** What is reported for a match: its groups and the text up to the next match. */
  datatype Report = Report(source: string, metadata: string, between: string)

  function Lines(text: string): seq<string> {
    Split(text, "\n")
  }

  /** The text from the end of a line to the next matching line, or to the end, given the lines that follow. */
  function Between(rest: seq<string>, p: Pattern): string {
    if rest == [] then ""
    else if p(rest[0]).Some? then "\n"
    else "\n" + rest[0] + Between(rest[1..], p)
  }

  function Prepend(groups: Groups, between: string, reports: seq<Report>): seq<Report> {
    match groups
    case Some(g) => [Report(g.0, g.1, between)] + reports
    case None => reports
  }

  function Reports(lines: seq<string>, p: Pattern): seq<Report> {
    if lines == [] then []
    else Prepend(p(lines[0]), Between(lines[1..], p), Reports(lines[1..], p))
  }

  predicate NoMatch(lines: seq<string>, p: Pattern) {
    forall line | line in lines :: p(line).None?
  }

  lemma {:induction false} ReportsCount(lines: seq<string>, p: Pattern)
    ensures Reports(lines, p) == [] <==> NoMatch(lines, p)
  {
    if lines != [] {
      ReportsCount(lines[1..], p);
      assert forall line :: line in lines <==> line == lines[0] || line in lines[1..];
    }
  }

  lemma {:induction false} ReportsLength(a: seq<string>, b: seq<string>, p: Pattern)
    ensures |Reports(a + b, p)| == |Reports(a, p)| + |Reports(b, p)|
  {
    if a == [] {
      assert a + b == b;
    } else {
      ReportsLength(a[1..], b, p);
      assert (a + b)[1..] == a[1..] + b;
    }
  }

  /** Lines without a match in front contribute nothing. */
  lemma {:induction false} ReportsSkip(a: seq<string>, b: seq<string>, p: Pattern)
    requires NoMatch(a, p)
    ensures Reports(a + b, p) == Reports(b, p)
  {
    if a == [] {
      assert a + b == b;
    } else {
      ReportsSkip(a[1..], b, p);
      assert (a + b)[1..] == a[1..] + b;
    }
  }

  lemma {:induction false} BetweenSkip(a: seq<string>, b: seq<string>, p: Pattern)
    requires NoMatch(a, p)
    ensures Between(a + b, p) == Between(a, p) + Between(b, p)
  {
    if a == [] {
      assert a + b == b;
    } else {
      BetweenSkip(a[1..], b, p);
      assert (a + b)[1..] == a[1..] + b;
      Regroup("\n" + a[0], Between(a[1..], p), Between(b, p));
    }
  }

  lemma {:induction false} BetweenNoMatch(a: seq<string>, p: Pattern)
    requires a != [] && NoMatch(a, p)
    ensures Between(a, p) == "\n" + Join(a, "\n")
  {
    if |a| == 1 {
      assert a[1..] == [];
    } else {
      BetweenNoMatch(a[1..], p);
      Regroup("\n" + a[0], "\n", Join(a[1..], "\n"));
      Regroup("\n", a[0] + "\n", Join(a[1..], "\n"));
      Regroup("\n", a[0], "\n");
    }
  }
}
