/** Printing evidence sections and reading them back: when exactly the parser returns what was printed. */
module RoundTrip {
  import opened Wrappers
  import opened Text
  import opened Sequences
  import opened Scanning
  import opened Evidence

  /** One printed section: its header fields and its content as printed. */
  datatype Section = Section(source: string, fields: seq<(Key, string)>, content: string)

  const GAP := "\n\n"

  function FieldText(field: (Key, string)): string {
    KeyText(field.0) + ": " + field.1
  }

  function Metadata(s: Section): string {
    Join(MapSeq(FieldText, s.fields), SEP)
  }

  function Header(s: Section): string {
    HeaderLine(s.source, Metadata(s))
  }

  function Body(s: Section): string {
    Strip(s.content, PythonSpace)
  }

  function SectionText(s: Section): string {
    Header(s) + "\n" + s.content
  }

  /** A title followed by sections, blank lines between them. */
  function ContextText(title: string, sections: seq<Section>): string {
    Join([title] + MapSeq(SectionText, sections), GAP)
  }

  // ---------- the lines of a printed context ----------

  /** The lines that follow the title. */
  function TailLines(sections: seq<Section>): seq<string> {
    if sections == [] then []
    else ["", Header(sections[0])] + Lines(sections[0].content) + TailLines(sections[1..])
  }

  lemma LinesOfOne(line: string)
    requires '\n' !in line
    ensures Lines(line) == [line]
  {
    FindCharNone(line, '\n');
  }

  lemma LinesGap(a: string, b: string)
    ensures Lines(a + GAP + b) == Lines(a) + [""] + Lines(b)
  {
    var tail := "\n" + b;
    assert "" + "\n" + b == tail;
    SplitConcat("", b, '\n');
    LinesOfOne("");
    assert a + GAP + b == a + "\n" + tail;
    SplitConcat(a, tail, '\n');
    Regroup(Lines(a), [""], Lines(b));
  }

  lemma LinesSection(s: Section)
    requires '\n' !in Header(s)
    ensures Lines(SectionText(s)) == [Header(s)] + Lines(s.content)
  {
    SplitConcat(Header(s), s.content, '\n');
    LinesOfOne(Header(s));
  }

  lemma Interleave(front: seq<string>, header: string, body: seq<string>, tail: seq<string>)
    ensures front + [""] + ([header] + body + tail) == front + (["", header] + body + tail)
  {
  }

  lemma {:induction false} LinesContext(first: string, sections: seq<Section>)
    requires forall s | s in sections :: '\n' !in Header(s)
    ensures Lines(Join([first] + MapSeq(SectionText, sections), GAP)) == Lines(first) + TailLines(sections)
    decreases |sections|
  {
    if sections == [] {
      assert [first] + MapSeq(SectionText, sections) == [first];
    } else {
      var s, rest := sections[0], sections[1..];
      var after := [SectionText(s)] + MapSeq(SectionText, rest);
      LinesContext(SectionText(s), rest);
      LinesSection(s);
      JoinMapped(first, sections);
      LinesGap(first, Join(after, GAP));
      Interleave(Lines(first), Header(s), Lines(s.content), TailLines(rest));
    }
  }

  lemma JoinMapped(first: string, sections: seq<Section>)
    requires sections != []
    ensures Join([first] + MapSeq(SectionText, sections), GAP) ==
      first + GAP + Join([SectionText(sections[0])] + MapSeq(SectionText, sections[1..]), GAP)
  {
    var texts := MapSeq(SectionText, sections);
    MapHead(SectionText, sections);
    assert ([first] + texts)[1..] == texts;
  }

  // ---------- what the scan of those lines reports ----------

  /** The content of a section holds no line that itself reads as a header. */
  predicate CleanContent(s: Section) {
    NoMatch(Lines(s.content), HeaderParts)
  }

  /** The text between the section's header line and the next header. */
  function Following(s: Section, last: bool): string {
    "\n" + s.content + if last then "" else GAP
  }

  function TailReports(sections: seq<Section>, p: Pattern): seq<Report> {
    if sections == [] then []
    else Prepend(p(Header(sections[0])), Following(sections[0], |sections| == 1), TailReports(sections[1..], p))
  }

  lemma BodyBetween(body: string, tail: seq<string>, p: Pattern)
    requires NoMatch(Lines(body), p)
    ensures Between(Lines(body) + tail, p) == "\n" + body + Between(tail, p)
    ensures Reports(Lines(body) + tail, p) == Reports(tail, p)
  {
    BetweenSkip(Lines(body), tail, p);
    BetweenNoMatch(Lines(body), p);
    JoinSplit(body, "\n");
    ReportsSkip(Lines(body), tail, p);
  }

  lemma TailStart(sections: seq<Section>, p: Pattern)
    requires p("").None? && forall s | s in sections :: p(Header(s)).Some?
    ensures Between(TailLines(sections), p) == if sections == [] then "" else GAP
  {
    if sections != [] {
      var lines := TailLines(sections);
      assert lines[0] == "" && lines[1] == Header(sections[0]);
      assert lines[1..][0] == Header(sections[0]);
    }
  }

  lemma {:induction false} ReportsOfTail(sections: seq<Section>, p: Pattern)
    requires p("").None?
    requires forall s | s in sections :: p(Header(s)).Some? && NoMatch(Lines(s.content), p)
    ensures Reports(TailLines(sections), p) == TailReports(sections, p)
    decreases |sections|
  {
    if sections != [] {
      var s, rest := sections[0], sections[1..];
      ReportsOfTail(rest, p);
      TailStart(rest, p);
      var after := Lines(s.content) + TailLines(rest);
      BodyBetween(s.content, TailLines(rest), p);
      Regroup(["", Header(s)], Lines(s.content), TailLines(rest));
      TwoLines(Header(s), after, p);
      assert TailLines(sections) == ["", Header(s)] + after;
    }
  }

  lemma TwoLines(header: string, after: seq<string>, p: Pattern)
    requires p("").None?
    ensures Reports(["", header] + after, p) == Prepend(p(header), Between(after, p), Reports(after, p))
  {
    var lines := ["", header] + after;
    assert lines[1..] == [header] + after && lines[1..][1..] == after;
  }

  // ---------- when the parser returns what was printed ----------

  /** The item a section should be read back as. */
  function Expected(s: Section): Item {
    MakeItem(s.source, MetadataOf(MapSeq(FieldText, s.fields)), Body(s))
  }

  /** The item the parser makes of a section's header line; every printed header line is accepted. */
  function Actual(s: Section): Item {
    match HeaderParts(Header(s))
    case Some(g) => MakeItem(g.0, MetadataOf(Split(g.1, SEP)), Body(s))
    case None => Expected(s)
  }

  /** The source text contains no separator, not even one completed by the separator that follows it. */
  predicate CleanSource(s: Section) {
    !Contains(s.source + " |", SEP)
  }

  /** The header is one line and its detail fields survive the split. */
  predicate Printable(s: Section) {
    && '\n' !in Header(s)
    && s.fields != []
    && Separable(MapSeq(FieldText, s.fields), SEP)
  }

  lemma HeaderIsHeader(s: Section)
    ensures IsHeader(Header(s)) && HeaderParts("").None?
  {
    HeaderPartsLazy(Header(s), s.source, Metadata(s));
  }

  lemma HeaderLineInjective(source: string, m1: string, m2: string)
    requires HeaderLine(source, m1) == HeaderLine(source, m2)
    ensures m1 == m2
  {
    HeaderLineRest(source, m1);
    HeaderLineRest(source, m2);
    var front := source + SEP;
    assert (front + m1 + CLOSE)[|front|..] == m1 + CLOSE;
    assert (front + m2 + CLOSE)[|front|..] == m2 + CLOSE;
    assert m1 == (m1 + CLOSE)[..|m1|] && m2 == (m2 + CLOSE)[..|m2|];
  }

  lemma SameIdentity(source: string, group: string, s: Section)
    requires HeaderParts(Header(s)) == Some((source, group)) && Actual(s) == Expected(s)
    ensures source == s.source
  {
    assert Actual(s).identity == source + "\n" + Body(s);
    assert Expected(s).identity == s.source + "\n" + Body(s);
    Regroup(source, "\n", Body(s));
    Regroup(s.source, "\n", Body(s));
    SuffixCancels(source, s.source, "\n" + Body(s));
  }

  lemma SameGroups(s: Section)
    requires IsHeader(Header(s)) && Actual(s) == Expected(s)
    ensures HeaderParts(Header(s)) == Some((s.source, Metadata(s)))
  {
    var (source, group) := HeaderParts(Header(s)).value;
    SameIdentity(source, group, s);
    HeaderPartsComplete(Header(s));
    HeaderLineInjective(source, group, Metadata(s));
  }

  /** A section is read back as intended exactly when its source is clean. */
  lemma ActualIsExpected(s: Section)
    requires Printable(s)
    ensures Actual(s) == Expected(s) <==> CleanSource(s)
  {
    HeaderIsHeader(s);
    HeaderPartsExact(s.source, Metadata(s));
    if CleanSource(s) {
      SplitJoin(MapSeq(FieldText, s.fields), SEP);
    }
    if Actual(s) == Expected(s) {
      SameGroups(s);
    }
  }

  lemma SuffixCancels(x: string, y: string, t: string)
    requires x + t == y + t
    ensures x == y
  {
    assert |x + t| == |y + t|;
    assert (x + t)[..|x|] == x && (y + t)[..|y|] == y;
  }

  lemma FollowingStripped(s: Section, last: bool)
    ensures Strip(Following(s, last), PythonSpace) == Body(s)
  {
    var tail := if last then "" else GAP;
    StripPad("\n", s.content, tail, PythonSpace);
  }

  lemma ItemsOfHead(s: Section, last: bool, reports: seq<Report>)
    ensures ItemsOf(Prepend(HeaderParts(Header(s)), Following(s, last), reports)) == [Actual(s)] + ItemsOf(reports)
  {
    HeaderIsHeader(s);
    FollowingStripped(s, last);
    ItemsOfPrepend(HeaderParts(Header(s)), Following(s, last), reports);
  }

  lemma {:induction false} ItemsOfTail(sections: seq<Section>)
    ensures ItemsOf(TailReports(sections, HeaderParts)) == MapSeq(Actual, sections)
    decreases |sections|
  {
    if sections != [] {
      var s, rest := sections[0], sections[1..];
      ItemsOfTail(rest);
      TailReportsStep(sections, HeaderParts);
      ItemsOfHead(s, |sections| == 1, TailReports(rest, HeaderParts));
      MapHead(Actual, sections);
    }
  }

  lemma TailReportsStep(sections: seq<Section>, p: Pattern)
    requires sections != []
    ensures TailReports(sections, p) ==
      Prepend(p(Header(sections[0])), Following(sections[0], |sections| == 1), TailReports(sections[1..], p))
  {
  }

  lemma {:induction false} ReportsOfDirtyTail(sections: seq<Section>, p: Pattern)
    requires p("").None? && forall s | s in sections :: p(Header(s)).Some?
    ensures |Reports(TailLines(sections), p)| >= |sections|
    ensures (exists s | s in sections :: !NoMatch(Lines(s.content), p)) ==> |Reports(TailLines(sections), p)| > |sections|
    decreases |sections|
  {
    if sections != [] {
      var s, rest := sections[0], sections[1..];
      ReportsOfDirtyTail(rest, p);
      TwoLines(Header(s), [], p);
      assert ["", Header(s)] + [] == ["", Header(s)];
      ReportsLength(["", Header(s)] + Lines(s.content), TailLines(rest), p);
      ReportsLength(["", Header(s)], Lines(s.content), p);
      ReportsCount(Lines(s.content), p);
    }
  }

  lemma ItemsOfContext(title: string, sections: seq<Section>)
    requires NoMatch(Lines(title), HeaderParts)
    requires forall s | s in sections :: '\n' !in Header(s)
    ensures Reports(Lines(ContextText(title, sections)), HeaderParts) == Reports(TailLines(sections), HeaderParts)
    ensures (forall s | s in sections :: CleanContent(s)) ==>
      Items(ContextText(title, sections)) == MapSeq(Actual, sections)
  {
    LinesContext(title, sections);
    ReportsSkip(Lines(title), TailLines(sections), HeaderParts);
    forall s | s in sections ensures HeaderParts(Header(s)).Some? && HeaderParts("").None? {
      HeaderIsHeader(s);
    }
    if forall s | s in sections :: CleanContent(s) {
      if sections != [] { ReportsOfTail(sections, HeaderParts); }
      ItemsOfTail(sections);
    }
  }

  /**
   * The parser returns exactly the printed sections, in order, if and only if no content holds a header line
   * and no source text holds a separator.
   */
  lemma RoundTripExact(title: string, sections: seq<Section>)
    requires NoMatch(Lines(title), HeaderParts)
    requires forall s | s in sections :: Printable(s)
    ensures Items(ContextText(title, sections)) == MapSeq(Expected, sections)
      <==> forall s | s in sections :: CleanContent(s) && CleanSource(s)
  {
    ItemsOfContext(title, sections);
    forall s | s in sections
      ensures Actual(s) == Expected(s) <==> CleanSource(s)
      ensures HeaderParts(Header(s)).Some? && HeaderParts("").None?
    {
      ActualIsExpected(s);
      HeaderIsHeader(s);
    }
    if forall s | s in sections :: CleanContent(s) {
      MapsAgree(sections);
    } else {
      ReportsOfDirtyTail(sections, HeaderParts);
    }
  }

  lemma MapsAgree(sections: seq<Section>)
    ensures MapSeq(Actual, sections) == MapSeq(Expected, sections)
      <==> forall s | s in sections :: Actual(s) == Expected(s)
  {
    MapsEqual(Actual, Expected, sections);
  }

  /** A list of as many items in which one content differs from the printed one is never returned. */
  lemma OtherContent(title: string, sections: seq<Section>, other: seq<Item>, i: nat)
    requires NoMatch(Lines(title), HeaderParts)
    requires forall s | s in sections :: '\n' !in Header(s)
    requires i < |sections| == |other| && other[i].content != Body(sections[i])
    ensures Items(ContextText(title, sections)) != other
  {
    ItemsOfContext(title, sections);
    forall s | s in sections ensures HeaderParts(Header(s)).Some? && HeaderParts("").None? {
      HeaderIsHeader(s);
    }
    if forall s | s in sections :: CleanContent(s) {
      assert MapSeq(Actual, sections)[i] == Actual(sections[i]);
      ActualContent(sections[i]);
    } else {
      ReportsOfDirtyTail(sections, HeaderParts);
    }
  }

  lemma ActualContent(s: Section)
    ensures Actual(s).content == Body(s)
  {
    HeaderIsHeader(s);
  }
}
