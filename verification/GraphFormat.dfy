/** rag/graph/ingestion_graph.py: the formatter with separate lists for facts and texts. */
module GraphFormat {
  import opened Wrappers
  import opened Text
  import opened Sequences
  import opened Scanning
  import opened Evidence
  import RoundTrip
  import opened Nodes
  import opened Packing
  import opened Printing
  import opened Formatters

  const FACT_TITLE := "### 🕸️ 知识图谱关联事实："
  const TEXT_TITLE := "### 📄 图谱关联参考文本："
  const GRAPH_EMPTY := "【图数据库检索】: 未找到相关关联事实。"
  const FACT_MARK := "facts extracted from the provided text"

  /** A hit with its content after the entity scope prefixes are removed. */
  datatype GraphHit = GraphHit(hit: Hit, content: string)

  predicate IsFact(g: GraphHit) {
    Contains(g.content, FACT_MARK)
  }

  function GraphFirst(g: GraphHit): (Key, string) {
    (Kind, if IsFact(g) then "关系事实" else "关联文本")
  }

  function GraphSection(g: GraphHit): Section {
    SectionOf(GraphFirst(g), g.hit, g.content)
  }

  function GraphCandidate(g: GraphHit): Candidate<GraphHit> {
    Candidate(DocumentKey(g.hit.node, g.hit.node.nodeId), RoundTrip.SectionText(GraphSection(g)), g)
  }

  function Unscoped(unscope: string -> string, hits: seq<Hit>): seq<GraphHit> {
    MapSeq((hit: Hit) => GraphHit(hit, unscope(Strip(hit.node.content, PythonSpace))), FirstById(hits))
  }

  function GraphLimits(maxChars: int, maxPer: int): Limits {
    Limits([FACT_TITLE, TEXT_TITLE], maxChars, maxPer)
  }

  /** The kept candidates of one of the two kinds, in order. */
  function OfKind(kept: seq<Candidate<GraphHit>>, fact: bool): seq<Candidate<GraphHit>> {
    if kept == [] then []
    else
      var before := OfKind(Init(kept), fact);
      if IsFact(Last(kept).item) == fact then before + [Last(kept)] else before
  }

  function FactParts(kept: seq<Candidate<GraphHit>>): seq<string> {
    [FACT_TITLE] + Texts(OfKind(kept, true))
  }

  function TextParts(kept: seq<Candidate<GraphHit>>): seq<string> {
    [TEXT_TITLE] + Texts(OfKind(kept, false))
  }

  /** The blocks of the output; a block that only has its title is left out. */
  function Blocks(factParts: seq<string>, textParts: seq<string>): seq<string> {
    (if |factParts| > 1 then [Join(factParts, Packing.GAP)] else [])
    + (if |textParts| > 1 then [Join(textParts, Packing.GAP)] else [])
  }

  function GraphText(factParts: seq<string>, textParts: seq<string>): string {
    var blocks := Blocks(factParts, textParts);
    if blocks != [] then Join(blocks, Packing.GAP) else GRAPH_EMPTY
  }

  function GraphKept(hits: seq<GraphHit>, maxChars: int, maxPer: int): seq<Candidate<GraphHit>> {
    Kept(GraphLimits(maxChars, maxPer), MapSeq(GraphCandidate, hits))
  }

  function GraphContext(unscope: string -> string, hits: seq<Hit>, maxChars: int, maxPer: int)
    : Result<string, FormatError>
  {
    if hits == [] then Ok(GRAPH_EMPTY)
    else if maxChars < 1 || maxPer < 1 then Err(InvalidLimits)
    else
      var kept := GraphKept(Unscoped(unscope, hits), maxChars, maxPer);
      Ok(GraphText(FactParts(kept), TextParts(kept)))
  }

  // ---------- the loop ----------

  lemma OfKindStep(kept: seq<Candidate<GraphHit>>, c: Candidate<GraphHit>, fact: bool)
    ensures OfKind(kept + [c], fact) ==
      if IsFact(c.item) == fact then OfKind(kept, fact) + [c] else OfKind(kept, fact)
  {
    assert Init(kept + [c]) == kept && Last(kept + [c]) == c;
  }

  lemma TotalStep(texts: seq<string>, text: string)
    ensures TotalLength(texts + [text]) == TotalLength(texts) + |text|
  {
    TotalLengthConcat(texts, [text]);
  }

  /** Splitting the kept list by kind keeps its total length and size. */
  lemma {:induction false} KindsTotal(kept: seq<Candidate<GraphHit>>)
    ensures TotalLength(Texts(OfKind(kept, true))) + TotalLength(Texts(OfKind(kept, false))) == TotalLength(Texts(kept))
    ensures |OfKind(kept, true)| + |OfKind(kept, false)| == |kept|
    decreases |kept|
  {
    if kept != [] {
      var before, c := Init(kept), Last(kept);
      KindsTotal(before);
      assert kept == before + [c];
      OfKindStep(before, c, true);
      OfKindStep(before, c, false);
      TextsStep(before, c);
      TotalStep(Texts(before), c.text);
      var mine := OfKind(before, IsFact(c.item));
      TextsStep(mine, c);
      TotalStep(Texts(mine), c.text);
    }
  }

  /** The length test over both part lists is the packed length of the grown kept list. */
  lemma GraphLengthTest(limits: Limits, kept: seq<Candidate<GraphHit>>, c: Candidate<GraphHit>)
    requires limits.titles == [FACT_TITLE, TEXT_TITLE]
    ensures |Join(FactParts(kept) + TextParts(kept) + [c.text], Packing.GAP)| == PackedLength(limits, kept + [c])
  {
    JoinLength(FactParts(kept) + TextParts(kept) + [c.text]);
    TotalStep(FactParts(kept) + TextParts(kept), c.text);
    PackedStep(limits, kept, c);
    PartsTotal(limits, kept);
  }

  lemma PartsTotal(limits: Limits, kept: seq<Candidate<GraphHit>>)
    requires limits.titles == [FACT_TITLE, TEXT_TITLE]
    ensures TotalLength(FactParts(kept) + TextParts(kept)) == TotalLength(limits.titles + Texts(kept))
    ensures |FactParts(kept) + TextParts(kept)| == |limits.titles + Texts(kept)|
  {
    KindsTotal(kept);
    TotalLengthConcat(FactParts(kept), TextParts(kept));
    TotalLengthConcat([FACT_TITLE], Texts(OfKind(kept, true)));
    TotalLengthConcat([TEXT_TITLE], Texts(OfKind(kept, false)));
    TotalLengthConcat(limits.titles, Texts(kept));
    TotalLengthConcat([FACT_TITLE], [TEXT_TITLE]);
    assert [FACT_TITLE] + [TEXT_TITLE] == limits.titles;
  }

  lemma PartsStep(kept: seq<Candidate<GraphHit>>, c: Candidate<GraphHit>)
    ensures FactParts(kept + [c]) == if IsFact(c.item) then FactParts(kept) + [c.text] else FactParts(kept)
    ensures TextParts(kept + [c]) == if IsFact(c.item) then TextParts(kept) else TextParts(kept) + [c.text]
  {
    OfKindStep(kept, c, true);
    OfKindStep(kept, c, false);
    TextsStep(OfKind(kept, IsFact(c.item)), c);
  }

  method PackGraph(limits: Limits, items: seq<Candidate<GraphHit>>)
    returns (factParts: seq<string>, textParts: seq<string>)
    requires limits.titles == [FACT_TITLE, TEXT_TITLE]
    ensures factParts == FactParts(Kept(limits, items)) && textParts == TextParts(Kept(limits, items))
  {
    factParts, textParts := [FACT_TITLE], [TEXT_TITLE];
    var documentCounts: map<string, nat> := map[];
    for i := 0 to |items|
      invariant factParts == FactParts(Kept(limits, items[..i]))
      invariant textParts == TextParts(Kept(limits, items[..i]))
      invariant CountsAgree(documentCounts, Kept(limits, items[..i]))
    {
      ghost var kept := Kept(limits, items[..i]);
      var c := items[i];
      KeptStep(limits, items, i);
      GraphLengthTest(limits, kept, c);
      assert DocumentCount(documentCounts, c.key) == CountKey(kept, c.key);
      if DocumentCount(documentCounts, c.key) < limits.maxPer
        && |Join(factParts + textParts + [c.text], Packing.GAP)| <= limits.maxChars
      {
        CountsStep(documentCounts, kept, c);
        PartsStep(kept, c);
        if IsFact(c.item) {
          factParts := factParts + [c.text];
        } else {
          textParts := textParts + [c.text];
        }
        documentCounts := documentCounts[c.key := DocumentCount(documentCounts, c.key) + 1];
      }
    }
    TakeAll(items);
  }

  method FormatGraphRetrievalResults(unscope: string -> string, hits: seq<Hit>, maxChars: int, maxPer: int)
    returns (r: Result<string, FormatError>)
    ensures r == GraphContext(unscope, hits, maxChars, maxPer)
    ensures r == Err(InvalidLimits) <==> hits != [] && (maxChars < 1 || maxPer < 1)
    ensures hits == [] ==> r == Ok("【图数据库检索】: 未找到相关关联事实。")
  {
    if hits == [] {
      return Ok(GRAPH_EMPTY);
    }
    if maxChars < 1 || maxPer < 1 {
      return Err(InvalidLimits);
    }
    var items := MapSeq(GraphCandidate, Unscoped(unscope, hits));
    var factParts, textParts := PackGraph(GraphLimits(maxChars, maxPer), items);
    return Ok(GraphText(factParts, textParts));
  }

  // ---------- the two limits ----------

  /** The output is the fixed empty message or fits the budget, and no document exceeds its share. */
  lemma GraphWithinLimits(hits: seq<GraphHit>, maxChars: int, maxPer: int, key: string)
    requires maxPer >= 1
    ensures var kept := GraphKept(hits, maxChars, maxPer);
      && (GraphText(FactParts(kept), TextParts(kept)) == GRAPH_EMPTY
          || |GraphText(FactParts(kept), TextParts(kept))| <= maxChars)
      && CountKey(kept, key) <= maxPer
  {
    var limits, kept := GraphLimits(maxChars, maxPer), GraphKept(hits, maxChars, maxPer);
    KeptWithinLimits(limits, MapSeq(GraphCandidate, hits), key);
    JoinLength(limits.titles + Texts(kept));
    PartsTotal(limits, kept);
    GraphTextLength(FactParts(kept), TextParts(kept));
    KindsTotal(kept);
  }

  /** In terms of the nodes: no document has more places in the two blocks than its share. */
  lemma GraphPerDocument(hits: seq<GraphHit>, maxChars: int, maxPer: int, d: string)
    requires maxPer >= 1 && d != ""
    ensures Count((c: Candidate<GraphHit>) => InDocument(c.item.hit.node, d), GraphKept(hits, maxChars, maxPer)) <= maxPer
  {
    KeptMapped(GraphLimits(maxChars, maxPer), GraphCandidate, hits);
    GraphWithinLimits(hits, maxChars, maxPer, d);
    CountedByKey(GraphKept(hits, maxChars, maxPer), (c: Candidate<GraphHit>) => InDocument(c.item.hit.node, d), d);
  }

  lemma GraphTextLength(factParts: seq<string>, textParts: seq<string>)
    requires factParts != [] && textParts != []
    ensures GraphText(factParts, textParts) == GRAPH_EMPTY
      || |GraphText(factParts, textParts)| <= JoinedLength(factParts + textParts)
  {
    JoinLength(factParts);
    JoinLength(textParts);
    TotalLengthConcat(factParts, textParts);
    var blocks := Blocks(factParts, textParts);
    if |blocks| == 2 {
      assert blocks[1..] == [Join(textParts, Packing.GAP)];
      assert Join(blocks, Packing.GAP) == blocks[0] + Packing.GAP + blocks[1];
    } else if |blocks| == 1 {
      assert Join(blocks, Packing.GAP) == blocks[0];
    }
  }

  function GraphOutput(kept: seq<Candidate<GraphHit>>): string {
    GraphText(FactParts(kept), TextParts(kept))
  }

  function TitleOf(fact: bool): string {
    if fact then FACT_TITLE else TEXT_TITLE
  }

  /** What the length test counts and the output does not print: the title and gap of a kind nothing is kept of. */
  function Unprinted(kept: seq<Candidate<GraphHit>>): nat {
    (if OfKind(kept, true) == [] then |FACT_TITLE| + |Packing.GAP| else 0)
    + (if OfKind(kept, false) == [] then |TEXT_TITLE| + |Packing.GAP| else 0)
  }

  lemma BlocksLength(factParts: seq<string>, textParts: seq<string>)
    requires |factParts| > 1 || |textParts| > 1
    ensures |GraphText(factParts, textParts)|
      == if |textParts| <= 1 then JoinedLength(factParts) else if |factParts| <= 1 then JoinedLength(textParts)
         else JoinedLength(factParts) + |Packing.GAP| + JoinedLength(textParts)
  {
    JoinLength(factParts);
    JoinLength(textParts);
    var blocks := Blocks(factParts, textParts);
    if |blocks| == 2 {
      assert blocks[1..] == [Join(textParts, Packing.GAP)];
      assert Join(blocks, Packing.GAP) == blocks[0] + Packing.GAP + blocks[1];
    } else {
      assert Join(blocks, Packing.GAP) == blocks[0];
    }
  }

  lemma TitledLength(kept: seq<Candidate<GraphHit>>, fact: bool)
    ensures var mine := Texts(OfKind(kept, fact));
      JoinedLength([TitleOf(fact)] + mine) == |TitleOf(fact)| + TotalLength(mine) + |Packing.GAP| * |mine|
  {
    TotalLengthConcat([TitleOf(fact)], Texts(OfKind(kept, fact)));
  }

  /** The printed length is the tested one without what is not printed. */
  lemma OutputLength(limits: Limits, kept: seq<Candidate<GraphHit>>)
    requires limits.titles == [FACT_TITLE, TEXT_TITLE] && kept != []
    ensures |GraphOutput(kept)| == PackedLength(limits, kept) - Unprinted(kept)
  {
    KindsTotal(kept);
    PartsTotal(limits, kept);
    TotalLengthConcat(FactParts(kept), TextParts(kept));
    TitledLength(kept, true);
    TitledLength(kept, false);
    BlocksLength(FactParts(kept), TextParts(kept));
  }

  /**
   * A skipped hit whose document has places left could still be added to the printed output exactly when nothing of the
   * other kind is kept and the excess is at most that kind's title and gap, which the length test counts all the same.
   */
  lemma GraphMaximal(hits: seq<GraphHit>, maxChars: int, maxPer: int, i: nat)
    requires i < |hits| && !Chosen(GraphLimits(maxChars, maxPer), MapSeq(GraphCandidate, hits), i)
    ensures var kept, c := GraphKept(hits, maxChars, maxPer), GraphCandidate(hits[i]);
      CountKey(kept, c.key) < maxPer ==>
        (|GraphOutput(kept + [c])| <= maxChars <==>
          OfKind(kept, !IsFact(hits[i])) == []
          && PackedLength(GraphLimits(maxChars, maxPer), kept + [c]) <= maxChars + |TitleOf(!IsFact(hits[i]))| + |Packing.GAP|)
  {
    var limits, items := GraphLimits(maxChars, maxPer), MapSeq(GraphCandidate, hits);
    var kept, c := Kept(limits, items), GraphCandidate(hits[i]);
    KeptMaximal(limits, items, i);
    OutputLength(limits, kept + [c]);
    OfKindStep(kept, c, true);
    OfKindStep(kept, c, false);
  }

  // ---------- the round trip ----------

  function GraphEvidence(g: GraphHit): Item {
    EvidenceOf(GraphFirst(g), g.hit, g.content)
  }

  function SectionsOf(kept: seq<Candidate<GraphHit>>): seq<Section> {
    MapSeq(GraphSection, KeptItems(kept))
  }

  /** What should be read back: the facts, then the texts. */
  function GraphExpected(facts: seq<Candidate<GraphHit>>, texts: seq<Candidate<GraphHit>>): seq<Item> {
    MapSeq(GraphEvidence, KeptItems(facts)) + MapSeq(GraphEvidence, KeptItems(texts))
  }

  /** The last fact as the parser sees it: the title of the text block runs into its content. */
  function Merged(s: Section): Section {
    s.(content := s.content + RoundTrip.GAP + TEXT_TITLE)
  }

  /** An item read back says whether it was a fact: exactly those whose content carries the extractor's mark are, and
      they stand in the first block. */
  lemma GraphKinds(kept: seq<Candidate<GraphHit>>, g: GraphHit)
    ensures GraphEvidence(g).kind ==
      Strip(if Contains(g.content, "facts extracted from the provided text") then "关系事实" else "关联文本", PythonSpace)
    ensures forall c | c in OfKind(kept, true) :: Contains(c.item.content, "facts extracted from the provided text")
    ensures forall c | c in OfKind(kept, false) :: !Contains(c.item.content, "facts extracted from the provided text")
  {
    KindsApart(kept, true);
    KindsApart(kept, false);
  }

  lemma {:induction false} KindsApart(kept: seq<Candidate<GraphHit>>, fact: bool)
    ensures forall c | c in OfKind(kept, fact) :: IsFact(c.item) == fact
    decreases |kept|
  {
    if kept != [] { KindsApart(Init(kept), fact); }
  }

  lemma GraphTitles()
    ensures Items(GRAPH_EMPTY) == []
    ensures NoMatch(Lines(FACT_TITLE), HeaderParts) && NoMatch(Lines(TEXT_TITLE), HeaderParts)
  {
    NoItems(GRAPH_EMPTY);
    NoItems(FACT_TITLE);
    NoItems(TEXT_TITLE);
  }

  lemma GraphReads(g: GraphHit)
    requires PlainHit(g.hit)
    ensures ReadsAs(GraphSection(g), GraphEvidence(g))
  {
    NoBlankIsPlain(GraphFirst(g).1);
    SectionPrintable(GraphFirst(g), g.hit, g.content);
    ExpectedIsEvidence(GraphFirst(g), g.hit, g.content);
  }

  lemma MergedBody(s: Section)
    ensures RoundTrip.Body(Merged(s)) != RoundTrip.Body(s)
  {
    StripGrows(s.content, RoundTrip.GAP, TEXT_TITLE, PythonSpace);
  }

  lemma MergedText(s: Section)
    ensures RoundTrip.SectionText(Merged(s)) == RoundTrip.SectionText(s) + RoundTrip.GAP + TEXT_TITLE
  {
    Regroup(RoundTrip.Header(s) + "\n", s.content, RoundTrip.GAP + TEXT_TITLE);
    Regroup(s.content, RoundTrip.GAP, TEXT_TITLE);
    Regroup(RoundTrip.SectionText(s), RoundTrip.GAP, TEXT_TITLE);
  }

  /** The output with both blocks is a one-title context in which the last fact has swallowed the second title. */
  lemma BothBlocks(facts: seq<Section>, texts: seq<Section>)
    requires facts != []
    ensures RoundTrip.ContextText(FACT_TITLE, Init(facts) + [Merged(Last(facts))] + texts) ==
      RoundTrip.ContextText(FACT_TITLE, facts) + RoundTrip.GAP + RoundTrip.ContextText(TEXT_TITLE, texts)
  {
    var front := [FACT_TITLE] + MapSeq(RoundTrip.SectionText, Init(facts));
    var last, rest := RoundTrip.SectionText(Last(facts)), MapSeq(RoundTrip.SectionText, texts);
    MergedText(Last(facts));
    MapLast(facts);
    MapConcat(RoundTrip.SectionText, Init(facts) + [Merged(Last(facts))], texts);
    MapConcat(RoundTrip.SectionText, Init(facts), [Merged(Last(facts))]);
    assert MapSeq(RoundTrip.SectionText, [Merged(Last(facts))]) == [last + RoundTrip.GAP + TEXT_TITLE];
    JoinMerge(front, last, TEXT_TITLE, rest, RoundTrip.GAP);
    Regroup([FACT_TITLE], MapSeq(RoundTrip.SectionText, Init(facts)), [last]);
    Regroup([FACT_TITLE], MapSeq(RoundTrip.SectionText, Init(facts)), [last + RoundTrip.GAP + TEXT_TITLE]);
    Regroup([FACT_TITLE], MapSeq(RoundTrip.SectionText, Init(facts)) + [last + RoundTrip.GAP + TEXT_TITLE], rest);
  }

  lemma MapLast(facts: seq<Section>)
    requires facts != []
    ensures MapSeq(RoundTrip.SectionText, facts) ==
      MapSeq(RoundTrip.SectionText, Init(facts)) + [RoundTrip.SectionText(Last(facts))]
  {
  }

  lemma OneBlock(title: string, kept: seq<Candidate<GraphHit>>)
    requires kept != [] && NoMatch(Lines(title), HeaderParts)
    requires forall c | c in kept :: c == GraphCandidate(c.item) && PlainHit(c.item.hit)
    ensures Join([title] + Texts(kept), Packing.GAP) == RoundTrip.ContextText(title, SectionsOf(kept))
    ensures Items(Join([title] + Texts(kept), Packing.GAP)) == MapSeq(GraphEvidence, KeptItems(kept))
      <==> forall c | c in kept :: CleanSection(GraphSection(c.item))
  {
    PackedIsContext(title, kept, GraphSection);
    GraphTitles();
    forall c | c in kept ensures ReadsAs(GraphSection(c.item), GraphEvidence(c.item)) {
      GraphReads(c.item);
    }
    PackedRoundTrip(title, GRAPH_EMPTY, Limits([title], 0, 0), kept, GraphSection, GraphEvidence);
  }

  lemma KeptHeader(kept: seq<Candidate<GraphHit>>, s: Section)
    requires forall c | c in kept :: PlainHit(c.item.hit)
    requires s in SectionsOf(kept)
    ensures '\n' !in RoundTrip.Header(s)
  {
    var k :| 0 <= k < |kept| && s == GraphSection(kept[k].item);
    GraphReads(kept[k].item);
  }

  /** The sections as the parser sees them when both blocks are printed. */
  function MergedSections(facts: seq<Candidate<GraphHit>>, texts: seq<Candidate<GraphHit>>): seq<Section>
    requires facts != []
  {
    Init(SectionsOf(facts)) + [Merged(Last(SectionsOf(facts)))] + SectionsOf(texts)
  }

  lemma MergedHeader(facts: seq<Candidate<GraphHit>>, texts: seq<Candidate<GraphHit>>, s: Section)
    requires facts != [] && s in MergedSections(facts, texts)
    requires forall c | c in facts + texts :: PlainHit(c.item.hit)
    ensures '\n' !in RoundTrip.Header(s)
  {
    assert forall c | c in facts :: c in facts + texts;
    assert forall c | c in texts :: c in facts + texts;
    var f := SectionsOf(facts);
    if s in SectionsOf(texts) {
      KeptHeader(texts, s);
    } else if s in Init(f) {
      KeptHeader(facts, s);
    } else {
      assert s == Merged(Last(f));
      KeptHeader(facts, Last(f));
    }
  }

  /** The last fact's content is not what should be read back. */
  lemma MergedContent(facts: seq<Candidate<GraphHit>>, texts: seq<Candidate<GraphHit>>)
    requires facts != []
    ensures var i := |facts| - 1;
      && i < |MergedSections(facts, texts)| == |GraphExpected(facts, texts)|
      && GraphExpected(facts, texts)[i].content != RoundTrip.Body(MergedSections(facts, texts)[i])
  {
    var f := SectionsOf(facts);
    var i := |facts| - 1;
    MergedBody(Last(f));
    assert MergedSections(facts, texts)[i] == Merged(Last(f));
    assert GraphExpected(facts, texts)[i] == GraphEvidence(Last(facts).item);
    assert Last(f) == GraphSection(Last(facts).item);
  }

  lemma KeptText(title: string, kept: seq<Candidate<GraphHit>>)
    requires forall c | c in kept :: c == GraphCandidate(c.item)
    ensures Join([title] + Texts(kept), Packing.GAP) == RoundTrip.ContextText(title, SectionsOf(kept))
  {
    PackedIsContext(title, kept, GraphSection);
  }

  /** With both blocks present the parser never returns what was printed. */
  lemma TwoBlocks(facts: seq<Candidate<GraphHit>>, texts: seq<Candidate<GraphHit>>)
    requires facts != [] && texts != []
    requires forall c | c in facts + texts :: c == GraphCandidate(c.item) && PlainHit(c.item.hit)
    ensures Items(Join([FACT_TITLE] + Texts(facts), Packing.GAP) + Packing.GAP
                  + Join([TEXT_TITLE] + Texts(texts), Packing.GAP)) != GraphExpected(facts, texts)
  {
    assert forall c | c in facts :: c in facts + texts;
    assert forall c | c in texts :: c in facts + texts;
    KeptText(FACT_TITLE, facts);
    KeptText(TEXT_TITLE, texts);
    BothBlocks(SectionsOf(facts), SectionsOf(texts));
    forall s | s in MergedSections(facts, texts) ensures '\n' !in RoundTrip.Header(s) {
      MergedHeader(facts, texts, s);
    }
    TwoBlocksReadWrong(facts, texts);
  }

  lemma TwoBlocksReadWrong(facts: seq<Candidate<GraphHit>>, texts: seq<Candidate<GraphHit>>)
    requires facts != [] && forall s | s in MergedSections(facts, texts) :: '\n' !in RoundTrip.Header(s)
    ensures Items(RoundTrip.ContextText(FACT_TITLE, MergedSections(facts, texts))) != GraphExpected(facts, texts)
  {
    GraphTitles();
    MergedContent(facts, texts);
    RoundTrip.OtherContent(FACT_TITLE, MergedSections(facts, texts), GraphExpected(facts, texts), |facts| - 1);
  }

  lemma {:induction false} OfKindFrom(kept: seq<Candidate<GraphHit>>)
    ensures forall c :: c in kept <==> c in OfKind(kept, true) || c in OfKind(kept, false)
    decreases |kept|
  {
    if kept != [] {
      OfKindFrom(Init(kept));
      assert kept == Init(kept) + [Last(kept)];
    }
  }

  lemma TextOfBlocks(facts: seq<string>, texts: seq<string>)
    requires |facts| >= 1 && |texts| >= 1
    ensures GraphText(facts, texts) ==
      if |facts| > 1 && |texts| > 1 then Join(facts, Packing.GAP) + Packing.GAP + Join(texts, Packing.GAP)
      else if |facts| > 1 then Join(facts, Packing.GAP)
      else if |texts| > 1 then Join(texts, Packing.GAP)
      else GRAPH_EMPTY
  {
    var blocks := Blocks(facts, texts);
    if |blocks| == 2 {
      assert blocks[1..] == [Join(texts, Packing.GAP)];
      assert Join(blocks, Packing.GAP) == blocks[0] + Packing.GAP + blocks[1];
    }
  }

  predicate AllClean(kept: seq<Candidate<GraphHit>>) {
    forall c | c in kept :: CleanSection(GraphSection(c.item))
  }

  lemma BlocksRoundTrip(facts: seq<Candidate<GraphHit>>, texts: seq<Candidate<GraphHit>>)
    requires forall c | c in facts + texts :: c == GraphCandidate(c.item) && PlainHit(c.item.hit)
    ensures Items(GraphText([FACT_TITLE] + Texts(facts), [TEXT_TITLE] + Texts(texts))) == GraphExpected(facts, texts)
      <==> (facts == [] || texts == []) && AllClean(facts) && AllClean(texts)
  {
    TextOfBlocks([FACT_TITLE] + Texts(facts), [TEXT_TITLE] + Texts(texts));
    if facts != [] && texts != [] {
      TwoBlocks(facts, texts);
    } else if facts != [] {
      GraphTitles();
      OneBlock(FACT_TITLE, facts);
    } else if texts != [] {
      GraphTitles();
      OneBlock(TEXT_TITLE, texts);
      assert GraphExpected(facts, texts) == MapSeq(GraphEvidence, KeptItems(texts));
    } else {
      GraphTitles();
    }
  }

  /**
   * The parser returns the facts and texts that were printed if and only if the sections are clean and the
   * output does not hold both blocks: otherwise the second title becomes part of the last fact's content.
   */
  lemma GraphRoundTrip(hits: seq<GraphHit>, maxChars: int, maxPer: int)
    requires forall g | g in hits :: PlainHit(g.hit)
    ensures var kept := GraphKept(hits, maxChars, maxPer);
      var facts, texts := OfKind(kept, true), OfKind(kept, false);
      Items(GraphText(FactParts(kept), TextParts(kept))) == GraphExpected(facts, texts)
      <==> (facts == [] || texts == []) && AllClean(kept)
  {
    var kept := GraphKept(hits, maxChars, maxPer);
    KeptMapped(GraphLimits(maxChars, maxPer), GraphCandidate, hits);
    OfKindFrom(kept);
    BlocksRoundTrip(OfKind(kept, true), OfKind(kept, false));
  }
}
