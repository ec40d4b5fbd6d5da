/** The three context formatters and what the evidence parser makes of their output. */
module Formatters {
  import opened Wrappers
  import opened Text
  import opened Sequences
  import opened Scanning
  import opened Evidence
  import RoundTrip
  import opened Nodes
  import opened Packing
  import opened Printing

  datatype FormatError = InvalidLimits

  type Section = RoundTrip.Section

  const FUSED_TITLE := "### 融合检索参考资料："
  const FUSED_EMPTY := "检索的结果为空"

  // ---------- the fused formatter ----------

  function FusedFirst(r: Fused): (Key, string) {
    (Backend, Join(r.backends, ", "))
  }

  function FusedSection(r: Fused): Section {
    SectionOf(FusedFirst(r), r.hit, Strip(r.hit.node.content, PythonSpace))
  }

  function FusedCandidate(r: Fused): Candidate<Fused> {
    Candidate(DocumentKey(r.hit.node, Identity(r.hit.node)), RoundTrip.SectionText(FusedSection(r)), r)
  }

  function FusedLimits(maxChars: int, maxPer: int): Limits {
    Limits([FUSED_TITLE], maxChars, maxPer)
  }

  function FusedKept(results: seq<Fused>, maxChars: int, maxPer: int): seq<Candidate<Fused>> {
    Kept(FusedLimits(maxChars, maxPer), MapSeq(FusedCandidate, results))
  }

  function Packed<T>(limits: Limits, kept: seq<Candidate<T>>, empty: string): string {
    if |kept| == 0 then empty else Join(limits.titles + Texts(kept), Packing.GAP)
  }

  function FusedContext(results: seq<Fused>, maxChars: int, maxPer: int): Result<string, FormatError> {
    if results == [] then Ok(FUSED_EMPTY)
    else if maxChars < 1 || maxPer < 1 then Err(InvalidLimits)
    else Ok(Packed(FusedLimits(maxChars, maxPer), FusedKept(results, maxChars, maxPer), FUSED_EMPTY))
  }

  method FormatFusedContext(results: seq<Fused>, maxChars: int, maxPer: int) returns (r: Result<string, FormatError>)
    ensures r == FusedContext(results, maxChars, maxPer)
    ensures r == Err(InvalidLimits) <==> results != [] && (maxChars < 1 || maxPer < 1)
    ensures results == [] ==> r == Ok("检索的结果为空")
  {
    if results == [] {
      return Ok(FUSED_EMPTY);
    }
    if maxChars < 1 || maxPer < 1 {
      return Err(InvalidLimits);
    }
    var parts := Pack(FusedLimits(maxChars, maxPer), MapSeq(FusedCandidate, results));
    return Ok(if |parts| > 1 then Join(parts, Packing.GAP) else FUSED_EMPTY);
  }

  // ---------- the vector formatter ----------

  const MILVUS_TITLE := "### 📚 向量库参考文档："
  const MILVUS_EMPTY := "【向量库检索】: 未找到相关参考资料。"

  const MILVUS_FIRST: (Key, string) := (Kind, "原始文本块")

  function MilvusSection(hit: Hit): Section {
    SectionOf(MILVUS_FIRST, hit, Strip(hit.node.content, PythonSpace))
  }

  function MilvusCandidate(hit: Hit): Candidate<Hit> {
    Candidate(DocumentKey(hit.node, hit.node.nodeId), RoundTrip.SectionText(MilvusSection(hit)), hit)
  }

  function Ids(hits: seq<Hit>): set<string> {
    set hit | hit in hits :: hit.node.nodeId
  }

  /** The hits whose node id has not occurred before. */
  function FirstById(hits: seq<Hit>): seq<Hit> {
    if hits == [] then []
    else
      var before := FirstById(Init(hits));
      if Last(hits).node.nodeId in Ids(Init(hits)) then before else before + [Last(hits)]
  }

  function MilvusLimits(maxChars: int, maxPer: int): Limits {
    Limits([MILVUS_TITLE], maxChars, maxPer)
  }

  function MilvusKept(hits: seq<Hit>, maxChars: int, maxPer: int): seq<Candidate<Hit>> {
    Kept(MilvusLimits(maxChars, maxPer), MapSeq(MilvusCandidate, FirstById(hits)))
  }

  function MilvusContext(hits: seq<Hit>, maxChars: int, maxPer: int): Result<string, FormatError> {
    if hits == [] then Ok(MILVUS_EMPTY)
    else if maxChars < 1 || maxPer < 1 then Err(InvalidLimits)
    else Ok(Packed(MilvusLimits(maxChars, maxPer), MilvusKept(hits, maxChars, maxPer), MILVUS_EMPTY))
  }

  method SkipSeen(hits: seq<Hit>) returns (r: seq<Hit>)
    ensures r == FirstById(hits)
  {
    r := [];
    var seenIds: set<string> := {};
    for i := 0 to |hits|
      invariant r == FirstById(hits[..i])
      invariant seenIds == Ids(hits[..i])
    {
      assert Init(hits[..i + 1]) == hits[..i] && Last(hits[..i + 1]) == hits[i];
      TakeNext(hits, i);
      if hits[i].node.nodeId !in seenIds {
        r := r + [hits[i]];
      }
      seenIds := seenIds + {hits[i].node.nodeId};
    }
    TakeAll(hits);
  }

  method FormatMilvusContext(hits: seq<Hit>, maxChars: int, maxPer: int) returns (r: Result<string, FormatError>)
    ensures r == MilvusContext(hits, maxChars, maxPer)
    ensures r == Err(InvalidLimits) <==> hits != [] && (maxChars < 1 || maxPer < 1)
    ensures hits == [] ==> r == Ok("【向量库检索】: 未找到相关参考资料。")
  {
    if hits == [] {
      return Ok(MILVUS_EMPTY);
    }
    if maxChars < 1 || maxPer < 1 {
      return Err(InvalidLimits);
    }
    var distinct := SkipSeen(hits);
    var parts := Pack(MilvusLimits(maxChars, maxPer), MapSeq(MilvusCandidate, distinct));
    return Ok(if |parts| > 1 then Join(parts, Packing.GAP) else MILVUS_EMPTY);
  }

  // ---------- the two limits ----------

  /** The output is the fixed empty message or fits the budget, and no document exceeds its share. */
  lemma PackedWithinLimits<T>(limits: Limits, items: seq<Candidate<T>>, empty: string, key: string)
    requires limits.maxPer >= 1
    ensures var kept := Kept(limits, items);
      && (Packed(limits, kept, empty) == empty || |Packed(limits, kept, empty)| <= limits.maxChars)
      && CountKey(kept, key) <= limits.maxPer
  {
    KeptWithinLimits(limits, items, key);
  }

  /** No skipped candidate could be appended to the finished output without breaking one of the limits. */
  lemma PackedMaximal<T>(limits: Limits, items: seq<Candidate<T>>, i: nat)
    requires i < |items| && limits.titles != [] && !Chosen(limits, items, i)
    ensures var kept := Kept(limits, items);
      || CountKey(kept, items[i].key) >= limits.maxPer
      || |Join(limits.titles + Texts(kept), Packing.GAP) + Packing.GAP + items[i].text| > limits.maxChars
  {
    var kept := Kept(limits, items);
    KeptMaximal(limits, items, i);
    JoinLength(limits.titles + Texts(kept));
    PackedStep(limits, kept, items[i]);
  }

  /** The node belongs to the document `d`: by its document id, or without one by its file name. */
  predicate InDocument(n: Node, d: string) {
    n.documentId == Some(d) || ((n.documentId == None || n.documentId == Some("")) && n.fileName == Some(d))
  }

  lemma {:induction false} CountedByKey<T>(kept: seq<Candidate<T>>, p: Candidate<T> -> bool, key: string)
    requires forall c | c in kept && p(c) :: c.key == key
    ensures Count(p, kept) <= CountKey(kept, key)
    decreases |kept|
  {
    if |kept| > 0 {
      CountedByKey(Init(kept), p, key);
      CountAppend(p, Init(kept), Last(kept));
      assert kept == Init(kept) + [Last(kept)];
    }
  }

  /** In terms of the nodes: no document has more places in the fused output than its share. */
  lemma FusedPerDocument(results: seq<Fused>, maxChars: int, maxPer: int, d: string)
    requires maxPer >= 1 && d != ""
    ensures Count((c: Candidate<Fused>) => InDocument(c.item.hit.node, d), FusedKept(results, maxChars, maxPer)) <= maxPer
  {
    KeptMapped(FusedLimits(maxChars, maxPer), FusedCandidate, results);
    PackedWithinLimits(FusedLimits(maxChars, maxPer), MapSeq(FusedCandidate, results), FUSED_EMPTY, d);
    CountedByKey(FusedKept(results, maxChars, maxPer), (c: Candidate<Fused>) => InDocument(c.item.hit.node, d), d);
  }

  lemma MilvusPerDocument(hits: seq<Hit>, maxChars: int, maxPer: int, d: string)
    requires maxPer >= 1 && d != ""
    ensures Count((c: Candidate<Hit>) => InDocument(c.item.node, d), MilvusKept(hits, maxChars, maxPer)) <= maxPer
  {
    KeptMapped(MilvusLimits(maxChars, maxPer), MilvusCandidate, FirstById(hits));
    PackedWithinLimits(MilvusLimits(maxChars, maxPer), MapSeq(MilvusCandidate, FirstById(hits)), MILVUS_EMPTY, d);
    CountedByKey(MilvusKept(hits, maxChars, maxPer), (c: Candidate<Hit>) => InDocument(c.item.node, d), d);
  }

  /** The hit at `j` is the first with its node id. */
  predicate FirstWithId(hits: seq<Hit>, j: nat) {
    j < |hits| && forall k | 0 <= k < j :: hits[k].node.nodeId != hits[j].node.nodeId
  }

  /** Exactly the first hits of each node id are kept, in their order: `p` are their places. */
  lemma {:induction false} FirstByIdExact(hits: seq<Hit>) returns (p: seq<nat>)
    ensures |p| == |FirstById(hits)| && forall i, j | 0 <= i < j < |p| :: p[i] < p[j]
    ensures forall i | 0 <= i < |p| :: FirstWithId(hits, p[i]) && FirstById(hits)[i] == hits[p[i]]
    ensures forall j: nat | FirstWithId(hits, j) :: j in p
    decreases |hits|
  {
    p := [];
    if |hits| > 0 {
      var init, n := Init(hits), |hits| - 1;
      p := FirstByIdExact(init);
      assert forall k | 0 <= k < n :: init[k] == hits[k];
      assert forall j: nat | j < n :: FirstWithId(init, j) <==> FirstWithId(hits, j);
      assert hits[n].node.nodeId in Ids(init) <==> !FirstWithId(hits, n);
      if FirstWithId(hits, n) { p := p + [n]; }
    }
  }

  // ---------- round trips ----------

  function KeptItems<T>(kept: seq<Candidate<T>>): (items: seq<T>)
    ensures |items| == |kept| && forall i | 0 <= i < |kept| :: items[i] == kept[i].item
  {
    seq(|kept|, i requires 0 <= i < |kept| => kept[i].item)
  }

  lemma {:induction false} KeptFrom<T>(limits: Limits, items: seq<Candidate<T>>)
    ensures forall c | c in Kept(limits, items) :: c in items
    decreases |items|
  {
    if |items| > 0 { KeptFrom(limits, Init(items)); }
  }

  /** Everything kept is the candidate of one of the inputs. */
  lemma KeptMapped<T>(limits: Limits, candidate: T -> Candidate<T>, xs: seq<T>)
    requires forall x | x in xs :: candidate(x).item == x
    ensures forall c | c in Kept(limits, MapSeq(candidate, xs)) :: c == candidate(c.item) && c.item in xs
  {
    KeptFrom(limits, MapSeq(candidate, xs));
  }

  /** A packed context under one title is the printed form of the kept items' sections. */
  lemma PackedIsContext<T>(title: string, kept: seq<Candidate<T>>, section: T -> Section)
    requires forall c | c in kept :: c.text == RoundTrip.SectionText(section(c.item))
    ensures Join([title] + Texts(kept), Packing.GAP) ==
      RoundTrip.ContextText(title, MapSeq(section, KeptItems(kept)))
  {
    assert Texts(kept) == MapSeq(RoundTrip.SectionText, MapSeq(section, KeptItems(kept)));
  }

  lemma NoItems(text: string)
    requires '\n' !in text && text != "" && text[0] != '-'
    ensures Items(text) == [] && NoMatch(Lines(text), HeaderParts)
  {
    RoundTrip.LinesOfOne(text);
    assert HeaderParts(text).None?;
    ReportsCount(Lines(text), HeaderParts);
  }

  /** The section prints one clean header line and stands for the given item. */
  predicate ReadsAs(s: Section, item: Item) {
    RoundTrip.Printable(s) && RoundTrip.Expected(s) == item
  }

  predicate CleanSection(s: Section) {
    RoundTrip.CleanContent(s) && RoundTrip.CleanSource(s)
  }

  lemma PackedRoundTrip<T>(title: string, empty: string, limits: Limits, kept: seq<Candidate<T>>,
                           section: T -> Section, evidence: T -> Item)
    requires limits.titles == [title]
    requires NoMatch(Lines(title), HeaderParts) && Items(empty) == []
    requires forall c | c in kept :: c.text == RoundTrip.SectionText(section(c.item))
    requires forall c | c in kept :: ReadsAs(section(c.item), evidence(c.item))
    ensures Items(Packed(limits, kept, empty)) == MapSeq(evidence, KeptItems(kept))
      <==> forall c | c in kept :: CleanSection(section(c.item))
  {
    var items := KeptItems(kept);
    var sections := MapSeq(section, items);
    PackedIsContext(title, kept, section);
    if |kept| > 0 {
      RoundTrip.RoundTripExact(title, sections);
      assert MapSeq(RoundTrip.Expected, sections) == MapSeq(evidence, items);
    }
  }

  function FusedEvidence(r: Fused): Item {
    EvidenceOf(FusedFirst(r), r.hit, Strip(r.hit.node.content, PythonSpace))
  }

  lemma FusedTitles()
    ensures Items(FUSED_EMPTY) == [] && NoMatch(Lines(FUSED_TITLE), HeaderParts)
  {
    NoItems(FUSED_EMPTY);
    NoItems(FUSED_TITLE);
  }

  lemma FusedReads(r: Fused)
    requires PlainHit(r.hit) && PlainValue(FusedFirst(r).1)
    ensures ReadsAs(FusedSection(r), FusedEvidence(r))
  {
    var content := Strip(r.hit.node.content, PythonSpace);
    SectionPrintable(FusedFirst(r), r.hit, content);
    ExpectedIsEvidence(FusedFirst(r), r.hit, content);
  }

  /**
   * The parser returns exactly the emitted results, in order, with their own values, if and only if no emitted
   * file name holds a separator and no emitted content holds a header line.
   */
  lemma FusedRoundTrip(results: seq<Fused>, maxChars: int, maxPer: int)
    requires results != [] && maxChars >= 1 && maxPer >= 1
    requires forall r | r in results :: PlainHit(r.hit) && PlainValue(FusedFirst(r).1)
    ensures var kept := FusedKept(results, maxChars, maxPer);
      Items(FusedContext(results, maxChars, maxPer).value) == MapSeq(FusedEvidence, KeptItems(kept))
      <==> forall c | c in kept :: CleanSection(FusedSection(c.item))
  {
    var limits, kept := FusedLimits(maxChars, maxPer), FusedKept(results, maxChars, maxPer);
    FusedTitles();
    KeptMapped(limits, FusedCandidate, results);
    forall c | c in kept ensures ReadsAs(FusedSection(c.item), FusedEvidence(c.item)) {
      FusedReads(c.item);
    }
    PackedRoundTrip(FUSED_TITLE, FUSED_EMPTY, limits, kept, FusedSection, FusedEvidence);
  }

  function MilvusEvidence(hit: Hit): Item {
    EvidenceOf(MILVUS_FIRST, hit, Strip(hit.node.content, PythonSpace))
  }

  lemma MilvusTitles()
    ensures Items(MILVUS_EMPTY) == [] && NoMatch(Lines(MILVUS_TITLE), HeaderParts)
    ensures PlainValue(MILVUS_FIRST.1)
  {
    NoItems(MILVUS_EMPTY);
    NoItems(MILVUS_TITLE);
    NoBlankIsPlain(MILVUS_FIRST.1);
  }

  lemma MilvusReads(hit: Hit)
    requires PlainHit(hit) && PlainValue(MILVUS_FIRST.1)
    ensures ReadsAs(MilvusSection(hit), MilvusEvidence(hit))
  {
    var content := Strip(hit.node.content, PythonSpace);
    SectionPrintable(MILVUS_FIRST, hit, content);
    ExpectedIsEvidence(MILVUS_FIRST, hit, content);
  }

  lemma {:induction false} FirstByIdFrom(hits: seq<Hit>)
    ensures forall hit | hit in FirstById(hits) :: hit in hits
    decreases |hits|
  {
    if hits != [] { FirstByIdFrom(Init(hits)); }
  }

  /** The same for the vector formatter. */
  lemma MilvusRoundTrip(hits: seq<Hit>, maxChars: int, maxPer: int)
    requires hits != [] && maxChars >= 1 && maxPer >= 1
    requires forall hit | hit in hits :: PlainHit(hit)
    ensures var kept := MilvusKept(hits, maxChars, maxPer);
      Items(MilvusContext(hits, maxChars, maxPer).value) == MapSeq(MilvusEvidence, KeptItems(kept))
      <==> forall c | c in kept :: CleanSection(MilvusSection(c.item))
  {
    var limits, kept := MilvusLimits(maxChars, maxPer), MilvusKept(hits, maxChars, maxPer);
    MilvusTitles();
    FirstByIdFrom(hits);
    KeptMapped(limits, MilvusCandidate, FirstById(hits));
    forall c | c in kept ensures ReadsAs(MilvusSection(c.item), MilvusEvidence(c.item)) {
      MilvusReads(c.item);
    }
    PackedRoundTrip(MILVUS_TITLE, MILVUS_EMPTY, limits, kept, MilvusSection, MilvusEvidence);
  }
}
