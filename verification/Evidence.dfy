/** core/search.py: reading the retrieval context text back into evidence items. */
module Evidence {
  import opened Wrappers
  import opened Text
  import opened Sequences
  import opened Scanning
  import Decimal

  const OPEN := "--- [来源: "
  const CLOSE := "] ---"
  const SEP := " | "

  /** The detail fields a header may carry. */
  datatype Key = Kind | Backend | Score | DocumentId | Version | ChunkIndex

  /** Field names are made of these characters only. */
  predicate KeyChar(c: char) {
    c > '\U{4000}' || c == 'I' || c == 'D'
  }

  function KeyText(key: Key): (text: string)
    ensures |text| >= 2 && forall i | 0 <= i < |text| :: KeyChar(text[i])
  {
    match key
    case Kind => "类型"
    case Backend => "后端"
    case Score => "匹配分值"
    case DocumentId => "文档ID"
    case Version => "版本"
    case ChunkIndex => "切片"
  }

  datatype Item = Item(
    identity: string,  // the text whose digest is the item's id
    source: string,
    content: string,
    score: string,     // the text handed to float()
    kind: string,
    backend: string,
    documentId: Option<string>,
    version: Option<int>,
    chunkIndex: Option<int>)

  /** Splits `rest` as `source sep metadata close`, the source as short as possible. */
  function RestParts(rest: string, sep: string, close: string): Option<(string, string)> {
    var i := Find(rest, sep);
    if i >= 0 && |rest| >= i + |sep| + |close| && rest[|rest| - |close|..] == close then
      Some((rest[..i], rest[i + |sep|..|rest| - |close|]))
    else None
  }

  /** The two groups of `_HEADER_PATTERN` on one line, or None when the line does not match. */
  function HeaderParts(line: string): Option<(string, string)> {
    if OPEN <= line then RestParts(line[|OPEN|..], SEP, CLOSE) else None
  }

  predicate IsHeader(line: string) {
    HeaderParts(line).Some?
  }

  /** The line a pair of groups would have to come from. */
  function HeaderLine(source: string, metadata: string): string {
    OPEN + source + SEP + metadata + CLOSE
  }

  /** One `key: value` item of the metadata group added to the dictionary. */
  function AddMetadata(metadata: map<string, string>, item: string): map<string, string> {
    var i := Find(item, ":");
    if i < 0 then metadata
    else metadata[Strip(item[..i], PythonSpace) := Strip(item[i + 1..], PythonSpace)]
  }

  function MetadataOf(items: seq<string>): map<string, string> {
    if items == [] then map[] else AddMetadata(MetadataOf(Init(items)), Last(items))
  }

  function Lookup(metadata: map<string, string>, key: Key, default: string): string {
    if KeyText(key) in metadata then metadata[KeyText(key)] else default
  }

  function OptionalInt(metadata: map<string, string>, key: Key): Option<int> {
    if KeyText(key) in metadata then Decimal.ParseInt(metadata[KeyText(key)]) else None
  }

  function MakeItem(source: string, metadata: map<string, string>, content: string): Item {
    Item(
      source + "\n" + content,
      Strip(source, PythonSpace),
      content,
      Lookup(metadata, Score, ""),
      Lookup(metadata, Kind, "检索片段"),
      Lookup(metadata, Backend, ""),
      if Lookup(metadata, DocumentId, "") == "" then None else Some(Lookup(metadata, DocumentId, "")),
      OptionalInt(metadata, Version),
      OptionalInt(metadata, ChunkIndex))
  }

  function MatchItem(r: Report): Item {
    MakeItem(r.source, MetadataOf(Split(r.metadata, SEP)), Strip(r.between, PythonSpace))
  }

  function ItemsOf(reports: seq<Report>): seq<Item> {
    MapSeq(MatchItem, reports)
  }

  /** Everything `parse_retrieval_context` reports about a text. */
  function Items(context: string): seq<Item> {
    ItemsOf(Reports(Lines(context), HeaderParts))
  }

  /** The inner loop that fills the metadata dictionary. */
  method ParseMetadata(group: string) returns (metadata: map<string, string>)
    ensures metadata == MetadataOf(Split(group, SEP))
  {
    metadata := map[];
    var items := Split(group, SEP);
    for k := 0 to |items|
      invariant metadata == MetadataOf(items[..k])
    {
      assert Init(items[..k + 1]) == items[..k] && Last(items[..k + 1]) == items[k];
      metadata := AddMetadata(metadata, items[k]);
    }
    assert items[..|items|] == items;
  }

  /** The outer loop: `_HEADER_PATTERN` matches whole lines, each content runs up to the next match. */
  method ParseRetrievalContext(context: string) returns (evidence: seq<Item>)
    ensures evidence == Items(context)
  {
    var lines := Lines(context);
    evidence := [];
    for index := 0 to |lines|
      invariant evidence + ItemsOf(Reports(lines[index..], HeaderParts)) == Items(context)
    {
      var groups := HeaderParts(lines[index]);
      var rest := lines[index + 1..];
      assert lines[index..][0] == lines[index] && lines[index..][1..] == rest;
      ItemsOfPrepend(groups, Between(rest, HeaderParts), Reports(rest, HeaderParts));
      if groups.Some? {
        var (source, group) := groups.value;
        var metadata := ParseMetadata(group);
        var item := MakeItem(source, metadata, Strip(Between(rest, HeaderParts), PythonSpace));
        Regroup(evidence, [item], ItemsOf(Reports(rest, HeaderParts)));
        evidence := evidence + [item];
      }
    }
  }

  lemma ItemsOfPrepend(groups: Groups, between: string, reports: seq<Report>)
    ensures ItemsOf(Prepend(groups, between, reports)) ==
      match groups
      case Some(g) => [MatchItem(Report(g.0, g.1, between))] + ItemsOf(reports)
      case None => ItemsOf(reports)
  {
    match groups
    case Some(g) =>
      MapCons(MatchItem, Report(g.0, g.1, between), reports);
    case None =>
  }

  // ---------- the pattern ----------

  lemma RestPartsLazy(rest: string, source: string, metadata: string, sep: string, close: string)
    requires rest == source + sep + metadata + close
    ensures RestParts(rest, sep, close).Some?
    ensures |RestParts(rest, sep, close).value.0| <= |source|
  {
    assert rest[|source|..|source| + |sep|] == sep;
    assert OccursAt(rest, sep, |source|);
    assert rest[|rest| - |close|..] == close;
  }

  lemma RestPartsRebuild(rest: string, sep: string, close: string)
    requires RestParts(rest, sep, close).Some?
    ensures var (s, m) := RestParts(rest, sep, close).value; rest == s + sep + m + close
  {
    var i := Find(rest, sep);
    assert rest == rest[..i] + rest[i..i + |sep|] + rest[i + |sep|..|rest| - |close|] + rest[|rest| - |close|..];
  }

  lemma RestPartsExact(source: string, metadata: string, sep: string, close: string)
    requires sep != ""
    ensures RestParts(source + sep + metadata + close, sep, close) == Some((source, metadata))
      <==> !Contains(source + Init(sep), sep)
  {
    var rest := source + sep + metadata + close;
    RestPartsLazy(rest, source, metadata, sep, close);
    EarlierSeparator(source, sep);
    assert (source + sep)[|source|..] == sep;
    assert OccursAt(source + sep, sep, |source|);
    assert rest == source + sep + (metadata + close);
    FindExtend(source + sep, metadata + close, sep);
    if Find(rest, sep) == |source| {
      assert rest[..|source|] == source;
      assert rest[|source| + |sep|..|rest| - |close|] == metadata;
    }
  }

  lemma HeaderLineRest(source: string, metadata: string)
    ensures OPEN <= HeaderLine(source, metadata)
    ensures HeaderLine(source, metadata)[|OPEN|..] == source + SEP + metadata + CLOSE
  {
    var rest := source + SEP + metadata + CLOSE;
    assert HeaderLine(source, metadata) == OPEN + rest;
  }

  /** The captured groups rebuild the line, and no reading of the line has a shorter source group. */
  lemma HeaderPartsLazy(line: string, source: string, metadata: string)
    requires line == HeaderLine(source, metadata)
    ensures IsHeader(line) && |HeaderParts(line).value.0| <= |source|
  {
    HeaderLineRest(source, metadata);
    RestPartsLazy(line[|OPEN|..], source, metadata, SEP, CLOSE);
  }

  /** A line is accepted exactly when it can be read as a header, and the groups rebuild it. */
  lemma HeaderPartsComplete(line: string)
    ensures IsHeader(line) <==> exists s, m :: line == HeaderLine(s, m)
    ensures IsHeader(line) ==> line == HeaderLine(HeaderParts(line).value.0, HeaderParts(line).value.1)
  {
    if IsHeader(line) {
      var rest := line[|OPEN|..];
      RestPartsRebuild(rest, SEP, CLOSE);
      var (s, m) := HeaderParts(line).value;
      HeaderLineRest(s, m);
      assert line == OPEN + rest;
      assert HeaderLine(s, m) == OPEN + HeaderLine(s, m)[|OPEN|..];
    }
    if exists s, m :: line == HeaderLine(s, m) {
      var s, m :| line == HeaderLine(s, m);
      HeaderPartsLazy(line, s, m);
    }
  }

  /** A printed header line yields its own groups exactly when no separator starts inside the source. */
  lemma HeaderPartsExact(source: string, metadata: string)
    ensures HeaderParts(HeaderLine(source, metadata)) == Some((source, metadata)) <==> !Contains(source + " |", SEP)
  {
    HeaderLineRest(source, metadata);
    RestPartsExact(source, metadata, SEP, CLOSE);
    assert Init(SEP) == " |";
  }
}
