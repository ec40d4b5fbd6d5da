/** How a hit is printed as a section, and which item the parser should make of that section. */
module Printing {
  import opened Wrappers
  import opened Text
  import opened Decimal
  import opened Sequences
  import opened Evidence
  import opened RoundTrip
  import opened Nodes

  // ---------- sections ----------

  function Details(node: Node): seq<(Key, string)> {
    (if node.documentId.Some? then [(DocumentId, node.documentId.value)] else [])
    + (if node.version.Some? then [(Version, IntText(node.version.value))] else [])
    + (if node.chunkIndex.Some? then [(ChunkIndex, IntText(node.chunkIndex.value))] else [])
  }

  function FieldsOf(first: (Key, string), hit: Hit): seq<(Key, string)> {
    [first, (Score, ScoreText(hit.score))] + Details(hit.node)
  }

  /** A section for a hit whose first detail field and printed content are given. */
  function SectionOf(first: (Key, string), hit: Hit, content: string): Section {
    Section(FileName(hit.node), FieldsOf(first, hit), content)
  }

  /** What an item says about the hit it was printed from. */
  function EvidenceOf(first: (Key, string), hit: Hit, printed: string): Item {
    var content := Strip(printed, PythonSpace);
    var id := if hit.node.documentId.Some? then Strip(hit.node.documentId.value, PythonSpace) else "";
    Item(
      FileName(hit.node) + "\n" + content,
      Strip(FileName(hit.node), PythonSpace),
      content,
      ScoreText(hit.score),
      if first.0 == Kind then Strip(first.1, PythonSpace) else "检索片段",
      if first.0 == Backend then Strip(first.1, PythonSpace) else "",
      if id == "" then None else Some(id),
      hit.node.version,
      hit.node.chunkIndex)
  }

  /** A detail value on one line in which no separator can be read, whatever precedes and follows it. */
  predicate PlainValue(value: string) {
    '\n' !in value && !Contains(" " + value + " |", SEP)
  }

  /** The values of a hit that are printed verbatim into its header. */
  predicate PlainHit(hit: Hit) {
    && '\n' !in FileName(hit.node)
    && (hit.node.documentId.Some? ==> PlainValue(hit.node.documentId.value))
  }

  // ---------- the metadata dictionary ----------

  function FieldValue(fields: seq<(Key, string)>, key: Key): Option<string> {
    if fields == [] then None
    else if Last(fields).0 == key then Some(Last(fields).1)
    else FieldValue(Init(fields), key)
  }

  lemma KeyCharsPlain(text: string)
    requires forall i | 0 <= i < |text| :: KeyChar(text[i])
    ensures ':' !in text && ' ' !in text && '\n' !in text
    ensures Strip(text, PythonSpace) == text
  {
    StripStripped(text, PythonSpace);
  }

  lemma KeyTextInjective(j: Key, k: Key)
    ensures KeyText(j) == KeyText(k) ==> j == k
  {
    var tj, tk := KeyText(j), KeyText(k);
    if tj == tk {
      assert |tj| == |tk| && tj[0] == tk[0];
    }
  }

  lemma AddField(metadata: map<string, string>, field: (Key, string))
    ensures AddMetadata(metadata, FieldText(field)) ==
      metadata[KeyText(field.0) := Strip(field.1, PythonSpace)]
  {
    var key, rest := KeyText(field.0), " " + field.1;
    KeyCharsPlain(key);
    assert FieldText(field) == key + ":" + rest;
    AddItem(metadata, key, rest);
    StripLeftPad(" ", field.1, PythonSpace);
  }

  lemma AddItem(metadata: map<string, string>, key: string, rest: string)
    requires ':' !in key
    ensures AddMetadata(metadata, key + ":" + rest) == metadata[Strip(key, PythonSpace) := Strip(rest, PythonSpace)]
  {
    var item := key + ":" + rest;
    FindChar(key, rest, ':');
    assert item[..|key|] == key && item[|key| + 1..] == rest;
  }

  lemma {:induction false} MetadataLookup(fields: seq<(Key, string)>, key: Key)
    ensures var metadata := MetadataOf(MapSeq(FieldText, fields));
      match FieldValue(fields, key)
      case Some(value) => KeyText(key) in metadata && metadata[KeyText(key)] == Strip(value, PythonSpace)
      case None => KeyText(key) !in metadata
    decreases |fields|
  {
    if fields != [] {
      MetadataLookup(Init(fields), key);
      MetadataStep(fields);
      KeyTextInjective(key, Last(fields).0);
    }
  }

  lemma MetadataStep(fields: seq<(Key, string)>)
    requires fields != []
    ensures MetadataOf(MapSeq(FieldText, fields)) ==
      MetadataOf(MapSeq(FieldText, Init(fields)))[KeyText(Last(fields).0) := Strip(Last(fields).1, PythonSpace)]
  {
    var texts := MapSeq(FieldText, fields);
    assert Init(texts) == MapSeq(FieldText, Init(fields));
    AddField(MetadataOf(Init(texts)), Last(fields));
  }

  function OrElse(x: Option<string>, y: Option<string>): Option<string> {
    if x.Some? then x else y
  }

  lemma {:induction false} FieldValueConcat(a: seq<(Key, string)>, b: seq<(Key, string)>, key: Key)
    ensures FieldValue(a + b, key) == OrElse(FieldValue(b, key), FieldValue(a, key))
    decreases |b|
  {
    if b == [] {
      assert a + b == a;
    } else {
      FieldValueConcat(a, Init(b), key);
      assert Init(a + b) == a + Init(b);
    }
  }

  lemma FieldValueOne(field: (Key, string), key: Key)
    ensures FieldValue([field], key) == if field.0 == key then Some(field.1) else None
  {
    assert Init([field]) == [];
  }

  function IntField(n: Option<int>): Option<string> {
    match n
    case Some(value) => Some(IntText(value))
    case None => None
  }

  /** The value each field of a printed section carries. */
  function SectionValue(first: (Key, string), hit: Hit, key: Key): Option<string> {
    match key
    case Score => Some(ScoreText(hit.score))
    case DocumentId => hit.node.documentId
    case Version => IntField(hit.node.version)
    case ChunkIndex => IntField(hit.node.chunkIndex)
    case _ => if first.0 == key then Some(first.1) else None
  }

  lemma DetailValue(node: Node, key: Key)
    ensures FieldValue(Details(node), key) ==
      match key
      case DocumentId => node.documentId
      case Version => IntField(node.version)
      case ChunkIndex => IntField(node.chunkIndex)
      case _ => None
  {
    var d := if node.documentId.Some? then [(DocumentId, node.documentId.value)] else [];
    var v := if node.version.Some? then [(Version, IntText(node.version.value))] else [];
    var c := if node.chunkIndex.Some? then [(ChunkIndex, IntText(node.chunkIndex.value))] else [];
    FieldValueConcat(d + v, c, key);
    FieldValueConcat(d, v, key);
    if node.documentId.Some? { FieldValueOne((DocumentId, node.documentId.value), key); }
    if node.version.Some? { FieldValueOne((Version, IntText(node.version.value)), key); }
    if node.chunkIndex.Some? { FieldValueOne((ChunkIndex, IntText(node.chunkIndex.value)), key); }
  }

  lemma SectionFieldValue(first: (Key, string), hit: Hit, key: Key)
    requires first.0 == Kind || first.0 == Backend
    ensures FieldValue(FieldsOf(first, hit), key) == SectionValue(first, hit, key)
  {
    var score := (Score, ScoreText(hit.score));
    DetailValue(hit.node, key);
    FieldValueConcat([first, score], Details(hit.node), key);
    FieldValueOne(first, key);
    FieldValueOne(score, key);
    FieldValueConcat([first], [score], key);
    assert [first] + [score] == [first, score];
  }

  function SectionMetadata(first: (Key, string), hit: Hit): map<string, string> {
    MetadataOf(MapSeq(FieldText, FieldsOf(first, hit)))
  }

  lemma LookupField(first: (Key, string), hit: Hit, key: Key, default: string)
    requires first.0 == Kind || first.0 == Backend
    ensures Lookup(SectionMetadata(first, hit), key, default) ==
      match SectionValue(first, hit, key)
      case Some(value) => Strip(value, PythonSpace)
      case None => default
  {
    SectionFieldValue(first, hit, key);
    MetadataLookup(FieldsOf(first, hit), key);
  }

  lemma LookupInt(first: (Key, string), hit: Hit, key: Key, n: Option<int>)
    requires first.0 == Kind || first.0 == Backend
    requires SectionValue(first, hit, key) == IntField(n)
    ensures OptionalInt(SectionMetadata(first, hit), key) == n
  {
    SectionFieldValue(first, hit, key);
    MetadataLookup(FieldsOf(first, hit), key);
    if n.Some? {
      IntTextStripped(n.value);
      StripStripped(IntText(n.value), PythonSpace);
      ParseIntText(n.value);
    }
  }

  lemma ScoreTextStripped(score: Option<real>)
    ensures Strip(ScoreText(score), PythonSpace) == ScoreText(score)
  {
    ScoreTextChars(score);
    var t := ScoreText(score);
    assert ScoreChar(t[0]) && ScoreChar(t[|t| - 1]);
    StripStripped(t, PythonSpace);
  }

  /** An item made of metadata, from what the metadata say. */
  lemma ItemOf(source: string, m: map<string, string>, content: string, item: Item)
    requires item.identity == source + "\n" + content && item.source == Strip(source, PythonSpace) && item.content == content
    requires item.score == Lookup(m, Score, "") && item.kind == Lookup(m, Kind, "检索片段")
    requires item.backend == Lookup(m, Backend, "")
    requires item.documentId == if Lookup(m, DocumentId, "") == "" then None else Some(Lookup(m, DocumentId, ""))
    requires item.version == OptionalInt(m, Version) && item.chunkIndex == OptionalInt(m, ChunkIndex)
    ensures MakeItem(source, m, content) == item
  {
  }

  lemma LookupScore(first: (Key, string), hit: Hit)
    requires first.0 == Kind || first.0 == Backend
    ensures Lookup(SectionMetadata(first, hit), Score, "") == ScoreText(hit.score)
  {
    ScoreTextStripped(hit.score);
    LookupField(first, hit, Score, "");
  }

  /** The item a printed hit should be read back as carries exactly the hit's own values. */
  lemma ExpectedIsEvidence(first: (Key, string), hit: Hit, content: string)
    requires first.0 == Kind || first.0 == Backend
    ensures Expected(SectionOf(first, hit, content)) == EvidenceOf(first, hit, content)
  {
    LookupScore(first, hit);
    LookupField(first, hit, Kind, "检索片段");
    LookupField(first, hit, Backend, "");
    LookupField(first, hit, DocumentId, "");
    LookupInt(first, hit, Version, hit.node.version);
    LookupInt(first, hit, ChunkIndex, hit.node.chunkIndex);
    ItemOf(FileName(hit.node), SectionMetadata(first, hit), Strip(content, PythonSpace), EvidenceOf(first, hit, content));
  }

  // ---------- printable sections ----------

  /** A text free of the separator's first character in front keeps separators out. */
  lemma PrefixFree(front: string, value: string, sep: string)
    requires sep != "" && sep[0] !in front
    ensures Contains(front + value, sep) <==> Contains(value, sep)
  {
    forall j: nat ensures OccursAt(front + value, sep, |front| + j) <==> OccursAt(value, sep, j) {
      if j + |sep| <= |value| {
        assert (front + value)[|front| + j..|front| + j + |sep|] == value[j..j + |sep|];
      }
    }
    forall j: nat | j < |front| ensures !OccursAt(front + value, sep, j) {
      if j + |sep| <= |front + value| {
        assert (front + value)[j..j + |sep|][0] == front[j];
      }
    }
    if Contains(front + value, sep) {
      var j := Find(front + value, sep);
      assert OccursAt(value, sep, j - |front|);
    }
    if Contains(value, sep) {
      assert OccursAt(front + value, sep, |front| + Find(value, sep));
    }
  }

  lemma {:induction false} JoinFree(parts: seq<string>, sep: string, c: char)
    requires c !in sep && forall i | 0 <= i < |parts| :: c !in parts[i]
    ensures c !in Join(parts, sep)
    decreases |parts|
  {
    if |parts| > 1 {
      JoinFree(parts[1..], sep, c);
    }
  }

  /** Texts without blanks and bars are plain. */
  lemma NoBlankIsPlain(value: string)
    requires value != "" && ' ' !in value && '|' !in value && '\n' !in value
    ensures PlainValue(value)
  {
    var padded := " " + value + " |";
    forall j: nat ensures !OccursAt(padded, SEP, j) {
      if j + 3 <= |padded| {
        assert padded[j..j + 3][1] == padded[j + 1];
        assert padded[j + 1] == if j < |value| then value[j] else ' ';
      }
    }
  }

  lemma FieldTextPlain(field: (Key, string))
    requires PlainValue(field.1)
    ensures '\n' !in FieldText(field) && !Contains(FieldText(field) + " |", SEP)
  {
    var key := KeyText(field.0);
    KeyCharsPlain(key);
    var padded := " " + field.1 + " |";
    assert FieldText(field) + " |" == (key + ":") + padded;
    assert SEP[0] == ' ';
    PrefixFree(key + ":", padded, SEP);
  }

  lemma NoSeparatorInPrefix(a: string, b: string, sep: string)
    requires !Contains(a + b, sep)
    ensures !Contains(a, sep)
  {
    if Contains(a, sep) { FindExtend(a, b, sep); }
  }

  lemma FieldsSeparable(fields: seq<(Key, string)>)
    requires fields != [] && forall i | 0 <= i < |fields| :: PlainValue(fields[i].1)
    ensures Separable(MapSeq(FieldText, fields), SEP) && '\n' !in Join(MapSeq(FieldText, fields), SEP)
  {
    var texts := MapSeq(FieldText, fields);
    assert Init(SEP) == " |";
    forall i | 0 <= i < |texts|
      ensures '\n' !in texts[i] && Find(texts[i] + SEP, SEP) == |texts[i]| && !Contains(texts[i], SEP)
    {
      FieldTextPlain(fields[i]);
      EarlierSeparator(texts[i], SEP);
      NoSeparatorInPrefix(texts[i], " |", SEP);
    }
    JoinFree(texts, SEP, '\n');
  }

  lemma FieldValuesPlain(first: (Key, string), hit: Hit)
    requires PlainValue(first.1) && PlainHit(hit)
    ensures forall field | field in FieldsOf(first, hit) :: PlainValue(field.1)
  {
    ScoreTextChars(hit.score);
    NoBlankIsPlain(ScoreText(hit.score));
    if hit.node.version.Some? { IntTextPlain(hit.node.version.value); }
    if hit.node.chunkIndex.Some? { IntTextPlain(hit.node.chunkIndex.value); }
  }

  lemma IntTextPlain(n: int)
    ensures PlainValue(IntText(n))
  {
    IntTextStripped(n);
    NoBlankIsPlain(IntText(n));
  }

  /** A hit with plain values prints a one-line header whose details can be split again. */
  lemma SectionPrintable(first: (Key, string), hit: Hit, content: string)
    requires PlainValue(first.1) && PlainHit(hit)
    ensures Printable(SectionOf(first, hit, content))
  {
    var s := SectionOf(first, hit, content);
    FieldValuesPlain(first, hit);
    FieldsSeparable(s.fields);
    assert '\n' !in OPEN && '\n' !in SEP && '\n' !in CLOSE;
  }
}
