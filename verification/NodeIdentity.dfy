/** Which hits `retrieval_identity` takes for the same: their chunk, else their node id, else their content. */
module NodeIdentity {
  import opened Wrappers
  import opened Text
  import opened Decimal
  import opened Nodes
  import opened Ordering
  import opened Fusion
  import opened FusionSpec

  predicate Chunked(n: Node) {
    n.tenantId.Some? && n.documentId.Some? && n.version.Some? && n.chunkIndex.Some?
  }

  // ---------- the texts ----------

  function ChunkText(tenant: string, document: string, version: int, index: int): string {
    tenant + ":" + document + ":" + IntText(version) + ":" + IntText(index)
  }

  lemma JoinFour(a: string, b: string, c: string, d: string)
    ensures Join([a, b, c, d], ":") == a + ":" + b + ":" + c + ":" + d
  {
    assert [a, b, c, d][1..] == [b, c, d] && [b, c, d][1..] == [c, d] && [c, d][1..] == [d];
    assert Join([c, d], ":") == c + ":" + d;
    assert Join([b, c, d], ":") == b + ":" + (c + ":" + d);
  }

  lemma NoColon(n: int)
    ensures ':' !in IntText(n)
  {
    IntTextStripped(n);
  }

  /** The versions and indexes can be read off; tenant and document only together. */
  lemma ChunkTextIff(t: string, d: string, v: int, i: int, t': string, d': string, v': int, i': int)
    ensures ChunkText(t, d, v, i) == ChunkText(t', d', v', i') <==> t + ":" + d == t' + ":" + d' && v == v' && i == i'
  {
    NoColon(v);
    NoColon(v');
    NoColon(i);
    NoColon(i');
    if ChunkText(t, d, v, i) == ChunkText(t', d', v', i') {
      LastCut(t + ":" + d + ":" + IntText(v), IntText(i), t' + ":" + d' + ":" + IntText(v'), IntText(i'), ':');
      LastCut(t + ":" + d, IntText(v), t' + ":" + d', IntText(v'), ':');
      IntTextInjective(v, v');
      IntTextInjective(i, i');
    }
  }

  lemma PairUnique(t: string, d: string, t': string, d': string)
    requires ':' !in t && ':' !in d && t + ":" + d == t' + ":" + d'
    ensures t == t' && d == d'
  {
    var s := t + ":" + d;
    assert s[|t'|] == ':';
    assert forall k | 0 <= k < |s| && k != |t| :: s[k] == (if k < |t| then t[k] else d[k - |t| - 1]) && s[k] != ':';
    assert t == s[..|t|] && t' == s[..|t'|];
    assert d == s[|t| + 1..] && d' == s[|t'| + 1..];
  }

  /** A chunk shares its text with another one exactly when its tenant or document id holds a colon. */
  lemma AmbiguousChunkIff(t: string, d: string, v: int, i: int)
    ensures (exists t', d' :: (t', d') != (t, d) && ChunkText(t', d', v, i) == ChunkText(t, d, v, i)) <==> ':' in t || ':' in d
  {
    if ':' in t || ':' in d {
      var t', d' := OtherPair(t, d);
      ChunkTextIff(t', d', v, i, t, d, v, i);
      assert ChunkText(t', d', v, i) == ChunkText(t, d, v, i);
    } else {
      forall t', d' | ChunkText(t', d', v, i) == ChunkText(t, d, v, i) ensures (t', d') == (t, d) {
        ChunkTextIff(t', d', v, i, t, d, v, i);
        PairUnique(t, d, t', d');
      }
    }
  }

  lemma OtherPair(t: string, d: string) returns (t': string, d': string)
    requires ':' in t || ':' in d
    ensures t' + ":" + d' == t + ":" + d && (t', d') != (t, d)
  {
    if ':' in t {
      var a, b := SplitAt(t, ':');
      t', d' := a, b + ":" + d;
      assert |t'| < |t|;
    } else {
      var a, b := SplitAt(d, ':');
      t', d' := t + ":" + a, b;
      assert |t'| > |t|;
    }
  }

  // ---------- the identity ----------

  /** The same chunk, or the same as far as the identity can tell. */
  predicate SameChunkText(a: Node, b: Node)
    requires Chunked(a) && Chunked(b)
  {
    && a.tenantId.value + ":" + a.documentId.value == b.tenantId.value + ":" + b.documentId.value
    && a.version == b.version && a.chunkIndex == b.chunkIndex
  }

  predicate SameIdentity(a: Node, b: Node) {
    if Chunked(a) || Chunked(b) then Chunked(a) && Chunked(b) && SameChunkText(a, b)
    else if a.nodeId != "" || b.nodeId != "" then a.nodeId == b.nodeId
    else a.content == b.content
  }

  lemma IdentityForm(n: Node)
    ensures Identity(n) ==
      if Chunked(n) then "chunk:" + ChunkText(n.tenantId.value, n.documentId.value, n.version.value, n.chunkIndex.value)
      else if n.nodeId != "" then "node:" + n.nodeId else "content:" + n.content
  {
    if Chunked(n) {
      JoinFour(n.tenantId.value, n.documentId.value, IntText(n.version.value), IntText(n.chunkIndex.value));
    }
  }

  lemma SamePrefix(p: string, x: string, y: string)
    ensures p + x == p + y <==> x == y
  {
    assert (p + x)[|p|..] == x && (p + y)[|p|..] == y;
  }

  lemma KindsDiffer(x: string, y: string)
    ensures "chunk:" + x != "node:" + y && "chunk:" + x != "content:" + y && "node:" + x != "content:" + y
  {
    assert ("chunk:" + x)[1] == 'h' && ("node:" + y)[1] == 'o' && ("content:" + y)[1] == 'o';
    assert ("node:" + x)[0] == 'n' && ("content:" + y)[0] == 'c';
  }

  /**
   * Two hits are taken for the same exactly when their chunk texts are, if both name their chunk; when their node ids
   * are, if neither does and one of them has a node id; and when their contents are otherwise. The three kinds never
   * coincide.
   */
  lemma KeyIff(a: Hit, b: Hit)
    ensures Key(a) == Key(b) <==> SameIdentity(a.node, b.node)
  {
    IdentityForm(a.node);
    IdentityForm(b.node);
    if Chunked(a.node) && Chunked(b.node) {
      ChunkedIff(a.node, b.node);
    } else if !Chunked(a.node) && !Chunked(b.node) {
      UnchunkedIff(a.node, b.node);
    } else {
      OneChunked(a.node, b.node);
    }
  }

  lemma ChunkedIff(a: Node, b: Node)
    requires Chunked(a) && Chunked(b)
    ensures Identity(a) == Identity(b) <==> SameChunkText(a, b)
  {
    IdentityForm(a);
    IdentityForm(b);
    SamePrefix("chunk:", ChunkText(a.tenantId.value, a.documentId.value, a.version.value, a.chunkIndex.value),
      ChunkText(b.tenantId.value, b.documentId.value, b.version.value, b.chunkIndex.value));
    ChunkTextIff(a.tenantId.value, a.documentId.value, a.version.value, a.chunkIndex.value,
      b.tenantId.value, b.documentId.value, b.version.value, b.chunkIndex.value);
  }

  lemma UnchunkedIff(a: Node, b: Node)
    requires !Chunked(a) && !Chunked(b)
    ensures Identity(a) == Identity(b) <==> if a.nodeId != "" || b.nodeId != "" then a.nodeId == b.nodeId else a.content == b.content
  {
    SamePrefix("node:", a.nodeId, b.nodeId);
    SamePrefix("content:", a.content, b.content);
    KindsDiffer(a.nodeId, b.content);
    KindsDiffer(b.nodeId, a.content);
  }

  lemma OneChunked(a: Node, b: Node)
    requires Chunked(a) != Chunked(b)
    ensures Identity(a) != Identity(b)
  {
    var c, d := if Chunked(a) then a else b, if Chunked(a) then b else a;
    IdentityForm(c);
    var x := ChunkText(c.tenantId.value, c.documentId.value, c.version.value, c.chunkIndex.value);
    KindsDiffer(x, d.nodeId);
    KindsDiffer(x, d.content);
  }

  /** No colon in the tenants, or none in the document ids: then the identity is that of the chunk. */
  predicate Separable(a: Node, b: Node)
    requires Chunked(a) && Chunked(b)
  {
    || (':' !in a.tenantId.value && ':' !in b.tenantId.value)
    || (':' !in a.documentId.value && ':' !in b.documentId.value)
  }

  lemma SeparableIff(a: Hit, b: Hit)
    requires Chunked(a.node) && Chunked(b.node) && Separable(a.node, b.node)
    ensures Key(a) == Key(b) <==>
      && a.node.tenantId == b.node.tenantId && a.node.documentId == b.node.documentId
      && a.node.version == b.node.version && a.node.chunkIndex == b.node.chunkIndex
  {
    KeyIff(a, b);
    var t, d, t', d' := a.node.tenantId.value, a.node.documentId.value, b.node.tenantId.value, b.node.documentId.value;
    if t + ":" + d == t' + ":" + d' {
      if ':' !in t && ':' !in t' { FirstCut(t, d, t', d', ':'); } else { LastCut(t, d, t', d', ':'); }
    }
  }

  // ---------- consequences ----------

  /** Hits of different chunks all survive deduplication. */
  lemma DifferentChunksSurvive(hits: seq<Hit>)
    requires forall i | 0 <= i < |hits| :: Chunked(hits[i].node) && ':' !in hits[i].node.tenantId.value
    requires forall i, j | 0 <= i < j < |hits| ::
      || hits[i].node.tenantId != hits[j].node.tenantId || hits[i].node.documentId != hits[j].node.documentId
      || hits[i].node.version != hits[j].node.version || hits[i].node.chunkIndex != hits[j].node.chunkIndex
    ensures multiset(Dedup(Key, hits)) == multiset(hits)
  {
    forall i, j | 0 <= i < j < |hits| ensures Key(hits[i]) != Key(hits[j]) {
      SeparableIff(hits[i], hits[j]);
    }
    CollectAll(Key, hits);
    SortMembers(HigherScore, hits);
  }

  /** Of hits taken for the same, one survives: no two kept hits are, and every hit is taken for the same as a kept one. */
  lemma DuplicatesMerge(hits: seq<Hit>)
    ensures var r := Dedup(Key, hits);
      && (forall i, j | 0 <= i < j < |r| :: !SameIdentity(r[i].node, r[j].node))
      && (forall j | 0 <= j < |hits| :: exists i :: 0 <= i < |r| && SameIdentity(r[i].node, hits[j].node))
  {
    var r := Dedup(Key, hits);
    DedupExact(Key, hits);
    forall i, j | 0 <= i < j < |r| ensures !SameIdentity(r[i].node, r[j].node) { KeyIff(r[i], r[j]); }
    forall j | 0 <= j < |hits| ensures exists i :: 0 <= i < |r| && SameIdentity(r[i].node, hits[j].node) {
      var i :| 0 <= i < |r| && Key(r[i]) == Key(hits[j]);
      KeyIff(r[i], hits[j]);
    }
  }
}
