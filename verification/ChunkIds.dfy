/**
 * Stable chunk ids (rag/chunker.py). A digest stands for the text it digests: the hash is taken to be injective.
 */
module ChunkIds {
  import opened Decimal
  import opened Text

  const NUL: char := 0 as char

  /** A document as its ingestion sees it: the pieces the splitter cuts from it are the same on every attempt. */
  datatype Doc = Doc(tenant: string, id: string, version: string, texts: seq<string>)

  datatype Chunk = Chunk(tenant: string, document: string, version: string, index: nat, text: string)

  datatype Node = Node(id: string, chunk: Chunk)

  /** The part of the digested text that names the document. */
  function Scope(tenant: string, document: string, version: string): string {
    tenant + [NUL] + document + [NUL] + version
  }

  function StableNodeId(tenant: string, document: string, version: string, index: nat): string {
    Scope(tenant, document, version) + [NUL] + IntText(index)
  }

  /** A document id and version that delimit the text; the tenant may be anything. */
  predicate Distinguishable(document: string, version: string) {
    NUL !in document && NUL !in version
  }

  lemma IndexHasNoNul(i: nat)
    ensures NUL !in IntText(i)
  {
    assert forall c | c in Digits(i) :: IsDigit(c);
  }

  /** Two chunks have the same id exactly when they have the same index and their documents the same scope. */
  lemma SameIdIff(t: string, d: string, v: string, i: nat, t': string, d': string, v': string, i': nat)
    ensures StableNodeId(t, d, v, i) == StableNodeId(t', d', v', i') <==> Scope(t, d, v) == Scope(t', d', v') && i == i'
  {
    IndexHasNoNul(i);
    IndexHasNoNul(i');
    if StableNodeId(t, d, v, i) == StableNodeId(t', d', v', i') {
      LastCut(Scope(t, d, v), IntText(i), Scope(t', d', v'), IntText(i'), NUL);
      IntTextInjective(i, i');
    }
  }

  /** Whatever the tenants, chunks of documents with distinguishable ids and versions share an id only if they are the
      same chunk. */
  lemma StableNodeIdInjective(t: string, d: string, v: string, i: nat, t': string, d': string, v': string, i': nat)
    requires Distinguishable(d, v) && Distinguishable(d', v')
    requires StableNodeId(t, d, v, i) == StableNodeId(t', d', v', i')
    ensures t == t' && d == d' && v == v' && i == i'
  {
    SameIdIff(t, d, v, i, t', d', v', i');
    LastCut(t + [NUL] + d, v, t' + [NUL] + d', v', NUL);
    LastCut(t, d, t', d', NUL);
  }

  /** Where the separators of a scope stand, when there are no others. */
  lemma ScopeSeparators(t: string, d: string, v: string, k: nat)
    requires NUL !in t && NUL !in d && NUL !in v && k < |Scope(t, d, v)|
    ensures Scope(t, d, v)[k] == NUL <==> k == |t| || k == |t| + 1 + |d|
  {
    var s := Scope(t, d, v);
    if k < |t| {
      assert s[k] == t[k];
    } else if |t| < k < |t| + 1 + |d| {
      assert s[k] == d[k - |t| - 1];
    } else if k > |t| + 1 + |d| {
      assert s[k] == v[k - |t| - |d| - 2];
    }
  }

  lemma ScopeParts(t: string, d: string, v: string)
    ensures var s := Scope(t, d, v);
      && |s| == |t| + |d| + |v| + 2 && s[|t|] == NUL && s[|t| + 1 + |d|] == NUL
      && s[..|t|] == t && s[|t| + 1..|t| + 1 + |d|] == d && s[|t| + |d| + 2..] == v
  {
  }

  lemma ScopeUnique(t: string, d: string, v: string, t': string, d': string, v': string)
    requires NUL !in t && NUL !in d && NUL !in v && Scope(t', d', v') == Scope(t, d, v)
    ensures t == t' && d == d' && v == v'
  {
    ScopeParts(t, d, v);
    ScopeParts(t', d', v');
    ScopeSeparators(t, d, v, |t'|);
    ScopeSeparators(t, d, v, |t'| + 1 + |d'|);
  }

  /** Another document with the same scope, made by moving a separator that is part of one of the three texts. */
  lemma OtherScope(t: string, d: string, v: string) returns (t': string, d': string, v': string)
    requires NUL in t || NUL in d || NUL in v
    ensures Scope(t', d', v') == Scope(t, d, v) && (t', d', v') != (t, d, v)
  {
    if NUL in t {
      var a, b := SplitAt(t, NUL);
      t', d', v' := a, b, d + [NUL] + v;
      assert |t'| < |t|;
    } else if NUL in d {
      var a, b := SplitAt(d, NUL);
      t', d', v' := t, a, b + [NUL] + v;
      assert |d'| < |d|;
    } else {
      var a, b := SplitAt(v, NUL);
      t', d', v' := t + [NUL] + d, a, b;
      assert |t'| > |t|;
    }
  }

  /** A document shares its chunk ids with some other document exactly when its tenant, id or version holds a NUL. */
  lemma AmbiguousIff(t: string, d: string, v: string, i: nat)
    ensures (exists t', d', v' :: (t', d', v') != (t, d, v) && StableNodeId(t', d', v', i) == StableNodeId(t, d, v, i))
      <==> NUL in t || NUL in d || NUL in v
  {
    if NUL in t || NUL in d || NUL in v {
      var t', d', v' := OtherScope(t, d, v);
      SameIdIff(t', d', v', i, t, d, v, i);
      assert StableNodeId(t', d', v', i) == StableNodeId(t, d, v, i);
    } else {
      forall t', d', v' | StableNodeId(t', d', v', i) == StableNodeId(t, d, v, i) ensures (t', d', v') == (t, d, v) {
        SameIdIff(t', d', v', i, t, d, v, i);
        ScopeUnique(t, d, v, t', d', v');
      }
    }
  }

  // ---------- the nodes of a document ----------

  function IdOf(doc: Doc, i: nat): string {
    StableNodeId(doc.tenant, doc.id, doc.version, i)
  }

  function ChunkOf(doc: Doc, i: nat): Chunk
    requires i < |doc.texts|
  {
    Chunk(doc.tenant, doc.id, doc.version, i, doc.texts[i])
  }

  function NodeOf(doc: Doc, i: nat): Node
    requires i < |doc.texts|
  {
    Node(IdOf(doc, i), ChunkOf(doc, i))
  }

  function Nodes(doc: Doc): seq<Node> {
    seq(|doc.texts|, i requires 0 <= i < |doc.texts| => NodeOf(doc, i))
  }

  /** The loop at the end of `split_text`, which numbers the pieces and gives them their ids. */
  method AssignIds(tenant: string, document: string, version: string, texts: seq<string>) returns (nodes: seq<Node>)
    ensures nodes == Nodes(Doc(tenant, document, version, texts))
    ensures |nodes| == |texts|
    ensures forall i | 0 <= i < |texts| ::
      nodes[i] == Node(StableNodeId(tenant, document, version, i), Chunk(tenant, document, version, i, texts[i]))
  {
    nodes := [];
    for i := 0 to |texts|
      invariant |nodes| == i
      invariant forall k | 0 <= k < i :: nodes[k] == NodeOf(Doc(tenant, document, version, texts), k)
    {
      nodes := nodes + [Node(StableNodeId(tenant, document, version, i), Chunk(tenant, document, version, i, texts[i]))];
    }
  }
}
