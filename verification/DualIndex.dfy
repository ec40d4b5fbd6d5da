/**
 * The two search indexes: batched upserts under stable ids, the dual write, and deletion, where any attempt may
 * fail after having stored or removed an arbitrary part of what it should.
 */
module DualIndex {
  import opened ChunkIds

  type Index = map<string, Chunk>

  datatype Backend = Vector | Graph

  datatype Mode = MilvusOnly | GraphOnly | Both | Unsupported

  /** What a write to one index achieved: everything, or the nodes at some positions before it raised. */
  datatype Write = Complete | Partial(kept: set<nat>)

  /** What a deletion achieved: everything, or some ids before it raised. */
  datatype Removal = Removed | Aborted(gone: set<string>)

  datatype Step =
    | Ingest(doc: Doc, mode: Mode, milvus: Write, neo4j: Write)
    | Remove(tenant: string, id: string, mode: Mode, fromMilvus: Removal, fromNeo4j: Removal)

  datatype IndexError = EmptyDocument | WriteFailed | DualWriteFailed(milvusOk: bool, neo4jOk: bool) | UnsupportedMode
    | MissingIdentity | DeleteFailed

  // ---------- one index ----------

  function Upserts(x: Index, ns: seq<Node>): Index
    decreases |ns|
  {
    if |ns| == 0 then x
    else Upserts(x, ns[..|ns| - 1])[ns[|ns| - 1].id := ns[|ns| - 1].chunk]
  }

  /** Whether the write stores the node at position `i`. */
  predicate Stores(w: Write, i: nat) {
    w.Complete? || i in w.kept
  }

  /** The nodes at the stored positions from `lo` up to `hi`. */
  function Select(ns: seq<Node>, w: Write, lo: nat, hi: nat): seq<Node>
    requires hi <= |ns|
    decreases hi
  {
    if hi <= lo then []
    else Select(ns, w, lo, hi - 1) + if Stores(w, hi - 1) then [ns[hi - 1]] else []
  }

  function WriteNodes(x: Index, ns: seq<Node>, w: Write): Index {
    Upserts(x, Select(ns, w, 0, |ns|))
  }

  function WriteTo(x: Index, doc: Doc, w: Write): Index {
    WriteNodes(x, Nodes(doc), w)
  }

  predicate Of(c: Chunk, tenant: string, id: string) {
    c.tenant == tenant && c.document == id
  }

  function RemoveFrom(x: Index, tenant: string, id: string, w: Removal): Index {
    map key | key in x && !(Of(x[key], tenant, id) && (w.Removed? || key in w.gone)) :: x[key]
  }

  predicate Selects(mode: Mode, backend: Backend) {
    mode == Both || mode == if backend == Vector then MilvusOnly else GraphOnly
  }

  /** What one attempt does to one of the indexes. */
  function Apply(x: Index, backend: Backend, step: Step): Index {
    match step
    case Ingest(doc, mode, milvus, neo4j) =>
      if doc.texts != [] && Selects(mode, backend) then WriteTo(x, doc, if backend == Vector then milvus else neo4j) else x
    case Remove(tenant, id, mode, milvus, neo4j) =>
      if tenant != "" && id != "" && Selects(mode, backend)
      then RemoveFrom(x, tenant, id, if backend == Vector then milvus else neo4j) else x
  }

  function Run(x: Index, backend: Backend, steps: seq<Step>): Index
    decreases |steps|
  {
    if |steps| == 0 then x else Run(Apply(x, backend, steps[0]), backend, steps[1..])
  }

  // ---------- what the indexes hold ----------

  /** Every entry sits under its own stable id. */
  predicate WellKeyed(x: Index) {
    forall key | key in x ::
      && key == StableNodeId(x[key].tenant, x[key].document, x[key].version, x[key].index)
      && Distinguishable(x[key].document, x[key].version)
  }

  /** The entries of one document. */
  function DocPart(x: Index, tenant: string, id: string): Index {
    map key | key in x && Of(x[key], tenant, id) :: x[key]
  }

  /** Exactly the chunks of `doc`, each under its id. */
  predicate Exact(x: Index, doc: Doc) {
    && (forall i | 0 <= i < |doc.texts| :: Holds(x, doc, i))
    && (forall key | key in x :: Of(x[key], doc.tenant, doc.id) ==> Current(x[key], doc) && x[key] == ChunkOf(doc, x[key].index))
  }

  predicate Holds(x: Index, doc: Doc, i: nat)
    requires i < |doc.texts|
  {
    IdOf(doc, i) in x && x[IdOf(doc, i)] == ChunkOf(doc, i)
  }

  /** All the chunks of `doc`, perhaps among others. */
  predicate Full(x: Index, doc: Doc) {
    forall i | 0 <= i < |doc.texts| :: Holds(x, doc, i)
  }

  predicate Current(c: Chunk, doc: Doc) {
    c.version == doc.version && c.index < |doc.texts|
  }

  /** No entry of the document is under an id its present chunks do not use. */
  predicate StaleFree(x: Index, doc: Doc) {
    forall key | key in x :: Of(x[key], doc.tenant, doc.id) ==> Current(x[key], doc)
  }

  /** Every entry of the document is one of its chunks. */
  predicate Clean(x: Index, doc: Doc) {
    forall key | key in x :: Of(x[key], doc.tenant, doc.id) ==> Current(x[key], doc) && x[key] == ChunkOf(doc, x[key].index)
  }

  // ---------- upserts ----------

  lemma {:induction false} UpsertsConcat(x: Index, a: seq<Node>, b: seq<Node>)
    ensures Upserts(x, a + b) == Upserts(Upserts(x, a), b)
    decreases |b|
  {
    if |b| == 0 {
      assert a + b == a;
    } else {
      UpsertsConcat(x, a, b[..|b| - 1]);
      assert (a + b)[..|a + b| - 1] == a + b[..|b| - 1];
    }
  }

  lemma {:induction false} UpsertsSame(x: Index, ns: seq<Node>, key: string)
    requires forall k | 0 <= k < |ns| :: ns[k].id != key
    ensures key in Upserts(x, ns) <==> key in x
    ensures key in x ==> Upserts(x, ns)[key] == x[key]
    decreases |ns|
  {
    if |ns| > 0 { UpsertsSame(x, ns[..|ns| - 1], key); }
  }

  /** An upserted key holds what the last node with that id carried. */
  lemma {:induction false} UpsertsLast(x: Index, ns: seq<Node>, key: string) returns (k: nat)
    requires exists k :: 0 <= k < |ns| && ns[k].id == key
    ensures k < |ns| && ns[k].id == key
    ensures key in Upserts(x, ns) && Upserts(x, ns)[key] == ns[k].chunk
    decreases |ns|
  {
    k := |ns| - 1;
    if ns[k].id != key {
      var init := ns[..k];
      var j :| 0 <= j < |ns| && ns[j].id == key;
      assert init[j].id == key;
      k := UpsertsLast(x, init, key);
    }
  }

  lemma {:induction false} SelectIn(ns: seq<Node>, w: Write, lo: nat, hi: nat, k: nat)
    returns (i: nat)
    requires hi <= |ns| && k < |Select(ns, w, lo, hi)|
    ensures lo <= i < hi && Stores(w, i) && Select(ns, w, lo, hi)[k] == ns[i]
    decreases hi
  {
    i := hi - 1;
    if k < |Select(ns, w, lo, hi - 1)| { i := SelectIn(ns, w, lo, hi - 1, k); }
  }

  lemma {:induction false} SelectHas(ns: seq<Node>, w: Write, lo: nat, hi: nat, i: nat) returns (k: nat)
    requires lo <= i < hi <= |ns| && Stores(w, i)
    ensures k < |Select(ns, w, lo, hi)| && Select(ns, w, lo, hi)[k] == ns[i]
    decreases hi
  {
    if i == hi - 1 {
      k := |Select(ns, w, lo, hi - 1)|;
    } else {
      k := SelectHas(ns, w, lo, hi - 1, i);
    }
  }

  // ---------- what an ingest of one document does ----------

  /** The nodes an attempt writes are nodes of its document. */
  lemma WrittenNode(doc: Doc, w: Write, k: nat) returns (i: nat)
    requires k < |Select(Nodes(doc), w, 0, |doc.texts|)|
    ensures i < |doc.texts| && Stores(w, i) && Select(Nodes(doc), w, 0, |doc.texts|)[k] == NodeOf(doc, i)
  {
    i := SelectIn(Nodes(doc), w, 0, |doc.texts|, k);
  }

  /** After upserts, an entry is an old one or one of the nodes. */
  lemma UpsertsEntry(x: Index, ns: seq<Node>, key: string) returns (k: nat)
    requires key in Upserts(x, ns)
    ensures (key in x && Upserts(x, ns)[key] == x[key]) || (k < |ns| && ns[k].id == key && Upserts(x, ns)[key] == ns[k].chunk)
  {
    k := 0;
    if exists k :: 0 <= k < |ns| && ns[k].id == key {
      k := UpsertsLast(x, ns, key);
    } else {
      UpsertsSame(x, ns, key);
    }
  }

  /** After an attempt, an entry is an old one or a chunk of the document under its id. */
  lemma WriteToEntry(x: Index, doc: Doc, w: Write, key: string)
    requires key in WriteTo(x, doc, w)
    ensures (key in x && WriteTo(x, doc, w)[key] == x[key])
         || exists i :: 0 <= i < |doc.texts| && key == IdOf(doc, i) && WriteTo(x, doc, w)[key] == ChunkOf(doc, i)
  {
    var ns := Select(Nodes(doc), w, 0, |doc.texts|);
    var k := UpsertsEntry(x, ns, key);
    if k < |ns| {
      var i := WrittenNode(doc, w, k);
      assert ns[k].id == IdOf(doc, i);
    }
  }

  /** An attempt removes nothing, and changes no entry under an id that is not the document's. */
  lemma WriteToKeeps(x: Index, doc: Doc, w: Write, key: string)
    requires key in x
    ensures key in WriteTo(x, doc, w)
    ensures (forall i | 0 <= i < |doc.texts| :: key != IdOf(doc, i)) ==> WriteTo(x, doc, w)[key] == x[key]
  {
    var ns := Select(Nodes(doc), w, 0, |doc.texts|);
    if exists k :: 0 <= k < |ns| && ns[k].id == key {
      var k := UpsertsLast(x, ns, key);
      var i := WrittenNode(doc, w, k);
      assert key == IdOf(doc, i);
    } else {
      UpsertsSame(x, ns, key);
    }
  }

  /** Under one of the document's ids, an attempt leaves the old entry or the right chunk: the latter if it stores it. */
  lemma WriteToOwn(x: Index, doc: Doc, w: Write, i: nat)
    requires i < |doc.texts| && (Holds(x, doc, i) || Stores(w, i))
    ensures Holds(WriteTo(x, doc, w), doc, i)
  {
    var ns := Select(Nodes(doc), w, 0, |doc.texts|);
    var key := IdOf(doc, i);
    if Stores(w, i) {
      var k := SelectHas(Nodes(doc), w, 0, |doc.texts|, i);
      assert ns[k].id == key;
    }
    if exists k :: 0 <= k < |ns| && ns[k].id == key {
      var k := UpsertsLast(x, ns, key);
      var j := WrittenNode(doc, w, k);
      SameIdIff(doc.tenant, doc.id, doc.version, i, doc.tenant, doc.id, doc.version, j);
    } else {
      UpsertsSame(x, ns, key);
    }
  }

  /** A position the attempt does not store is as it was. */
  lemma WriteToNot(x: Index, doc: Doc, w: Write, i: nat)
    requires i < |doc.texts| && !Stores(w, i)
    ensures Holds(WriteTo(x, doc, w), doc, i) <==> Holds(x, doc, i)
  {
    var ns := Select(Nodes(doc), w, 0, |doc.texts|);
    forall k | 0 <= k < |ns| ensures ns[k].id != IdOf(doc, i) {
      var j := WrittenNode(doc, w, k);
      if IdOf(doc, j) == IdOf(doc, i) {
        SameIdIff(doc.tenant, doc.id, doc.version, i, doc.tenant, doc.id, doc.version, j);
      }
    }
    UpsertsSame(x, ns, IdOf(doc, i));
  }

  /** The chunk at `i`, spelled out: under its stable id, with its own text. */
  predicate HasText(x: Index, tenant: string, id: string, version: string, i: nat, text: string) {
    var key := StableNodeId(tenant, id, version, i);
    key in x && x[key] == Chunk(tenant, id, version, i, text)
  }

  /** An index is exact when it has every text of the document under its number, and nothing else of the document. */
  lemma ExactMeansTexts(x: Index, doc: Doc)
    requires WellKeyed(x)
    ensures Exact(x, doc) <==>
      && (forall i | 0 <= i < |doc.texts| :: HasText(x, doc.tenant, doc.id, doc.version, i, doc.texts[i]))
      && (forall key | key in x && x[key].tenant == doc.tenant && x[key].document == doc.id ::
            x[key].version == doc.version && x[key].index < |doc.texts| && x[key].text == doc.texts[x[key].index])
  {
    forall i | 0 <= i < |doc.texts|
      ensures Holds(x, doc, i) <==> HasText(x, doc.tenant, doc.id, doc.version, i, doc.texts[i])
    {
    }
    forall key | key in x
      ensures Of(x[key], doc.tenant, doc.id) <==> x[key].tenant == doc.tenant && x[key].document == doc.id
      ensures Of(x[key], doc.tenant, doc.id) ==>
        (Current(x[key], doc) && x[key] == ChunkOf(doc, x[key].index)
         <==> x[key].version == doc.version && x[key].index < |doc.texts| && x[key].text == doc.texts[x[key].index])
    {
    }
  }
}
