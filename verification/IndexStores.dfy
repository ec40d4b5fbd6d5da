/**
 * The ingestion code over the two stores (ingestion_milvus.py, ingestion_graph.py, document_in_database.py,
 * rag_service.py): batches, the dual write and its error report, and deletion. Where a store raises is the
 * environment's choice.
 */
module IndexStores {
  import opened Wrappers
  import opened ChunkIds
  import opened DualIndex
  import Text

  /** The vector store raises in batch `batch`, having stored only the nodes at `kept` of it. */
  datatype BatchFault = NoFault | FaultIn(batch: nat, kept: set<nat>)

  function Trim(s: string): string {
    Text.Strip(s, Text.PythonSpace)
  }

  predicate Hits(fault: BatchFault, size: nat, n: nat) {
    fault.FaultIn? && fault.batch * size < n
  }

  /** The positions of the node list stored by the batch loop. */
  function BatchWrite(fault: BatchFault, size: nat, n: nat): Write {
    if !Hits(fault, size, n) then Complete
    else Partial(set i | 0 <= i < n && (i < fault.batch * size || (i < fault.batch * size + size && i in fault.kept)))
  }

  /** A node is stored when no batch fails, when its batch comes before the failing one, or when it is one of those the
      failing batch still stored. */
  lemma BatchWriteMeans(fault: BatchFault, size: nat, n: nat, i: nat)
    requires size > 0 && i < n
    ensures Stores(BatchWrite(fault, size, n), i) <==>
      fault.NoFault? || i / size < fault.batch || (i / size == fault.batch && i in fault.kept)
  {
    if fault.FaultIn? { BatchOf(i, size, fault.batch); }
  }

  lemma BatchOf(i: nat, size: nat, batch: nat)
    requires size > 0
    ensures i / size < batch <==> i < batch * size
    ensures i / size == batch <==> batch * size <= i < batch * size + size
  {
    var q := i / size;
    assert i == q * size + i % size;
    if q < batch { Scaled(q + 1, batch, size); }
    if q > batch { Scaled(batch + 1, q, size); }
  }

  lemma Scaled(a: nat, b: nat, size: nat)
    requires 0 < a <= b
    ensures (a - 1) * size + size <= b * size
  {
    assert (a - 1) * size + size == a * size;
    Product(a, b, size);
  }

  lemma Product(a: nat, b: nat, size: nat)
    requires a <= b
    ensures a * size <= b * size
  {
  }

  lemma {:induction false} SelectSplit(ns: seq<Node>, w: Write, lo: nat, mid: nat, hi: nat)
    requires lo <= mid <= hi <= |ns|
    ensures Select(ns, w, lo, hi) == Select(ns, w, lo, mid) + Select(ns, w, mid, hi)
    decreases hi
  {
    if mid < hi { SelectSplit(ns, w, lo, mid, hi - 1); }
  }

  lemma {:induction false} SelectNone(ns: seq<Node>, w: Write, lo: nat, hi: nat)
    requires hi <= |ns| && forall i | lo <= i < hi :: !Stores(w, i)
    ensures Select(ns, w, lo, hi) == []
    decreases hi
  {
    if lo < hi { SelectNone(ns, w, lo, hi - 1); }
  }

  /** Storing a stretch after a stretch. */
  lemma UpsertsStretch(x: Index, ns: seq<Node>, w: Write, lo: nat, mid: nat, hi: nat)
    requires lo <= mid <= hi <= |ns|
    ensures Upserts(x, Select(ns, w, lo, hi)) == Upserts(Upserts(x, Select(ns, w, lo, mid)), Select(ns, w, mid, hi))
  {
    SelectSplit(ns, w, lo, mid, hi);
    UpsertsConcat(x, Select(ns, w, lo, mid), Select(ns, w, mid, hi));
  }

  lemma UpsertsNext(x: Index, ns: seq<Node>, w: Write, lo: nat, i: nat)
    requires lo <= i < |ns|
    ensures Upserts(x, Select(ns, w, lo, i + 1))
      == if Stores(w, i) then Upserts(x, Select(ns, w, lo, i))[ns[i].id := ns[i].chunk] else Upserts(x, Select(ns, w, lo, i))
  {
    var done := Select(ns, w, lo, i);
    assert (done + [ns[i]])[..|done|] == done && done + [] == done;
  }

  function Least(a: nat, b: nat): nat {
    if a < b then a else b
  }

  /** Nothing is stored after the batch that failed. */
  lemma FailedBatchIsLast(x: Index, ns: seq<Node>, fault: BatchFault, size: nat, end: nat)
    requires Hits(fault, size, |ns|) && end == Least(fault.batch * size + size, |ns|)
    ensures var w := BatchWrite(fault, size, |ns|);
      Upserts(x, Select(ns, w, 0, end)) == Upserts(x, Select(ns, w, 0, |ns|))
  {
    var w := BatchWrite(fault, size, |ns|);
    assert forall i | end <= i < |ns| :: !Stores(w, i);
    SelectNone(ns, w, end, |ns|);
    SelectSplit(ns, w, 0, end, |ns|);
    assert Select(ns, w, 0, end) + [] == Select(ns, w, 0, end);
  }

  /** A complete write leaves every text under its number. */
  lemma StoredTexts(x: Index, doc: Doc, w: Write)
    ensures w.Complete? ==>
      forall i | 0 <= i < |doc.texts| :: HasText(WriteTo(x, doc, w), doc.tenant, doc.id, doc.version, i, doc.texts[i])
  {
    if w.Complete? {
      forall i | 0 <= i < |doc.texts| ensures HasText(WriteTo(x, doc, w), doc.tenant, doc.id, doc.version, i, doc.texts[i]) {
        WriteToOwn(x, doc, w, i);
      }
    }
  }

  /** Nothing of the document is left, and everything else is as it was. */
  ghost predicate Cleared(x: Index, tenant: string, id: string, y: Index) {
    forall key ::
      && (key in y <==> key in x && !(x[key].tenant == tenant && x[key].document == id))
      && (key in y ==> y[key] == x[key])
  }

  class IndexPair {
    var milvus: Index
    var neo4j: Index

    constructor ()
      ensures milvus == map[] && neo4j == map[]
    {
      milvus, neo4j := map[], map[];
    }

    /** The vector store's own insertion of one batch, which may stop early. */
    method StoreBatch(nodes: seq<Node>, lo: nat, hi: nat, w: Write)
      requires lo <= hi <= |nodes|
      modifies this`milvus
      ensures milvus == Upserts(old(milvus), Select(nodes, w, lo, hi))
    {
      ghost var x := milvus;
      for i := lo to hi
        invariant milvus == Upserts(x, Select(nodes, w, lo, i))
      {
        UpsertsNext(x, nodes, w, lo, i);
        if Stores(w, i) {
          milvus := milvus[nodes[i].id := nodes[i].chunk];
        }
      }
    }

    /** `MilvusStorePipelineService.insert_nodes`. */
    method InsertMilvusNodes(nodes: seq<Node>, batchSize: nat, fault: BatchFault) returns (ok: bool)
      requires batchSize > 0
      modifies this`milvus
      ensures ok == !Hits(fault, batchSize, |nodes|)
      ensures milvus == WriteNodes(old(milvus), nodes, BatchWrite(fault, batchSize, |nodes|))
    {
      ghost var x := milvus;
      var n := |nodes|;
      var w := BatchWrite(fault, batchSize, n);
      if nodes == [] {
        return true;
      }
      var start, batch := 0, 0;
      while start < n
        invariant start == batch * batchSize
        invariant fault.FaultIn? ==> batch <= fault.batch
        invariant milvus == Upserts(x, Select(nodes, w, 0, Least(start, n)))
        decreases n - start
      {
        var end := Least(start + batchSize, n);
        StoreBatch(nodes, start, end, w);
        UpsertsStretch(x, nodes, w, 0, start, end);
        if fault.FaultIn? && fault.batch == batch {
          FailedBatchIsLast(x, nodes, fault, batchSize, end);
          return false;
        }
        NextBatch(batch, batchSize);
        start, batch := start + batchSize, batch + 1;
      }
      LaterBatch(fault, batch, batchSize);
      ok := true;
    }

    /** `GraphStorePipelineService.insert_nodes`: one call that stores everything or stops somewhere. */
    method InsertGraphNodes(nodes: seq<Node>, w: Write) returns (ok: bool)
      modifies this`neo4j
      ensures ok == (nodes == [] || w.Complete?)
      ensures neo4j == WriteNodes(old(neo4j), nodes, w)
    {
      if nodes == [] {
        return true;
      }
      ghost var x := neo4j;
      for i := 0 to |nodes|
        invariant neo4j == Upserts(x, Select(nodes, w, 0, i))
      {
        UpsertsNext(x, nodes, w, 0, i);
        if Stores(w, i) {
          neo4j := neo4j[nodes[i].id := nodes[i].chunk];
        }
      }
      ok := w.Complete?;
    }

    /** The stores of the mode, both of them tried in the dual mode. */
    method StoreNodes(nodes: seq<Node>, mode: Mode, batchSize: nat, fault: BatchFault, graph: Write)
      returns (r: Result<nat, IndexError>)
      requires batchSize > 0 && nodes != []
      modifies this
      ensures milvus == if Selects(mode, Vector)
        then WriteNodes(old(milvus), nodes, BatchWrite(fault, batchSize, |nodes|)) else old(milvus)
      ensures neo4j == if Selects(mode, Graph) then WriteNodes(old(neo4j), nodes, graph) else old(neo4j)
      ensures r == if mode == Unsupported then Err(UnsupportedMode)
        else if (Selects(mode, Vector) ==> !Hits(fault, batchSize, |nodes|)) && (Selects(mode, Graph) ==> graph.Complete?)
        then Ok(|nodes|)
        else Err(if mode == Both then DualWriteFailed(!Hits(fault, batchSize, |nodes|), graph.Complete?) else WriteFailed)
    {
      match mode {
      case MilvusOnly =>
        var ok := InsertMilvusNodes(nodes, batchSize, fault);
        if !ok { return Err(WriteFailed); }
      case GraphOnly =>
        var ok := InsertGraphNodes(nodes, graph);
        if !ok { return Err(WriteFailed); }
      case Both =>
        var milvusOk := InsertMilvusNodes(nodes, batchSize, fault);
        var neo4jOk := InsertGraphNodes(nodes, graph);
        if !milvusOk || !neo4jOk { return Err(DualWriteFailed(milvusOk, neo4jOk)); }
      case Unsupported =>
        return Err(UnsupportedMode);
      }
      r := Ok(|nodes|);
    }

    /** `insert_document` after parsing and splitting: which stores are written, and what is reported. */
    method InsertDocument(doc: Doc, mode: Mode, batchSize: nat, fault: BatchFault, graph: Write)
      returns (r: Result<nat, IndexError>)
      requires batchSize > 0
      modifies this
      ensures var step := Ingest(doc, mode, BatchWrite(fault, batchSize, |doc.texts|), graph);
        milvus == Apply(old(milvus), Vector, step) && neo4j == Apply(old(neo4j), Graph, step)
      ensures r.Ok? == (doc.texts != [] && mode != Unsupported
        && (Selects(mode, Vector) ==> !Hits(fault, batchSize, |doc.texts|)) && (Selects(mode, Graph) ==> graph.Complete?))
      ensures r.Ok? ==> r.value == |doc.texts|
      ensures r.Ok? && (mode == MilvusOnly || mode == Both) ==>
        forall i | 0 <= i < |doc.texts| :: HasText(milvus, doc.tenant, doc.id, doc.version, i, doc.texts[i])
      ensures r.Ok? && (mode == GraphOnly || mode == Both) ==>
        forall i | 0 <= i < |doc.texts| :: HasText(neo4j, doc.tenant, doc.id, doc.version, i, doc.texts[i])
      ensures (mode == GraphOnly || mode == Unsupported ==> milvus == old(milvus))
        && (mode == MilvusOnly || mode == Unsupported ==> neo4j == old(neo4j))
      ensures r == Err(EmptyDocument) <==> doc.texts == []
      ensures r == Err(UnsupportedMode) <==> doc.texts != [] && mode == Unsupported
      ensures r.Err? ==> (r.error.DualWriteFailed? <==> doc.texts != [] && mode == Both)
      ensures r.Err? && r.error.DualWriteFailed? ==>
        r.error == DualWriteFailed(!Hits(fault, batchSize, |doc.texts|), graph.Complete?)
    {
      var nodes := AssignIds(doc.tenant, doc.id, doc.version, doc.texts);
      assert nodes == Nodes(doc);
      if nodes == [] {
        assert doc.texts == [];
        return Err(EmptyDocument);
      }
      ghost var x, y := milvus, neo4j;
      r := StoreNodes(nodes, mode, batchSize, fault, graph);
      StoredTexts(x, doc, BatchWrite(fault, batchSize, |doc.texts|));
      StoredTexts(y, doc, graph);
    }

    /** `delete_document_data`. */
    method DeleteDocumentData(givenTenant: string, givenId: string, mode: Mode, fromMilvus: Removal, fromNeo4j: Removal)
      returns (r: Result<(), IndexError>)
      modifies this
      ensures var step := Remove(Trim(givenTenant), Trim(givenId), mode, fromMilvus, fromNeo4j);
        milvus == Apply(old(milvus), Vector, step) && neo4j == Apply(old(neo4j), Graph, step)
      ensures r.Ok? == (Trim(givenTenant) != "" && Trim(givenId) != "" && mode != Unsupported
        && (Selects(mode, Vector) ==> fromMilvus.Removed?) && (Selects(mode, Graph) ==> fromNeo4j.Removed?))
      ensures r.Ok? && (mode == MilvusOnly || mode == Both) ==> Cleared(old(milvus), Text.Strip(givenTenant, Text.PythonSpace), Text.Strip(givenId, Text.PythonSpace), milvus)
      ensures r.Ok? && (mode == GraphOnly || mode == Both) ==> Cleared(old(neo4j), Text.Strip(givenTenant, Text.PythonSpace), Text.Strip(givenId, Text.PythonSpace), neo4j)
      ensures (mode == GraphOnly || mode == Unsupported ==> milvus == old(milvus))
        && (mode == MilvusOnly || mode == Unsupported ==> neo4j == old(neo4j))
      ensures r == Err(MissingIdentity) <==> Trim(givenTenant) == "" || Trim(givenId) == ""
      ensures r == Err(UnsupportedMode) <==> Trim(givenTenant) != "" && Trim(givenId) != "" && mode == Unsupported
    {
      var tenant, id := Trim(givenTenant), Trim(givenId);
      if tenant == "" || id == "" {
        return Err(MissingIdentity);
      }
      if mode == Unsupported {
        return Err(UnsupportedMode);
      }
      var failed := false;
      if mode == MilvusOnly || mode == Both {
        milvus := RemoveFrom(milvus, tenant, id, fromMilvus);
        failed := failed || !fromMilvus.Removed?;
      }
      if mode == GraphOnly || mode == Both {
        neo4j := RemoveFrom(neo4j, tenant, id, fromNeo4j);
        failed := failed || !fromNeo4j.Removed?;
      }
      if failed {
        return Err(DeleteFailed);
      }
      r := Ok(());
    }
  }

  lemma LaterBatch(fault: BatchFault, batch: nat, size: nat)
    ensures fault.FaultIn? && batch <= fault.batch ==> batch * size <= fault.batch * size
  {
  }

  lemma NextBatch(batch: nat, size: nat)
    ensures batch * size + size == (batch + 1) * size
  {
  }
}
