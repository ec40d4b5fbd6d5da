/**
 * The consistency report of api/knowledge_runtime.py: what it says of a document, against what the indexes hold.
 */
module IndexCheck {
  import opened Wrappers
  import opened Sequences
  import opened ChunkIds
  import opened DualIndex
  import opened DualConvergence

  const INDEX_SCAN_LIMIT: nat := 10_000

  /** The columns of a document row the report reads. */
  datatype Row = Row(id: string, status: string, chunkCount: int, backendStatus: map<string, string>)

  datatype Snapshot = Snapshot(available: bool, scanComplete: bool, documentChunks: map<string, nat>)

  datatype CheckState = Consistent | Mismatch | Pending | Unknown

  const UNAVAILABLE := Snapshot(false, false, map[])

  function TenantPart(x: Index, tenant: string): Index {
    map key | key in x && x[key].tenant == tenant :: x[key]
  }

  function Documents(x: Index, tenant: string): set<string> {
    set key | key in x && x[key].tenant == tenant :: x[key].document
  }

  function Counts(x: Index, tenant: string): map<string, nat> {
    map id | id in Documents(x, tenant) :: |DocPart(x, tenant, id)|
  }

  /** The vector store is scanned entry by entry, up to the limit. */
  predicate MilvusScanned(x: Index, tenant: string) {
    |TenantPart(x, tenant)| <= INDEX_SCAN_LIMIT
  }

  /** The graph store is scanned document by document, up to the limit. */
  predicate Neo4jScanned(x: Index, tenant: string) {
    |Documents(x, tenant)| <= INDEX_SCAN_LIMIT
  }

  /** A store counts as scanned as long as it has at most ten thousand rows of the tenant to read. */
  lemma ScannedMeans(x: Index, tenant: string)
    ensures MilvusScanned(x, tenant) <==> |set key | key in x && x[key].tenant == tenant| <= 10_000
    ensures Neo4jScanned(x, tenant) <==> |set key | key in x && x[key].tenant == tenant :: x[key].document| <= 10_000
  {
    KeyCount(TenantPart(x, tenant));
    assert TenantPart(x, tenant).Keys == set key | key in x && x[key].tenant == tenant;
  }

  function Probe(x: Index, tenant: string, reachable: bool, scanned: bool): Snapshot {
    if !reachable then UNAVAILABLE
    else Snapshot(true, scanned, if scanned then Counts(x, tenant) else map[])
  }

  function ActualChunks(s: Snapshot, id: string): Option<nat> {
    if !s.available || !s.scanComplete then None
    else if id in s.documentChunks then Some(s.documentChunks[id])
    else Some(0)
  }

  predicate SuccessfulBackend(row: Row, name: string) {
    name in row.backendStatus && row.backendStatus[name] == "success"
  }

  predicate ReadyStatus(status: string) {
    status == "ready" || status == "completed"
  }

  /** `_document_check`, branch by branch. */
  function DocumentCheck(row: Row, milvus: Snapshot, neo4j: Snapshot): CheckState {
    var vectorExpected := SuccessfulBackend(row, "milvus");
    var graphExpected := SuccessfulBackend(row, "neo4j");
    var vectorChunks := ActualChunks(milvus, row.id);
    var graphChunks := ActualChunks(neo4j, row.id);
    if !ReadyStatus(row.status) then Pending
    else if row.chunkCount <= 0 then Mismatch
    else if !vectorExpected && !graphExpected then Mismatch
    else if (vectorExpected && vectorChunks == None) || (graphExpected && graphChunks == None) then Unknown
    else if vectorExpected && vectorChunks.value != row.chunkCount then Mismatch
    else if graphExpected && graphChunks.value != row.chunkCount then Mismatch
    else if !vectorExpected && vectorChunks.Some? && vectorChunks.value != 0 then Mismatch
    else if !graphExpected && graphChunks.Some? && graphChunks.value != 0 then Mismatch
    else Consistent
  }

  // ---------- counting entries ----------

  function Ids(doc: Doc, n: nat): set<string> {
    if n == 0 then {} else Ids(doc, n - 1) + {IdOf(doc, n - 1)}
  }

  lemma {:induction false} IdsMember(doc: Doc, n: nat, key: string)
    ensures key in Ids(doc, n) <==> exists i :: 0 <= i < n && key == IdOf(doc, i)
  {
    if n > 0 { IdsMember(doc, n - 1, key); }
  }

  lemma {:induction false} IdsCount(doc: Doc, n: nat)
    requires Distinguishable(doc.id, doc.version)
    ensures |Ids(doc, n)| == n
  {
    if n > 0 {
      IdsCount(doc, n - 1);
      IdsMember(doc, n - 1, IdOf(doc, n - 1));
      if i :| 0 <= i < n - 1 && IdOf(doc, n - 1) == IdOf(doc, i) {
        StableNodeIdInjective(doc.tenant, doc.id, doc.version, n - 1, doc.tenant, doc.id, doc.version, i);
      }
    }
  }

  /** The entries of the document under ids its chunks do not use, and the ids of its chunks without an entry. */
  function Stale(x: Index, doc: Doc): set<string> {
    set key | key in x && Of(x[key], doc.tenant, doc.id) && !Current(x[key], doc)
  }

  function Missing(x: Index, doc: Doc): set<string> {
    Ids(doc, |doc.texts|) - x.Keys
  }

  /** The chunks of the document that are there have the right contents. */
  predicate Right(x: Index, doc: Doc) {
    forall i | 0 <= i < |doc.texts| && IdOf(doc, i) in x :: x[IdOf(doc, i)] == ChunkOf(doc, i)
  }

  /** An entry under one of the document's ids belongs to it, and its other entries are stale. */
  lemma PartKeys(x: Index, doc: Doc, key: string)
    requires WellKeyed(x) && Distinguishable(doc.id, doc.version)
    ensures key in DocPart(x, doc.tenant, doc.id) <==> key in Stale(x, doc) || (key in x && key in Ids(doc, |doc.texts|))
    ensures !(key in Stale(x, doc) && key in Ids(doc, |doc.texts|))
  {
    IdsMember(doc, |doc.texts|, key);
    if key in x {
      if i :| 0 <= i < |doc.texts| && key == IdOf(doc, i) { OtherIds(key, x[key], doc, i); }
      if Of(x[key], doc.tenant, doc.id) && Current(x[key], doc) { assert key == IdOf(doc, x[key].index); }
    }
  }

  /** The entries of the document are the stale ones and its chunks that are there. */
  lemma PartIsUnion(x: Index, doc: Doc)
    requires WellKeyed(x) && Distinguishable(doc.id, doc.version)
    ensures DocPart(x, doc.tenant, doc.id).Keys == Stale(x, doc) + Ids(doc, |doc.texts|) * x.Keys
    ensures Stale(x, doc) !! Ids(doc, |doc.texts|)
  {
    var part := DocPart(x, doc.tenant, doc.id);
    forall key ensures key in part.Keys <==> key in Stale(x, doc) + Ids(doc, |doc.texts|) * x.Keys { PartKeys(x, doc, key); }
    forall key | key in Stale(x, doc) ensures key !in Ids(doc, |doc.texts|) { PartKeys(x, doc, key); }
  }

  lemma SetSizes<T>(stale: set<T>, ids: set<T>, keys: set<T>)
    requires stale !! ids
    ensures |stale + ids * keys| == |stale| + |ids| - |ids - keys|
  {
    assert ids == ids * keys + (ids - keys);
    assert |stale + ids * keys| == |stale| + |ids * keys|;
  }

  /** The count of the document's entries is the number of its chunks, less the missing ones, plus the stale ones. */
  lemma CountBalance(x: Index, doc: Doc)
    requires WellKeyed(x) && Distinguishable(doc.id, doc.version)
    ensures |DocPart(x, doc.tenant, doc.id)| == |doc.texts| - |Missing(x, doc)| + |Stale(x, doc)|
  {
    PartIsUnion(x, doc);
    SetSizes(Stale(x, doc), Ids(doc, |doc.texts|), x.Keys);
    KeyCount(DocPart(x, doc.tenant, doc.id));
    IdsCount(doc, |doc.texts|);
  }

  /** The index is exact when nothing is missing or stale and what is there is right. */
  lemma ExactParts(x: Index, doc: Doc)
    requires WellKeyed(x) && Distinguishable(doc.id, doc.version)
    ensures Exact(x, doc) <==> Missing(x, doc) == {} && Stale(x, doc) == {} && Right(x, doc)
  {
    var n := |doc.texts|;
    if Exact(x, doc) {
      forall key | key in Ids(doc, n) ensures key in x.Keys {
        IdsMember(doc, n, key);
        var i :| 0 <= i < n && key == IdOf(doc, i);
        assert Holds(x, doc, i);
      }
      forall i | 0 <= i < n && IdOf(doc, i) in x ensures x[IdOf(doc, i)] == ChunkOf(doc, i) {
        assert Holds(x, doc, i);
      }
    }
    if Missing(x, doc) == {} && Stale(x, doc) == {} && Right(x, doc) {
      forall i | 0 <= i < n ensures Holds(x, doc, i) {
        IdsMember(doc, n, IdOf(doc, i));
        assert IdOf(doc, i) !in Missing(x, doc);
      }
      forall key | key in x && Of(x[key], doc.tenant, doc.id) ensures Current(x[key], doc) && x[key] == ChunkOf(doc, x[key].index) {
        assert key !in Stale(x, doc);
        assert key == IdOf(doc, x[key].index);
      }
    }
  }

  lemma EmptyWhenBalanced(x: Index, doc: Doc)
    requires WellKeyed(x) && Distinguishable(doc.id, doc.version)
    ensures Clean(x, doc) ==> Stale(x, doc) == {} && Right(x, doc)
    ensures Full(x, doc) ==> Missing(x, doc) == {} && Right(x, doc)
  {
    var n := |doc.texts|;
    if Clean(x, doc) {
      forall i | 0 <= i < n && IdOf(doc, i) in x ensures x[IdOf(doc, i)] == ChunkOf(doc, i) {
        OtherIds(IdOf(doc, i), x[IdOf(doc, i)], doc, i);
      }
    }
    if Full(x, doc) {
      forall key | key in Ids(doc, n) ensures key in x.Keys {
        IdsMember(doc, n, key);
        var i :| 0 <= i < n && key == IdOf(doc, i);
        assert Holds(x, doc, i);
      }
      forall i | 0 <= i < n && IdOf(doc, i) in x ensures x[IdOf(doc, i)] == ChunkOf(doc, i) { assert Holds(x, doc, i); }
    }
  }

  /**
   * Counting the document's entries decides whether exactly its chunks are there, in an index that only ever held its
   * chunks and in one that holds all of them. In any other it is right about the number alone: as many entries as
   * chunks means as many stale ones as missing ones.
   */
  lemma CountDecides(x: Index, doc: Doc)
    requires WellKeyed(x) && Distinguishable(doc.id, doc.version)
    ensures Clean(x, doc) || Full(x, doc) ==> (|DocPart(x, doc.tenant, doc.id)| == |doc.texts| <==> Exact(x, doc))
    ensures |DocPart(x, doc.tenant, doc.id)| == |doc.texts| <==> |Stale(x, doc)| == |Missing(x, doc)|
  {
    CountBalance(x, doc);
    ExactParts(x, doc);
    EmptyWhenBalanced(x, doc);
  }

  lemma KeyCount<K, V>(m: map<K, V>)
    ensures |m| == |m.Keys|
  {
  }

  lemma CountIsPart(x: Index, tenant: string, id: string)
    ensures id in Counts(x, tenant) ==> Counts(x, tenant)[id] == |DocPart(x, tenant, id)|
    ensures id !in Counts(x, tenant) ==> DocPart(x, tenant, id) == map[]
  {
    if id !in Documents(x, tenant) {
      assert forall key | key in x && x[key].tenant == tenant :: x[key].document in Documents(x, tenant);
    }
  }

  /** A completed probe reports the number of entries the document has; any other reports nothing. */
  lemma ProbeCounts(x: Index, tenant: string, id: string, reachable: bool, scanned: bool)
    ensures ActualChunks(Probe(x, tenant, reachable, scanned), id)
      == if reachable && scanned then Some(|DocPart(x, tenant, id)|) else None
  {
    CountIsPart(x, tenant, id);
  }

  // ---------- what the verdict means ----------

  /** What must be true of one index for the report to be consistent: the number recorded, or none. */
  predicate Agrees(x: Index, doc: Doc, recorded: int, expected: bool, seen: bool) {
    if expected then seen && |doc.texts| - |Missing(x, doc)| + |Stale(x, doc)| == recorded
    else seen ==> DocPart(x, doc.tenant, doc.id) == map[]
  }

  lemma PartEmpty(x: Index, tenant: string, id: string)
    ensures |DocPart(x, tenant, id)| == 0 <==> DocPart(x, tenant, id) == map[]
  {
  }

  /** The branches together: each expected count is the recorded one, each other count zero or unknown. */
  lemma ConsistentWhen(row: Row, milvus: Snapshot, neo4j: Snapshot)
    ensures DocumentCheck(row, milvus, neo4j) == Consistent <==>
      && ReadyStatus(row.status) && row.chunkCount > 0
      && (SuccessfulBackend(row, "milvus") || SuccessfulBackend(row, "neo4j"))
      && CountAgrees(ActualChunks(milvus, row.id), row.chunkCount, SuccessfulBackend(row, "milvus"))
      && CountAgrees(ActualChunks(neo4j, row.id), row.chunkCount, SuccessfulBackend(row, "neo4j"))
  {
  }

  predicate CountAgrees(actual: Option<nat>, recorded: int, expected: bool) {
    if expected then actual.Some? && actual.value == recorded else actual.Some? ==> actual.value == 0
  }

  lemma IndexAgrees(x: Index, doc: Doc, recorded: int, expected: bool, reachable: bool, scanned: bool)
    requires WellKeyed(x) && Distinguishable(doc.id, doc.version)
    ensures CountAgrees(ActualChunks(Probe(x, doc.tenant, reachable, scanned), doc.id), recorded, expected)
      <==> Agrees(x, doc, recorded, expected, reachable && scanned)
  {
    ProbeCounts(x, doc.tenant, doc.id, reachable, scanned);
    CountBalance(x, doc);
    PartEmpty(x, doc.tenant, doc.id);
  }

  /** The report on a document's row, from what the two probes see. */
  function Verdict(milvus: Index, neo4j: Index, tenant: string, row: Row, reachableMilvus: bool, reachableNeo4j: bool): CheckState {
    DocumentCheck(row, Probe(milvus, tenant, reachableMilvus, MilvusScanned(milvus, tenant)),
      Probe(neo4j, tenant, reachableNeo4j, Neo4jScanned(neo4j, tenant)))
  }

  /**
   * The report calls a document consistent exactly when its row is ready with some successful backend and every
   * index agrees: a backend the row claims was fully scanned and its chunks, less the missing ones plus the stale
   * ones, are as many as recorded; and one the row does not claim was seen to hold none of it or was not seen.
   */
  lemma VerdictExact(milvus: Index, neo4j: Index, doc: Doc, row: Row, reachableMilvus: bool, reachableNeo4j: bool)
    requires WellKeyed(milvus) && WellKeyed(neo4j) && Distinguishable(doc.id, doc.version) && row.id == doc.id
    ensures Verdict(milvus, neo4j, doc.tenant, row, reachableMilvus, reachableNeo4j) == Consistent <==>
        && ReadyStatus(row.status) && row.chunkCount > 0
        && (SuccessfulBackend(row, "milvus") || SuccessfulBackend(row, "neo4j"))
        && Agrees(milvus, doc, row.chunkCount, SuccessfulBackend(row, "milvus"),
                  reachableMilvus && MilvusScanned(milvus, doc.tenant))
        && Agrees(neo4j, doc, row.chunkCount, SuccessfulBackend(row, "neo4j"),
                  reachableNeo4j && Neo4jScanned(neo4j, doc.tenant))
  {
    IndexAgrees(milvus, doc, row.chunkCount, SuccessfulBackend(row, "milvus"), reachableMilvus, MilvusScanned(milvus, doc.tenant));
    IndexAgrees(neo4j, doc, row.chunkCount, SuccessfulBackend(row, "neo4j"), reachableNeo4j, Neo4jScanned(neo4j, doc.tenant));
    ConsistentWhen(row, Probe(milvus, doc.tenant, reachableMilvus, MilvusScanned(milvus, doc.tenant)),
      Probe(neo4j, doc.tenant, reachableNeo4j, Neo4jScanned(neo4j, doc.tenant)));
  }

  /** The row says that this backend has the document. */
  predicate Claims(row: Row, name: string) {
    name in row.backendStatus && row.backendStatus[name] == "success"
  }

  /** The row says that the document is in the indexes, with chunks and some backend. */
  predicate SaysIndexed(row: Row) {
    (row.status == "ready" || row.status == "completed") && row.chunkCount > 0 && (Claims(row, "milvus") || Claims(row, "neo4j"))
  }

  /** A backend the row claims holds another number of entries than recorded, or one it does not claim holds some. */
  predicate Differs(x: Index, tenant: string, row: Row, name: string, seen: bool) {
    seen && if Claims(row, name) then |DocPart(x, tenant, row.id)| != row.chunkCount else DocPart(x, tenant, row.id) != map[]
  }

  /**
   * The other three verdicts. Pending: exactly while the row is not ready. Unknown: exactly when a ready row says what is
   * indexed but a backend it claims was not scanned. Mismatch: exactly when a ready row says nothing sensible, or every
   * backend it claims was scanned and some backend seen differs from it.
   */
  lemma OtherVerdicts(milvus: Index, neo4j: Index, tenant: string, row: Row, reachableMilvus: bool, reachableNeo4j: bool)
    ensures var verdict := Verdict(milvus, neo4j, tenant, row, reachableMilvus, reachableNeo4j);
      var ready := row.status == "ready" || row.status == "completed";
      var seenMilvus := reachableMilvus && MilvusScanned(milvus, tenant);
      var seenNeo4j := reachableNeo4j && Neo4jScanned(neo4j, tenant);
      var blind := (Claims(row, "milvus") && !seenMilvus) || (Claims(row, "neo4j") && !seenNeo4j);
      var differs := Differs(milvus, tenant, row, "milvus", seenMilvus) || Differs(neo4j, tenant, row, "neo4j", seenNeo4j);
      && (verdict == Pending <==> !ready)
      && (verdict == Unknown <==> SaysIndexed(row) && blind)
      && (verdict == Mismatch <==> ready && (!SaysIndexed(row) || (!blind && differs)))
  {
    ProbeCounts(milvus, tenant, row.id, reachableMilvus, MilvusScanned(milvus, tenant));
    ProbeCounts(neo4j, tenant, row.id, reachableNeo4j, Neo4jScanned(neo4j, tenant));
    PartEmpty(milvus, tenant, row.id);
    PartEmpty(neo4j, tenant, row.id);
    CheckCases(row, Probe(milvus, tenant, reachableMilvus, MilvusScanned(milvus, tenant)),
      Probe(neo4j, tenant, reachableNeo4j, Neo4jScanned(neo4j, tenant)));
  }

  lemma CheckCases(row: Row, milvus: Snapshot, neo4j: Snapshot)
    ensures var verdict := DocumentCheck(row, milvus, neo4j);
      var ready := row.status == "ready" || row.status == "completed";
      var m, g := ActualChunks(milvus, row.id), ActualChunks(neo4j, row.id);
      var blind := (Claims(row, "milvus") && m.None?) || (Claims(row, "neo4j") && g.None?);
      var differs := (m.Some? && m.value != if Claims(row, "milvus") then row.chunkCount else 0)
        || (g.Some? && g.value != if Claims(row, "neo4j") then row.chunkCount else 0);
      && (verdict == Pending <==> !ready)
      && (verdict == Unknown <==> SaysIndexed(row) && blind)
      && (verdict == Mismatch <==> ready && (!SaysIndexed(row) || (!blind && differs)))
  {
  }

  /** What the document's own number of chunks, when recorded, says of a claimed index: it is exact, unless it has as
      many stale entries as missing ones, some of either, or holds a chunk with other contents. */
  lemma RecordedCountMeans(x: Index, doc: Doc)
    requires WellKeyed(x) && Distinguishable(doc.id, doc.version) && Agrees(x, doc, |doc.texts|, true, true)
    ensures |Stale(x, doc)| == |Missing(x, doc)|
    ensures Exact(x, doc) <==> Stale(x, doc) == {} && Right(x, doc)
    ensures Clean(x, doc) || Full(x, doc) ==> Exact(x, doc)
  {
    ExactParts(x, doc);
    EmptyWhenBalanced(x, doc);
  }

  /**
   * When the report is right: of a consistent document every claimed index is exact, if and only if no claimed index
   * has stale entries of it or wrong contents under its ids.
   */
  lemma ConsistentIsTrue(milvus: Index, neo4j: Index, doc: Doc, row: Row, reachableMilvus: bool, reachableNeo4j: bool)
    requires WellKeyed(milvus) && WellKeyed(neo4j) && Distinguishable(doc.id, doc.version)
    requires row.id == doc.id && row.chunkCount == |doc.texts|
    requires Verdict(milvus, neo4j, doc.tenant, row, reachableMilvus, reachableNeo4j) == Consistent
    ensures (SuccessfulBackend(row, "milvus") ==> Exact(milvus, doc)) && (SuccessfulBackend(row, "neo4j") ==> Exact(neo4j, doc))
      <==>
        && (SuccessfulBackend(row, "milvus") ==> Stale(milvus, doc) == {} && Right(milvus, doc))
        && (SuccessfulBackend(row, "neo4j") ==> Stale(neo4j, doc) == {} && Right(neo4j, doc))
  {
    VerdictExact(milvus, neo4j, doc, row, reachableMilvus, reachableNeo4j);
    if SuccessfulBackend(row, "milvus") { RecordedCountMeans(milvus, doc); }
    if SuccessfulBackend(row, "neo4j") { RecordedCountMeans(neo4j, doc); }
  }

  // ---------- the worker's rows ----------

  /** `_backend_success`. */
  function BackendSuccess(mode: Mode): map<string, string> {
    match mode
    case MilvusOnly => map["milvus" := "success"]
    case GraphOnly => map["neo4j" := "success"]
    case Both => map["milvus" := "success", "neo4j" := "success"]
    case Unsupported => map[]
  }

  /** The row `_ingest_document` writes after an ingest that reported `chunkCount`. */
  function ReadyRow(id: string, mode: Mode, chunkCount: int): Row {
    Row(id, "ready", chunkCount, BackendSuccess(mode))
  }

  lemma BackendsOfMode(id: string, mode: Mode, chunkCount: int)
    ensures SuccessfulBackend(ReadyRow(id, mode, chunkCount), "milvus") <==> Selects(mode, Vector)
    ensures SuccessfulBackend(ReadyRow(id, mode, chunkCount), "neo4j") <==> Selects(mode, Graph)
  {
    assert "milvus" != "neo4j" by { assert "milvus"[0] != "neo4j"[0]; }
  }

  /**
   * From any indexes, over any run of attempts in which one attempt on the document in this mode succeeded and nothing
   * removed it since: with both stores fully scanned, the report on the row that attempt wrote is consistent exactly
   * when no selected store held stale entries just before it and no other store holds any of the document. And then
   * the selected stores hold exactly its chunks.
   */
  lemma IngestedIsConsistent(milvus: Index, neo4j: Index, steps: seq<Step>, k: nat, doc: Doc, mode: Mode)
    requires WellKeyed(milvus) && WellKeyed(neo4j) && Distinguishable(doc.id, doc.version)
    requires (forall step | step in steps :: Faithful(step, doc)) && KeptAfter(steps, k, doc)
    requires mode != Unsupported && k < |steps| && steps[k].Ingest? && steps[k].mode == mode
    requires forall backend | Selects(mode, backend) :: Succeeds(steps[k], backend, doc)
    requires MilvusScanned(Run(milvus, Vector, steps), doc.tenant) && Neo4jScanned(Run(neo4j, Graph, steps), doc.tenant)
    ensures var m, g := Run(milvus, Vector, steps), Run(neo4j, Graph, steps);
      var consistent := Verdict(m, g, doc.tenant, ReadyRow(doc.id, mode, |doc.texts|), true, true) == Consistent;
      && (consistent <==>
            && (if Selects(mode, Vector) then StaleFree(Run(milvus, Vector, steps[..k]), doc)
                else DocPart(m, doc.tenant, doc.id) == map[])
            && (if Selects(mode, Graph) then StaleFree(Run(neo4j, Graph, steps[..k]), doc)
                else DocPart(g, doc.tenant, doc.id) == map[]))
      && (consistent ==> (Selects(mode, Vector) ==> Exact(m, doc)) && (Selects(mode, Graph) ==> Exact(g, doc)))
  {
    var m, g := Run(milvus, Vector, steps), Run(neo4j, Graph, steps);
    RunWellKeyed(milvus, Vector, steps, doc);
    RunWellKeyed(neo4j, Graph, steps, doc);
    if Selects(mode, Vector) { FilledAgrees(milvus, Vector, steps, k, doc); }
    if Selects(mode, Graph) { FilledAgrees(neo4j, Graph, steps, k, doc); }
    BackendsOfMode(doc.id, mode, |doc.texts|);
    VerdictExact(m, g, doc, ReadyRow(doc.id, mode, |doc.texts|), true, true);
  }

  /** After a successful attempt the recorded number is there exactly when nothing was stale before it. */
  lemma FilledAgrees(x: Index, backend: Backend, steps: seq<Step>, k: nat, doc: Doc)
    requires WellKeyed(x) && Distinguishable(doc.id, doc.version) && forall step | step in steps :: Faithful(step, doc)
    requires k < |steps| && Succeeds(steps[k], backend, doc) && KeptAfter(steps, k, doc)
    ensures var y := Run(x, backend, steps);
      && doc.texts != []
      && (Agrees(y, doc, |doc.texts|, true, true) <==> StaleFree(Run(x, backend, steps[..k]), doc))
      && (Agrees(y, doc, |doc.texts|, true, true) <==> Exact(y, doc))
  {
    var y := Run(x, backend, steps);
    FilledFrom(x, backend, steps, k, doc);
    ExactWhenFull(y, doc);
    CountDecides(y, doc);
    CountBalance(y, doc);
  }

  /**
   * An index that holds, instead of a document's one chunk, a stale one of the same version, left from when the document
   * was cut into more pieces, is called consistent.
   */
  lemma StaleLooksConsistent(doc: Doc, index: nat, text: string)
    requires |doc.texts| == 1 && index >= 1 && Distinguishable(doc.id, doc.version)
    ensures var x: Index := map[IdOf(doc, index) := Chunk(doc.tenant, doc.id, doc.version, index, text)];
      WellKeyed(x) && !Exact(x, doc)
      && Verdict(x, map[], doc.tenant, ReadyRow(doc.id, MilvusOnly, 1), true, true) == Consistent
  {
    var key := IdOf(doc, index);
    var x: Index := map[key := Chunk(doc.tenant, doc.id, doc.version, index, text)];
    OneForOne(doc, index, text, x);
    OneEntryScanned(x, doc.tenant, key);
    BackendsOfMode(doc.id, MilvusOnly, 1);
    VerdictExact(x, map[], doc, ReadyRow(doc.id, MilvusOnly, 1), true, true);
  }

  /** The stale entry stands for the missing one. */
  lemma OneForOne(doc: Doc, index: nat, text: string, x: Index)
    requires |doc.texts| == 1 && index >= 1 && Distinguishable(doc.id, doc.version)
    requires x == map[IdOf(doc, index) := Chunk(doc.tenant, doc.id, doc.version, index, text)]
    ensures WellKeyed(x) && !Exact(x, doc) && Stale(x, doc) == {IdOf(doc, index)} && Missing(x, doc) == {IdOf(doc, 0)}
  {
    assert Ids(doc, 1) == {} + {IdOf(doc, 0)};
    if IdOf(doc, index) == IdOf(doc, 0) {
      StableNodeIdInjective(doc.tenant, doc.id, doc.version, index, doc.tenant, doc.id, doc.version, 0);
    }
    assert IdOf(doc, index) in x && !Current(x[IdOf(doc, index)], doc);
  }

  lemma OneEntryScanned(x: Index, tenant: string, key: string)
    requires x.Keys == {key}
    ensures MilvusScanned(x, tenant) && Neo4jScanned(map[], tenant)
  {
    var part := TenantPart(x, tenant);
    KeyCount(part);
    SubsetOfSize(part.Keys, {key});
    assert Documents(map[], tenant) == {};
  }

  // ---------- deletion ----------

  /** `_delete_document`: the indexes are only touched when the row records chunks or backends. */
  function DeleteJob(x: Index, backend: Backend, tenant: string, row: Row, mode: Mode): Index {
    if row.chunkCount > 0 || row.backendStatus != map[]
    then Apply(x, backend, Remove(tenant, row.id, mode, Removed, Removed)) else x
  }

  /** A delete job whose deletions succeed leaves nothing of the document behind exactly when the row says there may
      be something, or there was nothing. */
  lemma CleanupExact(x: Index, backend: Backend, tenant: string, row: Row, mode: Mode)
    requires tenant != "" && row.id != "" && Selects(mode, backend)
    ensures DocPart(DeleteJob(x, backend, tenant, row, mode), tenant, row.id) == map[]
      <==> row.chunkCount > 0 || row.backendStatus != map[] || DocPart(x, tenant, row.id) == map[]
  {
    RemovalClears(x, backend, Remove(tenant, row.id, mode, Removed, Removed), tenant, row.id);
  }

  /** A document whose only ingest stored one chunk and then failed is deleted without clearing that chunk. */
  lemma FailedIngestLeavesChunks(doc: Doc)
    requires Distinguishable(doc.id, doc.version) && |doc.texts| > 1 && doc.tenant != "" && doc.id != ""
    ensures var x := Run(map[], Vector, [Ingest(doc, MilvusOnly, Partial({0}), Complete)]);
      DocPart(DeleteJob(x, Vector, doc.tenant, Row(doc.id, "failed", 0, map[]), MilvusOnly), doc.tenant, doc.id) != map[]
  {
    var step := Ingest(doc, MilvusOnly, Partial({0}), Complete);
    var x := Run(map[], Vector, [step]);
    assert [step][1..] == [];
    assert x == Run(Apply(map[], Vector, step), Vector, []);
    assert x == WriteTo(map[], doc, Partial({0}));
    var k := SelectHas(Nodes(doc), Partial({0}), 0, |doc.texts|, 0);
    var ns := Select(Nodes(doc), Partial({0}), 0, |doc.texts|);
    assert ns[k].id == IdOf(doc, 0);
    var j := UpsertsLast(map[], ns, IdOf(doc, 0));
    var i := WrittenNode(doc, Partial({0}), j);
    assert IdOf(doc, 0) in DocPart(x, doc.tenant, doc.id);
  }
}
