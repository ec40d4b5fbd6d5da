/**
 * Retry convergence: however many attempts failed partway, in whichever index, one that succeeds leaves the
 * selected index with exactly the document's chunks, and no attempt disturbs another document.
 */
module DualConvergence {
  import opened ChunkIds
  import opened DualIndex

  /** Ingests of this document always produce the same chunks, and every document ingested has distinguishable ids. */
  predicate Faithful(step: Step, doc: Doc) {
    step.Ingest? ==>
      && Distinguishable(step.doc.id, step.doc.version)
      && (step.doc.tenant == doc.tenant && step.doc.id == doc.id ==> step.doc == doc)
  }

  predicate Removes(step: Step, doc: Doc) {
    step.Remove? && step.tenant == doc.tenant && step.id == doc.id
  }

  predicate Succeeds(step: Step, backend: Backend, doc: Doc) {
    && step.Ingest? && step.doc == doc && doc.texts != [] && Selects(step.mode, backend)
    && (if backend == Vector then step.milvus else step.neo4j).Complete?
  }

  // ---------- one step ----------

  lemma {:induction false} EntryKeyed(x: Index, doc: Doc, w: Write, key: string)
    requires WellKeyed(x) && Distinguishable(doc.id, doc.version) && key in WriteTo(x, doc, w)
    ensures var c := WriteTo(x, doc, w)[key];
      key == StableNodeId(c.tenant, c.document, c.version, c.index) && Distinguishable(c.document, c.version)
  {
    WriteToEntry(x, doc, w, key);
  }

  lemma StepWellKeyed(x: Index, backend: Backend, step: Step, doc: Doc)
    requires WellKeyed(x) && Faithful(step, doc)
    ensures WellKeyed(Apply(x, backend, step))
  {
    if step.Ingest? {
      var w := if backend == Vector then step.milvus else step.neo4j;
      forall key | key in WriteTo(x, step.doc, w)
        ensures var c := WriteTo(x, step.doc, w)[key];
          key == StableNodeId(c.tenant, c.document, c.version, c.index) && Distinguishable(c.document, c.version)
      {
        EntryKeyed(x, step.doc, w, key);
      }
    }
  }

  /** An id of one document is never an id of another. */
  lemma OtherIds(key: string, c: Chunk, doc: Doc, i: nat)
    requires key == StableNodeId(c.tenant, c.document, c.version, c.index) && Distinguishable(c.document, c.version)
    requires Distinguishable(doc.id, doc.version)
    requires key == IdOf(doc, i)
    ensures Of(c, doc.tenant, doc.id) && c.version == doc.version && c.index == i
  {
    StableNodeIdInjective(c.tenant, c.document, c.version, c.index, doc.tenant, doc.id, doc.version, i);
  }

  /** Writing a document leaves every entry of every other document as it was, and adds none to it. */
  lemma WriteKeepsOthers(x: Index, doc: Doc, w: Write, tenant: string, id: string)
    requires WellKeyed(x) && Distinguishable(doc.id, doc.version) && !(tenant == doc.tenant && id == doc.id)
    ensures DocPart(WriteTo(x, doc, w), tenant, id) == DocPart(x, tenant, id)
  {
    var y := WriteTo(x, doc, w);
    forall key | key in x && Of(x[key], tenant, id)
      ensures key in y && y[key] == x[key]
    {
      forall i | 0 <= i < |doc.texts| ensures key != IdOf(doc, i) {
        if key == IdOf(doc, i) { OtherIds(key, x[key], doc, i); }
      }
      WriteToKeeps(x, doc, w, key);
    }
    forall key | key in y && Of(y[key], tenant, id)
      ensures key in x && y[key] == x[key]
    {
      WriteToEntry(x, doc, w, key);
    }
  }

  /** No attempt on one document touches another document's entries in either index. */
  lemma OthersUnchanged(x: Index, backend: Backend, step: Step, doc: Doc)
    requires WellKeyed(x) && Faithful(step, doc) && !Removes(step, doc)
    requires step.Ingest? ==> step.doc != doc
    ensures DocPart(Apply(x, backend, step), doc.tenant, doc.id) == DocPart(x, doc.tenant, doc.id)
  {
    if step.Ingest? {
      var w := if backend == Vector then step.milvus else step.neo4j;
      WriteKeepsOthers(x, step.doc, w, doc.tenant, doc.id);
    }
  }

  /** Writing a document neither removes its stale entries nor makes new ones. */
  lemma WriteStale(x: Index, doc: Doc, w: Write)
    requires WellKeyed(x) && Distinguishable(doc.id, doc.version)
    ensures StaleFree(WriteTo(x, doc, w), doc) <==> StaleFree(x, doc)
  {
    var y := WriteTo(x, doc, w);
    if StaleFree(y, doc) {
      forall key | key in x && Of(x[key], doc.tenant, doc.id) ensures Current(x[key], doc) {
        WriteToKeeps(x, doc, w, key);
        if i :| 0 <= i < |doc.texts| && key == IdOf(doc, i) {
          OtherIds(key, x[key], doc, i);
        }
      }
    }
    if StaleFree(x, doc) {
      forall key | key in y && Of(y[key], doc.tenant, doc.id) ensures Current(y[key], doc) {
        WriteToEntry(x, doc, w, key);
      }
    }
  }

  lemma WriteClean(x: Index, doc: Doc, w: Write)
    requires Clean(x, doc) && Distinguishable(doc.id, doc.version)
    ensures Clean(WriteTo(x, doc, w), doc)
  {
    var y := WriteTo(x, doc, w);
    forall key | key in y && Of(y[key], doc.tenant, doc.id)
      ensures Current(y[key], doc) && y[key] == ChunkOf(doc, y[key].index)
    {
      WriteToEntry(x, doc, w, key);
    }
  }

  lemma WriteFull(x: Index, doc: Doc, w: Write)
    requires Distinguishable(doc.id, doc.version) && (Full(x, doc) || (w.Complete? && doc.texts != []))
    ensures Full(WriteTo(x, doc, w), doc)
  {
    forall i | 0 <= i < |doc.texts| ensures Holds(WriteTo(x, doc, w), doc, i) {
      WriteToOwn(x, doc, w, i);
    }
  }

  /** The same three facts carried over when the document's part did not change. */
  lemma SamePart(x: Index, y: Index, doc: Doc)
    requires WellKeyed(x) && WellKeyed(y) && Distinguishable(doc.id, doc.version)
    requires DocPart(x, doc.tenant, doc.id) == DocPart(y, doc.tenant, doc.id)
    ensures StaleFree(x, doc) <==> StaleFree(y, doc)
    ensures Clean(x, doc) <==> Clean(y, doc)
    ensures Full(x, doc) ==> Full(y, doc)
  {
    var p := DocPart(x, doc.tenant, doc.id);
    var q := DocPart(y, doc.tenant, doc.id);
    assert forall key :: key in p <==> key in x && Of(x[key], doc.tenant, doc.id);
    assert forall key :: key in q <==> key in y && Of(y[key], doc.tenant, doc.id);
    assert forall key | key in p :: x[key] == p[key] == q[key] == y[key];
    if Full(x, doc) {
      forall i | 0 <= i < |doc.texts| ensures Holds(y, doc, i) {
        assert Holds(x, doc, i);
        assert IdOf(doc, i) in p;
      }
    }
  }

  lemma StepStale(x: Index, backend: Backend, step: Step, doc: Doc)
    requires WellKeyed(x) && Faithful(step, doc) && !Removes(step, doc) && Distinguishable(doc.id, doc.version)
    ensures StaleFree(Apply(x, backend, step), doc) <==> StaleFree(x, doc)
    ensures Full(x, doc) || Succeeds(step, backend, doc) ==> Full(Apply(x, backend, step), doc)
    ensures Clean(x, doc) ==> Clean(Apply(x, backend, step), doc)
  {
    StepWellKeyed(x, backend, step, doc);
    if step.Ingest? && step.doc == doc {
      var w := if backend == Vector then step.milvus else step.neo4j;
      if doc.texts != [] && Selects(step.mode, backend) {
        WriteStale(x, doc, w);
        if Full(x, doc) || w.Complete? { WriteFull(x, doc, w); }
        if Clean(x, doc) { WriteClean(x, doc, w); }
      }
    } else {
      OthersUnchanged(x, backend, step, doc);
      SamePart(x, Apply(x, backend, step), doc);
    }
  }

  // ---------- whole runs ----------

  lemma {:induction false} RunFacts(x: Index, backend: Backend, steps: seq<Step>, doc: Doc)
    requires WellKeyed(x) && Distinguishable(doc.id, doc.version)
    requires forall step | step in steps :: Faithful(step, doc) && !Removes(step, doc)
    ensures WellKeyed(Run(x, backend, steps))
    ensures StaleFree(Run(x, backend, steps), doc) <==> StaleFree(x, doc)
    ensures Full(x, doc) || (exists step :: step in steps && Succeeds(step, backend, doc)) ==> Full(Run(x, backend, steps), doc)
    decreases |steps|
  {
    if |steps| > 0 {
      StepWellKeyed(x, backend, steps[0], doc);
      StepStale(x, backend, steps[0], doc);
      RunFacts(Apply(x, backend, steps[0]), backend, steps[1..], doc);
    }
  }

  lemma ExactWhenFull(x: Index, doc: Doc)
    requires WellKeyed(x) && Full(x, doc)
    ensures Exact(x, doc) <==> StaleFree(x, doc)
  {
    if StaleFree(x, doc) {
      forall key | key in x && Of(x[key], doc.tenant, doc.id) ensures x[key] == ChunkOf(doc, x[key].index) {
        assert Holds(x, doc, x[key].index);
      }
    }
  }

  /**
   * Retry convergence. Over any mix of attempts on any documents, each failing where it likes, if one attempt on
   * this document succeeded in this index then the index ends with exactly the document's chunks; that is, unless
   * it started with entries of the document under ids its chunks no longer use, which no attempt removes.
   */
  lemma RetryConvergence(x: Index, backend: Backend, steps: seq<Step>, doc: Doc)
    requires WellKeyed(x) && Distinguishable(doc.id, doc.version)
    requires forall step | step in steps :: Faithful(step, doc) && !Removes(step, doc)
    requires exists step :: step in steps && Succeeds(step, backend, doc)
    ensures Exact(Run(x, backend, steps), doc) <==> StaleFree(x, doc)
  {
    RunFacts(x, backend, steps, doc);
    ExactWhenFull(Run(x, backend, steps), doc);
  }

  lemma {:induction false} RunWellKeyed(x: Index, backend: Backend, steps: seq<Step>, doc: Doc)
    requires WellKeyed(x) && forall step | step in steps :: Faithful(step, doc)
    ensures WellKeyed(Run(x, backend, steps))
    decreases |steps|
  {
    if |steps| > 0 {
      StepWellKeyed(x, backend, steps[0], doc);
      RunWellKeyed(Apply(x, backend, steps[0]), backend, steps[1..], doc);
    }
  }

  lemma {:induction false} RunSplit(x: Index, backend: Backend, a: seq<Step>, b: seq<Step>)
    ensures Run(x, backend, a + b) == Run(Run(x, backend, a), backend, b)
    decreases |a|
  {
    if |a| == 0 {
      assert a + b == b;
    } else {
      RunSplit(Apply(x, backend, a[0]), backend, a[1..], b);
      assert (a + b)[1..] == a[1..] + b;
    }
  }

  /** No attempt after number `k` removes the document. */
  predicate KeptAfter(steps: seq<Step>, k: nat, doc: Doc) {
    forall j | k < j < |steps| :: !Removes(steps[j], doc)
  }

  /** The attempts from a successful one on fill the index. */
  lemma FilledFrom(x: Index, backend: Backend, steps: seq<Step>, k: nat, doc: Doc)
    requires WellKeyed(x) && Distinguishable(doc.id, doc.version) && forall step | step in steps :: Faithful(step, doc)
    requires k < |steps| && Succeeds(steps[k], backend, doc) && KeptAfter(steps, k, doc)
    ensures WellKeyed(Run(x, backend, steps)) && Full(Run(x, backend, steps), doc)
    ensures StaleFree(Run(x, backend, steps), doc) <==> StaleFree(Run(x, backend, steps[..k]), doc)
  {
    var before, rest := steps[..k], steps[k..];
    var y := Run(x, backend, before);
    RunWellKeyed(x, backend, before, doc);
    RunSplit(x, backend, before, rest);
    assert before + rest == steps;
    assert rest[0] == steps[k] && rest[0] in rest;
    forall step | step in rest ensures Faithful(step, doc) && !Removes(step, doc) {
      var j :| 0 <= j < |rest| && rest[j] == step;
      assert step == steps[k + j];
    }
    RunFacts(y, backend, rest, doc);
  }

  /** The same with removals before the success: only what is stale just before it decides. */
  lemma ConvergenceFrom(x: Index, backend: Backend, steps: seq<Step>, k: nat, doc: Doc)
    requires WellKeyed(x) && Distinguishable(doc.id, doc.version) && forall step | step in steps :: Faithful(step, doc)
    requires k < |steps| && Succeeds(steps[k], backend, doc) && KeptAfter(steps, k, doc)
    ensures Exact(Run(x, backend, steps), doc) <==> StaleFree(Run(x, backend, steps[..k]), doc)
  {
    FilledFrom(x, backend, steps, k, doc);
    ExactWhenFull(Run(x, backend, steps), doc);
  }

  /** Over any run from an index without stale or foreign entries, every entry of the document is one of its chunks. */
  lemma {:induction false} RunClean(x: Index, backend: Backend, steps: seq<Step>, doc: Doc)
    requires WellKeyed(x) && Clean(x, doc) && Distinguishable(doc.id, doc.version)
    requires forall step | step in steps :: Faithful(step, doc)
    ensures WellKeyed(Run(x, backend, steps)) && Clean(Run(x, backend, steps), doc)
    decreases |steps|
  {
    if |steps| > 0 {
      StepWellKeyed(x, backend, steps[0], doc);
      if !Removes(steps[0], doc) { StepStale(x, backend, steps[0], doc); }
      RunClean(Apply(x, backend, steps[0]), backend, steps[1..], doc);
    }
  }

  /** A deletion that succeeds clears the document from the index and nothing else. */
  lemma RemovalClears(x: Index, backend: Backend, step: Step, tenant: string, id: string)
    requires step.Remove? && step.tenant != "" && step.id != "" && Selects(step.mode, backend)
    requires (if backend == Vector then step.fromMilvus else step.fromNeo4j).Removed?
    ensures DocPart(Apply(x, backend, step), tenant, id)
      == if tenant == step.tenant && id == step.id then map[] else DocPart(x, tenant, id)
  {
  }

  // ---------- any interleaving ----------

  /** The step stores chunk `i` of the document in the index, perhaps as part of an attempt that goes on. */
  predicate Writes(step: Step, backend: Backend, doc: Doc, i: nat) {
    && step.Ingest? && step.doc == doc && i < |doc.texts| && Selects(step.mode, backend)
    && Stores(if backend == Vector then step.milvus else step.neo4j, i)
  }

  /** The step removes whatever the document has under this id. */
  predicate Takes(step: Step, backend: Backend, doc: Doc, key: string) {
    && Removes(step, doc) && doc.tenant != "" && doc.id != "" && Selects(step.mode, backend)
    && var w := if backend == Vector then step.fromMilvus else step.fromNeo4j;
       w.Removed? || key in w.gone
  }

  predicate Clears(step: Step, backend: Backend, doc: Doc, i: nat) {
    Takes(step, backend, doc, IdOf(doc, i))
  }

  predicate NeverCleared(steps: seq<Step>, from: nat, backend: Backend, doc: Doc, i: nat) {
    forall j | from <= j < |steps| :: !Clears(steps[j], backend, doc, i)
  }

  /** Chunk `i` was stored by some step and removed by none after it. */
  predicate StoredSince(steps: seq<Step>, backend: Backend, doc: Doc, i: nat) {
    exists k :: 0 <= k < |steps| && Writes(steps[k], backend, doc, i) && NeverCleared(steps, k + 1, backend, doc, i)
  }

  predicate IsStale(x: Index, doc: Doc, key: string) {
    key in x && Of(x[key], doc.tenant, doc.id) && !Current(x[key], doc)
  }

  lemma SameEntries(x: Index, y: Index, doc: Doc, key: string)
    requires DocPart(x, doc.tenant, doc.id) == DocPart(y, doc.tenant, doc.id)
    ensures key in x && Of(x[key], doc.tenant, doc.id) <==> key in y && Of(y[key], doc.tenant, doc.id)
    ensures key in x && Of(x[key], doc.tenant, doc.id) ==> x[key] == y[key]
  {
    var p, q := DocPart(x, doc.tenant, doc.id), DocPart(y, doc.tenant, doc.id);
    assert key in p <==> key in x && Of(x[key], doc.tenant, doc.id);
    assert key in q <==> key in y && Of(y[key], doc.tenant, doc.id);
  }

  /** What one step does to one chunk of the document. */
  lemma StepHolds(x: Index, backend: Backend, step: Step, doc: Doc, i: nat)
    requires WellKeyed(x) && Faithful(step, doc) && Distinguishable(doc.id, doc.version) && i < |doc.texts|
    ensures Holds(Apply(x, backend, step), doc, i)
      <==> Writes(step, backend, doc, i) || (Holds(x, doc, i) && !Clears(step, backend, doc, i))
  {
    if step.Ingest? && step.doc == doc {
      if Selects(step.mode, backend) {
        var w := if backend == Vector then step.milvus else step.neo4j;
        if Stores(w, i) { WriteToOwn(x, doc, w, i); } else { WriteToNot(x, doc, w, i); }
      }
    } else if step.Ingest? {
      OthersUnchanged(x, backend, step, doc);
      SameEntries(x, Apply(x, backend, step), doc, IdOf(doc, i));
    } else {
      RemoveHolds(x, backend, step, doc, i);
    }
  }

  lemma RemoveHolds(x: Index, backend: Backend, step: Step, doc: Doc, i: nat)
    requires step.Remove? && i < |doc.texts|
    ensures Holds(Apply(x, backend, step), doc, i) <==> Holds(x, doc, i) && !Clears(step, backend, doc, i)
  {
  }

  lemma StoredSinceFirst(steps: seq<Step>, backend: Backend, doc: Doc, i: nat)
    requires |steps| > 0
    ensures StoredSince(steps, backend, doc, i) <==>
      StoredSince(steps[1..], backend, doc, i)
      || (Writes(steps[0], backend, doc, i) && NeverCleared(steps[1..], 0, backend, doc, i))
    ensures NeverCleared(steps, 0, backend, doc, i) <==>
      !Clears(steps[0], backend, doc, i) && NeverCleared(steps[1..], 0, backend, doc, i)
  {
    var rest := steps[1..];
    assert forall j | 0 <= j < |rest| :: rest[j] == steps[j + 1];
    assert forall j | 1 <= j < |steps| :: steps[j] == rest[j - 1];
    assert NeverCleared(steps, 1, backend, doc, i) <==> NeverCleared(rest, 0, backend, doc, i);
    if k :| 0 <= k < |rest| && Writes(rest[k], backend, doc, i) && NeverCleared(rest, k + 1, backend, doc, i) {
      assert Writes(steps[k + 1], backend, doc, i) && NeverCleared(steps, k + 2, backend, doc, i);
    }
    if k :| 0 < k < |steps| && Writes(steps[k], backend, doc, i) && NeverCleared(steps, k + 1, backend, doc, i) {
      assert Writes(rest[k - 1], backend, doc, i) && NeverCleared(rest, k, backend, doc, i);
    }
  }

  lemma {:induction false} RunHolds(x: Index, backend: Backend, steps: seq<Step>, doc: Doc, i: nat)
    requires WellKeyed(x) && Distinguishable(doc.id, doc.version) && i < |doc.texts|
    requires forall step | step in steps :: Faithful(step, doc)
    ensures Holds(Run(x, backend, steps), doc, i) <==>
      StoredSince(steps, backend, doc, i) || (Holds(x, doc, i) && NeverCleared(steps, 0, backend, doc, i))
    decreases |steps|
  {
    if |steps| > 0 {
      StepWellKeyed(x, backend, steps[0], doc);
      StepHolds(x, backend, steps[0], doc, i);
      RunHolds(Apply(x, backend, steps[0]), backend, steps[1..], doc, i);
      StoredSinceFirst(steps, backend, doc, i);
    }
  }

  /** A stale entry stays until a removal takes it, and no step makes one. */
  lemma StepIsStale(x: Index, backend: Backend, step: Step, doc: Doc, key: string)
    requires WellKeyed(x) && Faithful(step, doc) && Distinguishable(doc.id, doc.version)
    ensures IsStale(Apply(x, backend, step), doc, key) <==> IsStale(x, doc, key) && !Takes(step, backend, doc, key)
  {
    if step.Ingest? && step.doc == doc {
      if doc.texts != [] && Selects(step.mode, backend) {
        WriteIsStale(x, doc, if backend == Vector then step.milvus else step.neo4j, key);
      }
    } else if step.Ingest? {
      OthersUnchanged(x, backend, step, doc);
      SameEntries(x, Apply(x, backend, step), doc, key);
    }
  }

  lemma WriteIsStale(x: Index, doc: Doc, w: Write, key: string)
    requires WellKeyed(x) && Distinguishable(doc.id, doc.version)
    ensures IsStale(WriteTo(x, doc, w), doc, key) <==> IsStale(x, doc, key)
  {
    if IsStale(x, doc, key) {
      WriteToKeeps(x, doc, w, key);
      if i :| 0 <= i < |doc.texts| && key == IdOf(doc, i) { OtherIds(key, x[key], doc, i); }
    }
    if IsStale(WriteTo(x, doc, w), doc, key) { WriteToEntry(x, doc, w, key); }
  }

  lemma {:induction false} RunIsStale(x: Index, backend: Backend, steps: seq<Step>, doc: Doc, key: string)
    requires WellKeyed(x) && Distinguishable(doc.id, doc.version)
    requires forall step | step in steps :: Faithful(step, doc)
    ensures IsStale(Run(x, backend, steps), doc, key)
      <==> IsStale(x, doc, key) && forall k | 0 <= k < |steps| :: !Takes(steps[k], backend, doc, key)
    decreases |steps|
  {
    if |steps| > 0 {
      StepWellKeyed(x, backend, steps[0], doc);
      StepIsStale(x, backend, steps[0], doc, key);
      RunIsStale(Apply(x, backend, steps[0]), backend, steps[1..], doc, key);
      assert forall k | 0 < k < |steps| :: steps[k] == steps[1..][k - 1];
    }
  }

  lemma ExactMeans(x: Index, doc: Doc)
    requires WellKeyed(x)
    ensures Exact(x, doc) <==> Full(x, doc) && forall key :: !IsStale(x, doc, key)
  {
    if Full(x, doc) { ExactWhenFull(x, doc); }
    if forall key :: !IsStale(x, doc, key) {
      forall key | key in x && Of(x[key], doc.tenant, doc.id) ensures Current(x[key], doc) {
        assert !IsStale(x, doc, key);
      }
    }
  }

  /**
   * Any interleaving of partial writes and removals, by any attempts: the index ends with exactly the document's chunks
   * if and only if each was stored by some step, or held from the start, and removed by none since, and every stale
   * entry held at the start was removed by some step.
   */
  lemma ExactIff(x: Index, backend: Backend, steps: seq<Step>, doc: Doc)
    requires WellKeyed(x) && Distinguishable(doc.id, doc.version)
    requires forall step | step in steps :: Faithful(step, doc)
    ensures Exact(Run(x, backend, steps), doc) <==>
      && (forall i | 0 <= i < |doc.texts| ::
            StoredSince(steps, backend, doc, i) || (Holds(x, doc, i) && NeverCleared(steps, 0, backend, doc, i)))
      && (forall key | IsStale(x, doc, key) :: exists k :: 0 <= k < |steps| && Takes(steps[k], backend, doc, key))
  {
    var y := Run(x, backend, steps);
    RunWellKeyed(x, backend, steps, doc);
    ExactMeans(y, doc);
    forall i | 0 <= i < |doc.texts|
      ensures Holds(y, doc, i) <==>
        StoredSince(steps, backend, doc, i) || (Holds(x, doc, i) && NeverCleared(steps, 0, backend, doc, i))
    {
      RunHolds(x, backend, steps, doc, i);
    }
    forall key
      ensures IsStale(y, doc, key) <==> IsStale(x, doc, key) && forall k | 0 <= k < |steps| :: !Takes(steps[k], backend, doc, key)
    {
      RunIsStale(x, backend, steps, doc, key);
    }
  }
}
