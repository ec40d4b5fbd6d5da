/**
 * Deduplication and Reciprocal Rank Fusion (rag/retrieval.py). Scores are reals. The functions are written for any
 * identity function `id`; the methods use the repository's.
 */
module Fusion {
  import opened Wrappers
  import opened Nodes
  import opened Ordering

  /** A Python dict with text keys: its keys in insertion order, and its entries. */
  datatype Dict<V> = Dict(keys: seq<string>, entries: map<string, V>)

  predicate Valid<V>(d: Dict<V>) {
    && (forall i, j | 0 <= i < j < |d.keys| :: d.keys[i] != d.keys[j])
    && (forall i | 0 <= i < |d.keys| :: d.keys[i] in d.entries)
    && (forall k | k in d.entries :: k in d.keys)
  }

  function Put<V>(d: Dict<V>, key: string, value: V): Dict<V> {
    Dict(if key in d.entries then d.keys else d.keys + [key], d.entries[key := value])
  }

  function Values<V>(d: Dict<V>): seq<V>
    requires Valid(d)
  {
    seq(|d.keys|, i requires 0 <= i < |d.keys| => d.entries[d.keys[i]])
  }

  lemma PutValid<V>(d: Dict<V>, key: string, value: V)
    requires Valid(d)
    ensures Valid(Put(d, key, value))
  {
  }

  // ---------- deduplication ----------

  /** `a > b` where a missing score is minus infinity. */
  predicate Higher(a: Option<real>, b: Option<real>) {
    a.Some? && (b.None? || a.value > b.value)
  }

  predicate HigherScore(a: Hit, b: Hit) {
    Higher(a.score, b.score)
  }

  /** The dict of the best hit per identity; of equals, the first. */
  function Collect(id: Hit -> string, s: seq<Hit>): (d: Dict<Hit>)
    ensures Valid(d)
    decreases |s|
  {
    if |s| == 0 then Dict([], map[])
    else
      var d := Collect(id, s[..|s| - 1]);
      var h := s[|s| - 1];
      if id(h) !in d.entries || HigherScore(h, d.entries[id(h)]) then
        PutValid(d, id(h), h);
        Put(d, id(h), h)
      else d
  }

  function Dedup(id: Hit -> string, s: seq<Hit>): seq<Hit> {
    Sort(HigherScore, Values(Collect(id, s)))
  }

  // ---------- fusion ----------

  datatype Group = Group(backend: string, hits: seq<Hit>)

  function Inverse(k: nat, rank: nat): real
    requires k + rank > 0
  {
    1.0 / (k + rank) as real
  }

  function AddHit(id: Hit -> string, k: nat, backend: string, h: Hit, rank: nat, d: Dict<Fused>): Dict<Fused>
    requires k + rank > 0
  {
    if id(h) !in d.entries then Put(d, id(h), Fused(h, [backend], Inverse(k, rank)))
    else
      var current := d.entries[id(h)];
      Put(d, id(h), Fused(current.hit,
        if backend in current.backends then current.backends else current.backends + [backend],
        current.fusionScore + Inverse(k, rank)))
  }

  /** The first `n` ranked hits of one backend added in turn. */
  function AddHits(id: Hit -> string, k: nat, backend: string, ranked: seq<Hit>, n: nat, d: Dict<Fused>): (r: Dict<Fused>)
    requires Valid(d) && n <= |ranked|
    ensures Valid(r)
  {
    if n == 0 then d
    else
      var before := AddHits(id, k, backend, ranked, n - 1, d);
      AddHitValid(id, k, backend, ranked[n - 1], n, before);
      AddHit(id, k, backend, ranked[n - 1], n, before)
  }

  lemma AddHitValid(id: Hit -> string, k: nat, backend: string, h: Hit, rank: nat, d: Dict<Fused>)
    requires k + rank > 0 && Valid(d)
    ensures Valid(AddHit(id, k, backend, h, rank, d))
  {
  }

  function FuseGroups(id: Hit -> string, k: nat, groups: seq<Group>): (d: Dict<Fused>)
    ensures Valid(d)
    decreases |groups|
  {
    if |groups| == 0 then Dict([], map[])
    else
      var last := groups[|groups| - 1];
      var ranked := Dedup(id, last.hits);
      AddHits(id, k, last.backend, ranked, |ranked|, FuseGroups(id, k, groups[..|groups| - 1]))
  }

  /** Fusion score, then number of backends, then identity. */
  predicate Outranks(id: Hit -> string, a: Fused, b: Fused) {
    a.fusionScore > b.fusionScore ||
    (a.fusionScore == b.fusionScore &&
     (|a.backends| > |b.backends| || (|a.backends| == |b.backends| && TextLess(id(b.hit), id(a.hit)))))
  }

  function Ranking(id: Hit -> string): (Fused, Fused) -> bool {
    (a, b) => Outranks(id, a, b)
  }

  /** The unlimited ranking. */
  function Fuse(id: Hit -> string, k: nat, groups: seq<Group>): seq<Fused> {
    Sort(Ranking(id), Values(FuseGroups(id, k, groups)))
  }

  // ---------- the source's loops ----------

  function Key(h: Hit): string {
    Identity(h.node)
  }

  datatype FusionError = BadConstant | BadLimit | NotACandidate

  /** `deduplicate_node_results`. */
  method DeduplicateNodeResults(nodes: seq<Hit>) returns (r: seq<Hit>)
    ensures r == Dedup(Key, nodes)
  {
    var selected: Dict<Hit> := Dict([], map[]);
    for i := 0 to |nodes|
      invariant Valid(selected) && selected == Collect(Key, nodes[..i])
    {
      assert nodes[..i + 1][..i] == nodes[..i];
      var item := nodes[i];
      var key := Key(item);
      if key !in selected.entries || HigherScore(item, selected.entries[key]) {
        selected := Put(selected, key, item);
      }
    }
    assert nodes[..|nodes|] == nodes;
    r := Sort(HigherScore, Values(selected));
  }

  /** `fuse_backend_results`. */
  method FuseBackendResults(groups: seq<Group>, rrfK: int, limit: Option<int>)
    returns (r: Result<seq<Fused>, FusionError>)
    ensures rrfK < 1 ==> r == Err(BadConstant)
    ensures rrfK >= 1 && limit.Some? && limit.value < 1 ==> r == Err(BadLimit)
    ensures rrfK >= 1 && !(limit.Some? && limit.value < 1) ==>
      var all := Fuse(Key, rrfK, groups);
      r == Ok(if limit.Some? && limit.value < |all| then all[..limit.value] else all)
  {
    if rrfK < 1 {
      return Err(BadConstant);
    }
    if limit.Some? && limit.value < 1 {
      return Err(BadLimit);
    }
    var fused: Dict<Fused> := Dict([], map[]);
    for g := 0 to |groups|
      invariant Valid(fused) && fused == FuseGroups(Key, rrfK, groups[..g])
    {
      assert groups[..g + 1][..g] == groups[..g];
      var backend := groups[g].backend;
      var ranked := DeduplicateNodeResults(groups[g].hits);
      ghost var before := fused;
      for i := 0 to |ranked|
        invariant Valid(fused) && fused == AddHits(Key, rrfK, backend, ranked, i, before)
      {
        fused := AddRanked(rrfK, backend, ranked[i], i + 1, fused);
      }
    }
    assert groups[..|groups|] == groups;
    var ordered := Sort(Ranking(Key), Values(fused));
    r := Ok(if limit.Some? && limit.value < |ordered| then ordered[..limit.value] else ordered);
  }

  /** The body of the inner loop. */
  method AddRanked(k: nat, backend: string, item: Hit, rank: nat, fused: Dict<Fused>) returns (r: Dict<Fused>)
    requires rank > 0 && Valid(fused)
    ensures Valid(r) && r == AddHit(Key, k, backend, item, rank, fused)
  {
    var key := Key(item);
    var contribution := 1.0 / (k + rank) as real;
    if key !in fused.entries {
      r := Put(fused, key, Fused(item, [backend], contribution));
    } else {
      var current := fused.entries[key];
      var backends := if backend in current.backends then current.backends else current.backends + [backend];
      r := Put(fused, key, Fused(current.hit, backends, current.fusionScore + contribution));
    }
    PutValid(fused, key, r.entries[key]);
  }
}
