/** Candidates two backends agree on against candidates only one found, and the scores carried through reranking. */
module FusionDominance {
  import opened Wrappers
  import opened Nodes
  import Ordering
  import opened Fusion
  import opened FusionSpec
  import opened FusionOrder

  lemma TwoGroups(id: Hit -> string, k: nat, groups: seq<Group>, key: string)
    requires |groups| == 2
    ensures Score(id, k, groups, key) == Contribution(id, k, key)(groups[0]) + Contribution(id, k, key)(groups[1])
  {
    TotalTwo(Contribution(id, k, key), groups[0], groups[1]);
    assert groups == [groups[0], groups[1]];
  }

  lemma TotalTwo(f: Group -> real, a: Group, b: Group)
    ensures Total(f, [a, b]) == f(a) + f(b)
  {
    assert [a, b][..1] == [a];
    assert [a][..0] == [];
    assert Total(f, [a]) == f(a);
  }

  lemma FindersTwo(found: Group -> bool, a: Group, b: Group)
    ensures |Finders(found, [a, b])| == (if found(a) then 1 else 0) + (if found(b) then 1 else 0)
  {
    assert [a, b][..1] == [a];
    assert [a][..0] == [];
    assert Finders(found, [a]) == if found(a) then [a.backend] else [];
  }

  /** The number of finders of a candidate of two backends. */
  lemma CountTwo(id: Hit -> string, groups: seq<Group>, key: string)
    requires |groups| == 2
    ensures |Finders(Found(id, key), groups)|
      == (if RankIn(id, groups[0], key) > 0 then 1 else 0) + (if RankIn(id, groups[1], key) > 0 then 1 else 0)
  {
    FindersTwo(Found(id, key), groups[0], groups[1]);
    assert groups == [groups[0], groups[1]];
  }

  /**
   * With two backends, a candidate both found comes before one only a single backend found exactly when its two
   * contributions together are at least the other's one.
   */
  lemma BothBeforeOne(id: Hit -> string, k: nat, groups: seq<Group>, i: nat, j: nat)
    requires k > 0 && |groups| == 2 && DistinctBackends(groups)
    requires i < |Fuse(id, k, groups)| && j < |Fuse(id, k, groups)|
    requires var a := id(Fuse(id, k, groups)[i].hit); RankIn(id, groups[0], a) > 0 && RankIn(id, groups[1], a) > 0
    requires var b := id(Fuse(id, k, groups)[j].hit); RankIn(id, groups[0], b) == 0 || RankIn(id, groups[1], b) == 0
    ensures var a := id(Fuse(id, k, groups)[i].hit);
      var b := id(Fuse(id, k, groups)[j].hit);
      i < j <==> Inverse(k, RankIn(id, groups[0], a)) + Inverse(k, RankIn(id, groups[1], a)) >= Score(id, k, groups, b)
  {
    var r := Fuse(id, k, groups);
    var a, b := id(r[i].hit), id(r[j].hit);
    FuseFacts(id, k, groups);
    assert r[i] in r && r[j] in r;
    TwoGroups(id, k, groups, a);
    CountTwo(id, groups, a);
    CountTwo(id, groups, b);
    EarlierIsBetter(id, k, groups, i, j);
  }

  lemma InverseShrinks(k: nat, r: nat, s: nat)
    requires k + r > 0 && r <= s
    ensures Inverse(k, s) <= Inverse(k, r)
  {
    var x, y := (k + r) as real, (k + s) as real;
    assert 1.0 / y <= 1.0 / x by {
      assert 1.0 / x - 1.0 / y == (y - x) / (x * y) by { Difference(x, y); }
      Quotient(y - x, x * y);
    }
  }

  lemma Difference(x: real, y: real)
    requires x > 0.0 && y > 0.0
    ensures x * y > 0.0 && 1.0 / x - 1.0 / y == (y - x) / (x * y)
  {
    assert (1.0 / x) * (x * y) == y;
    assert (1.0 / y) * (x * y) == x;
  }

  lemma Quotient(n: real, d: real)
    requires n >= 0.0 && d > 0.0
    ensures n / d >= 0.0
  {
  }

  lemma HalfOf(k: nat)
    requires k > 0
    ensures Inverse(k, k + 2) + Inverse(k, k + 2) == Inverse(k, 1)
  {
    var x := (k + 1) as real;
    assert (k + k + 2) as real == 2.0 * x;
    assert 1.0 / (2.0 * x) * (2.0 * x) == 1.0;
  }

  /** The score of a candidate a single one of two backends found. */
  lemma SingleScore(id: Hit -> string, k: nat, groups: seq<Group>, key: string)
    requires k > 0 && |groups| == 2 && (RankIn(id, groups[0], key) == 0 || RankIn(id, groups[1], key) == 0)
    ensures Score(id, k, groups, key) <= Inverse(k, 1)
  {
    TwoGroups(id, k, groups, key);
    var r0, r1 := RankIn(id, groups[0], key), RankIn(id, groups[1], key);
    if r0 > 0 { InverseShrinks(k, 1, r0); }
    if r1 > 0 { InverseShrinks(k, 1, r1); }
    InversePositive(k);
  }

  lemma InversePositive(k: nat)
    ensures Inverse(k, 1) > 0.0
  {
  }

  /** Within the first k + 2 places, every candidate both backends found comes before every one a single backend found. */
  lemma AgreementDominates(id: Hit -> string, k: nat, groups: seq<Group>, i: nat, j: nat)
    requires k > 0 && |groups| == 2 && DistinctBackends(groups)
    requires i < |Fuse(id, k, groups)| && j < |Fuse(id, k, groups)|
    requires var a := id(Fuse(id, k, groups)[i].hit);
      0 < RankIn(id, groups[0], a) <= k + 2 && 0 < RankIn(id, groups[1], a) <= k + 2
    requires var b := id(Fuse(id, k, groups)[j].hit); RankIn(id, groups[0], b) == 0 || RankIn(id, groups[1], b) == 0
    ensures i < j
  {
    var a, b := id(Fuse(id, k, groups)[i].hit), id(Fuse(id, k, groups)[j].hit);
    BothBeforeOne(id, k, groups, i, j);
    InverseShrinks(k, RankIn(id, groups[0], a), k + 2);
    InverseShrinks(k, RankIn(id, groups[1], a), k + 2);
    HalfOf(k);
    SingleScore(id, k, groups, b);
  }

  // ---------- the bound is sharp ----------

  lemma InverseGap(k: nat)
    requires k > 0
    ensures Inverse(k, k + 3) + Inverse(k, k + 3) < Inverse(k, 1)
  {
    var x, y := (k + k + 2) as real, (k + k + 3) as real;
    Difference(x, y);
    var gap := (y - x) / (x * y);
    assert gap * (x * y) == 1.0;
    assert gap > 0.0;
    HalfOf(k);
  }

  /** From rank k + 3 on, in both backends, a candidate comes after every one that a single backend ranked first. */
  lemma FirstPlaceWins(id: Hit -> string, k: nat, groups: seq<Group>, i: nat, j: nat)
    requires k > 0 && |groups| == 2 && DistinctBackends(groups)
    requires i < |Fuse(id, k, groups)| && j < |Fuse(id, k, groups)|
    requires var a := id(Fuse(id, k, groups)[i].hit); RankIn(id, groups[0], a) >= k + 3 && RankIn(id, groups[1], a) >= k + 3
    requires var b := id(Fuse(id, k, groups)[j].hit);
      var r0, r1 := RankIn(id, groups[0], b), RankIn(id, groups[1], b);
      (r0 == 1 && r1 == 0) || (r0 == 0 && r1 == 1)
    ensures j < i
  {
    var a, b := id(Fuse(id, k, groups)[i].hit), id(Fuse(id, k, groups)[j].hit);
    BothBeforeOne(id, k, groups, i, j);
    InverseShrinks(k, k + 3, RankIn(id, groups[0], a));
    InverseShrinks(k, k + 3, RankIn(id, groups[1], a));
    InverseGap(k);
    TwoGroups(id, k, groups, b);
  }

  /** The hit number `n` of the column `c`, without a score. */
  function Named(c: char, n: nat): Hit {
    Hit(Node(seq(n + 1, _ => c), None, None, None, None, None, ""), None)
  }

  /** Hits of a column's own and, at the end, the shared one. */
  function Column(c: char, n: nat): seq<Hit> {
    seq(n, i requires 0 <= i < n => Named(c, i)) + [Named('s', 0)]
  }

  function Disagreeing(k: nat): seq<Group> {
    [Group("milvus", Column('m', k + 2)), Group("neo4j", Column('n', k + 2))]
  }

  lemma NamedKeys(c: char, m: nat, d: char, n: nat)
    ensures Key(Named(c, m)) == Key(Named(d, n)) <==> c == d && m == n
  {
    var x, y := Named(c, m).node.nodeId, Named(d, n).node.nodeId;
    assert x[0] == c && y[0] == d;
    if Key(Named(c, m)) == Key(Named(d, n)) { SameSuffix("node:", x, y); }
  }

  lemma SameSuffix(prefix: string, x: string, y: string)
    requires prefix + x == prefix + y
    ensures x == y
  {
    assert (prefix + x)[|prefix|..] == x;
    assert (prefix + y)[|prefix|..] == y;
  }

  lemma ColumnDistinct(c: char, n: nat)
    requires c != 's'
    ensures Distinct(Key, Column(c, n))
  {
    var s := Column(c, n);
    forall i, j | 0 <= i < j < |s| ensures Key(s[i]) != Key(s[j]) {
      if j < n { NamedKeys(c, i, c, j); } else { NamedKeys(c, i, 's', 0); }
    }
  }

  lemma {:induction false} InsertTied(s: seq<Hit>, x: Hit)
    requires x.score.None?
    ensures Ordering.Insert(HigherScore, s, x) == s + [x]
    decreases |s|
  {
    if |s| > 0 { InsertTied(s[1..], x); }
  }

  lemma {:induction false} SortTied(s: seq<Hit>)
    requires forall h | h in s :: h.score.None?
    ensures Ordering.Sort(HigherScore, s) == s
    decreases |s|
  {
    if |s| > 0 {
      SortTied(s[..|s| - 1]);
      InsertTied(s[..|s| - 1], s[|s| - 1]);
    }
  }

  lemma RankAt(id: Hit -> string, ranked: seq<Hit>, i: nat)
    requires Distinct(id, ranked) && i < |ranked|
    ensures Rank(id, ranked, id(ranked[i])) == i + 1
  {
    RankMeaning(id, ranked, id(ranked[i]));
  }

  lemma ColumnRanks(c: char, n: nat, backend: string)
    requires c != 's' && n > 0
    ensures var g := Group(backend, Column(c, n));
      && RankIn(Key, g, Key(Named('s', 0))) == n + 1 && RankIn(Key, g, Key(Named(c, 0))) == 1
      && forall d | d != c && d != 's' :: RankIn(Key, g, Key(Named(d, 0))) == 0
  {
    var s := Column(c, n);
    ColumnDistinct(c, n);
    CollectAll(Key, s);
    SortTied(s);
    RankAt(Key, s, n);
    RankAt(Key, s, 0);
    forall d | d != c && d != 's' ensures Rank(Key, s, Key(Named(d, 0))) == 0 {
      forall i | 0 <= i < |s| ensures Key(s[i]) != Key(Named(d, 0)) {
        if i < n { NamedKeys(c, i, d, 0); } else { NamedKeys('s', 0, d, 0); }
      }
      RankAbsent(Key, s, Key(Named(d, 0)));
    }
  }

  lemma Listed(id: Hit -> string, k: nat, groups: seq<Group>, key: string) returns (i: nat)
    requires k > 0 && |groups| == 2 && DistinctBackends(groups) && RankIn(id, groups[0], key) > 0
    ensures i < |Fuse(id, k, groups)| && id(Fuse(id, k, groups)[i].hit) == key
  {
    FuseFacts(id, k, groups);
    CountTwo(id, groups, key);
    var e :| e in Fuse(id, k, groups) && id(e.hit) == key;
    i :| 0 <= i < |Fuse(id, k, groups)| && Fuse(id, k, groups)[i] == e;
  }

  /**
   * The bound k + 2 cannot be raised, for any constant: there are two backends with a candidate at rank k + 3 in both
   * that comes after one a single backend found.
   */
  lemma DominanceSharp(k: nat)
    requires k > 0
    ensures exists groups: seq<Group>, i: nat, j: nat ::
      && |groups| == 2 && DistinctBackends(groups) && j < i < |Fuse(Key, k, groups)|
      && RankIn(Key, groups[0], Key(Fuse(Key, k, groups)[i].hit)) == k + 3
      && RankIn(Key, groups[1], Key(Fuse(Key, k, groups)[i].hit)) == k + 3
      && RankIn(Key, groups[1], Key(Fuse(Key, k, groups)[j].hit)) == 0
  {
    var groups := Disagreeing(k);
    ColumnRanks('m', k + 2, "milvus");
    ColumnRanks('n', k + 2, "neo4j");
    assert DistinctBackends(groups) by { assert "milvus"[0] != "neo4j"[0]; }
    var i := Listed(Key, k, groups, Key(Named('s', 0)));
    var j := Listed(Key, k, groups, Key(Named('m', 0)));
    FirstPlaceWins(Key, k, groups, i, j);
  }

  // ---------- provenance ----------

  /** The provenance kept is that of the last candidate with the key; fused candidates have one each. */
  function Provenance(candidates: seq<Fused>, key: string): Option<Fused>
    decreases |candidates|
  {
    if |candidates| == 0 then None
    else
      var last := candidates[|candidates| - 1];
      if Key(last.hit) == key then Some(last) else Provenance(candidates[..|candidates| - 1], key)
  }

  lemma {:induction false} ProvenanceIs(candidates: seq<Fused>, key: string)
    ensures Provenance(candidates, key).None? <==> forall i | 0 <= i < |candidates| :: Key(candidates[i].hit) != key
    ensures Provenance(candidates, key).Some? ==>
      Provenance(candidates, key).value in candidates && Key(Provenance(candidates, key).value.hit) == key
    decreases |candidates|
  {
    if |candidates| > 0 && Key(candidates[|candidates| - 1].hit) != key {
      ProvenanceIs(candidates[..|candidates| - 1], key);
    }
  }

  /** The reranked hit with the backends and fusion score of its candidate. */
  predicate Attached(candidates: seq<Fused>, h: Hit, e: Fused) {
    var p := Provenance(candidates, Key(h));
    p.Some? && e == p.value.(hit := h)
  }

  /** `attach_reranked_provenance`. */
  method AttachRerankedProvenance(reranked: seq<Hit>, candidates: seq<Fused>)
    returns (r: Result<seq<Fused>, FusionError>)
    ensures r.Err? <==> exists i :: 0 <= i < |reranked| && Provenance(candidates, Key(reranked[i])).None?
    ensures r.Ok? ==> |r.value| == |reranked|
    ensures r.Ok? ==> forall i | 0 <= i < |reranked| :: Attached(candidates, reranked[i], r.value[i])
  {
    var provenance: map<string, Fused> := map[];
    for c := 0 to |candidates|
      invariant forall key :: key in provenance <==> Provenance(candidates[..c], key).Some?
      invariant forall key | key in provenance :: provenance[key] == Provenance(candidates[..c], key).value
    {
      assert candidates[..c + 1][..c] == candidates[..c];
      provenance := provenance[Key(candidates[c].hit) := candidates[c]];
    }
    assert candidates[..|candidates|] == candidates;
    var results := [];
    for i := 0 to |reranked|
      invariant |results| == i
      invariant forall j | 0 <= j < i :: Attached(candidates, reranked[j], results[j])
    {
      var key := Key(reranked[i]);
      if key !in provenance {
        return Err(NotACandidate);
      }
      results := results + [provenance[key].(hit := reranked[i])];
    }
    r := Ok(results);
  }

  /** Reranking hits of fused candidates never fails, and leaves every one its own backends and fusion score. */
  lemma ProvenanceOfFused(k: nat, groups: seq<Group>, n: nat, i: nat)
    requires k > 0 && DistinctBackends(groups) && i < n <= |Fuse(Key, k, groups)|
    ensures var all := Fuse(Key, k, groups); Provenance(all[..n], Key(all[i].hit)) == Some(all[i])
  {
    FuseFacts(Key, k, groups);
    var all := Fuse(Key, k, groups);
    var key := Key(all[i].hit);
    ProvenanceIs(all[..n], key);
    assert all[..n][i] == all[i];
    DistinctPrefix((e: Fused) => Key(e.hit), all, n);
    var c := Provenance(all[..n], key).value;
    SameName(all[..n], all[i], c);
  }

  lemma DistinctPrefix(f: Fused -> string, s: seq<Fused>, n: nat)
    requires Distinct(f, s) && n <= |s|
    ensures Distinct(f, s[..n])
  {
  }

  lemma SameName(s: seq<Fused>, a: Fused, b: Fused)
    requires Distinct((e: Fused) => Key(e.hit), s) && a in s && b in s && Key(a.hit) == Key(b.hit)
    ensures a == b
  {
    var i :| 0 <= i < |s| && s[i] == a;
    var j :| 0 <= j < |s| && s[j] == b;
    var name := (e: Fused) => Key(e.hit);
    assert name(s[i]) == name(s[j]);
  }
}
