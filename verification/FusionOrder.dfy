/** The order of the fused candidates: independence of the backend order, the cut-off, and which candidates come first. */
module FusionOrder {
  import opened Nodes
  import opened Ordering
  import opened Fusion
  import opened FusionSpec

  // ---------- the ranking ----------

  /** What the sort looks at in a candidate. */
  datatype Rating = Rating(score: real, count: nat, key: string)

  predicate Better(a: Rating, b: Rating) {
    a.score > b.score ||
    (a.score == b.score && (a.count > b.count || (a.count == b.count && TextLess(b.key, a.key))))
  }

  function RatingOf(id: Hit -> string, e: Fused): Rating {
    Rating(e.fusionScore, |e.backends|, id(e.hit))
  }

  lemma BetterOrders(a: Rating, b: Rating, c: Rating)
    ensures !Better(a, a)
    ensures Better(a, b) ==> !Better(b, a)
    ensures Better(a, b) || Better(b, a) || a == b
    ensures Better(a, b) && Better(b, c) ==> Better(a, c)
  {
    TextLessTotal(a.key, b.key);
    TextLessTotal(a.key, a.key);
    if TextLess(c.key, b.key) && TextLess(b.key, a.key) { TextLessTransitive(c.key, b.key, a.key); }
  }

  lemma RankingRanks(id: Hit -> string)
    ensures Ranks(Ranking(id))
  {
    var above := Ranking(id);
    forall x, y ensures !above(x, x) && (above(x, y) ==> !above(y, x)) {
      BetterOrders(RatingOf(id, x), RatingOf(id, y), RatingOf(id, x));
    }
    forall x, y, z | !above(y, x) && !above(z, y) ensures !above(z, x) {
      var a, b, c := RatingOf(id, x), RatingOf(id, y), RatingOf(id, z);
      BetterOrders(a, b, c);
      BetterOrders(c, a, b);
      BetterOrders(b, c, a);
    }
  }

  /** What the ranking promises of every candidate. */
  lemma FuseFacts(id: Hit -> string, k: nat, groups: seq<Group>)
    requires k > 0 && DistinctBackends(groups)
    ensures var r := Fuse(id, k, groups);
      && Descending(Ranking(id), r) && Distinct((e: Fused) => id(e.hit), r)
      && (forall e | e in r :: Finders(Found(id, id(e.hit)), groups) != []
            && e.backends == Finders(Found(id, id(e.hit)), groups) && e.fusionScore == Score(id, k, groups, id(e.hit)))
      && (forall key | Finders(Found(id, key), groups) != [] :: exists e :: e in r && id(e.hit) == key)
  {
    var d := FuseGroups(id, k, groups);
    var r := Fuse(id, k, groups);
    var name := (e: Fused) => id(e.hit);
    RankingRanks(id);
    SortDescending(Ranking(id), Values(d));
    forall key | key in d.entries ensures id(d.entries[key].hit) == key { FusedExact(id, k, groups, key); }
    SortDistinct(Ranking(id), name, Values(d));
    forall e | e in r
      ensures Finders(Found(id, id(e.hit)), groups) != []
        && e.backends == Finders(Found(id, id(e.hit)), groups) && e.fusionScore == Score(id, k, groups, id(e.hit))
    {
      SortContains(Ranking(id), Values(d), e);
      ValuesOf(d, e);
      FusedExact(id, k, groups, id(e.hit));
    }
    forall key | Finders(Found(id, key), groups) != [] ensures exists e :: e in r && id(e.hit) == key {
      FusedExact(id, k, groups, key);
      ValuesOf(d, d.entries[key]);
      SortContains(Ranking(id), Values(d), d.entries[key]);
    }
  }

  /** Of two candidates at different places, the earlier one is strictly better: there are no ties. */
  lemma EarlierIsBetter(id: Hit -> string, k: nat, groups: seq<Group>, i: nat, j: nat)
    requires k > 0 && DistinctBackends(groups) && i < |Fuse(id, k, groups)| && j < |Fuse(id, k, groups)| && i != j
    ensures Better(RatingOf(id, Fuse(id, k, groups)[i]), RatingOf(id, Fuse(id, k, groups)[j])) <==> i < j
  {
    FuseFacts(id, k, groups);
    var r := Fuse(id, k, groups);
    var name := (e: Fused) => id(e.hit);
    assert name(r[i]) != name(r[j]);
    BetterOrders(RatingOf(id, r[i]), RatingOf(id, r[j]), RatingOf(id, r[i]));
    BetterOrders(RatingOf(id, r[j]), RatingOf(id, r[i]), RatingOf(id, r[j]));
  }

  /** With a limit, the result is a prefix of the ranking and everything kept is strictly better than everything dropped. */
  lemma LimitKeepsBest(id: Hit -> string, k: nat, groups: seq<Group>, limit: nat, i: nat, j: nat)
    requires k > 0 && DistinctBackends(groups) && i < limit <= j < |Fuse(id, k, groups)|
    ensures var r := Fuse(id, k, groups);
      r[..limit] <= r && Better(RatingOf(id, r[..limit][i]), RatingOf(id, r[j]))
  {
    EarlierIsBetter(id, k, groups, i, j);
  }

  // ---------- the order of the backends ----------

  lemma {:induction false} TotalRemove(f: Group -> real, groups: seq<Group>, i: nat)
    requires i < |groups|
    ensures Total(f, groups) == Total(f, groups[..i] + groups[i + 1..]) + f(groups[i])
    decreases |groups|
  {
    var init, last := groups[..|groups| - 1], groups[|groups| - 1];
    if i == |init| {
      assert groups[..i] + groups[i + 1..] == init;
    } else {
      TotalRemove(f, init, i);
      var rest := groups[..i] + groups[i + 1..];
      assert rest[..|rest| - 1] == init[..i] + init[i + 1..];
      assert rest[|rest| - 1] == last;
    }
  }

  lemma LastIsIn<T>(p: seq<T>, q: seq<T>)
    requires multiset(p) == multiset(q) && |p| > 0
    ensures p[|p| - 1] in q
  {
    assert p[|p| - 1] in multiset(p);
  }

  lemma RestSame<T>(p: seq<T>, q: seq<T>, i: nat)
    requires multiset(p) == multiset(q) && |p| > 0 && i < |q| && q[i] == p[|p| - 1]
    ensures multiset(q[..i] + q[i + 1..]) == multiset(p[..|p| - 1])
  {
    assert p == p[..|p| - 1] + [q[i]];
    assert q == q[..i] + [q[i]] + q[i + 1..];
    var a, b := multiset(q[..i] + q[i + 1..]), multiset(p[..|p| - 1]);
    assert a + multiset{q[i]} == multiset(q) == b + multiset{q[i]};
    assert forall x :: a[x] == (a + multiset{q[i]})[x] - multiset{q[i]}[x];
    assert forall x :: b[x] == (b + multiset{q[i]})[x] - multiset{q[i]}[x];
  }

  lemma {:induction false} TotalPermuted(f: Group -> real, p: seq<Group>, q: seq<Group>)
    requires multiset(p) == multiset(q)
    ensures Total(f, p) == Total(f, q)
    decreases |p|
  {
    if |p| == 0 {
      assert |multiset(q)| == 0 && q == [];
    } else {
      var init, last := p[..|p| - 1], p[|p| - 1];
      LastIsIn(p, q);
      var i :| 0 <= i < |q| && q[i] == last;
      var rest := q[..i] + q[i + 1..];
      RestSame(p, q, i);
      TotalPermuted(f, init, rest);
      TotalRemove(f, q, i);
    }
  }

  lemma {:induction false} FindersCount(found: Group -> bool, groups: seq<Group>)
    ensures |Finders(found, groups)| as real == Total(g => if found(g) then 1.0 else 0.0, groups)
    decreases |groups|
  {
    if |groups| > 0 { FindersCount(found, groups[..|groups| - 1]); }
  }

  ghost predicate SameNames(a: seq<string>, b: seq<string>) {
    forall name :: name in a <==> name in b
  }

  /** Score, number and names of the finding backends do not depend on the order of the backends. */
  lemma RatingsPermuted(id: Hit -> string, k: nat, p: seq<Group>, q: seq<Group>, key: string)
    requires multiset(p) == multiset(q) && k > 0
    ensures Score(id, k, p, key) == Score(id, k, q, key)
    ensures |Finders(Found(id, key), p)| == |Finders(Found(id, key), q)|
    ensures SameNames(Finders(Found(id, key), p), Finders(Found(id, key), q))
  {
    var found := Found(id, key);
    TotalPermuted(Contribution(id, k, key), p, q);
    TotalPermuted(g => if found(g) then 1.0 else 0.0, p, q);
    FindersCount(found, p);
    FindersCount(found, q);
    forall g ensures g in p <==> g in q {
      assert g in p <==> g in multiset(p);
      assert g in q <==> g in multiset(q);
    }
    forall name ensures name in Finders(found, p) <==> name in Finders(found, q) {
      FindersAmong(found, p, name);
      FindersAmong(found, q, name);
    }
  }

  function Ratings(id: Hit -> string, r: seq<Fused>): seq<Rating> {
    seq(|r|, i requires 0 <= i < |r| => RatingOf(id, r[i]))
  }

  lemma RatingsDescend(id: Hit -> string, k: nat, groups: seq<Group>)
    requires k > 0 && DistinctBackends(groups)
    ensures Strict(Better, Ratings(id, Fuse(id, k, groups)))
  {
    var r := Fuse(id, k, groups);
    forall i, j | 0 <= i < j < |r| ensures Better(RatingOf(id, r[i]), RatingOf(id, r[j])) {
      EarlierIsBetter(id, k, groups, i, j);
    }
  }

  /** The rating of a candidate, from what the backends found. */
  function RatingFor(id: Hit -> string, k: nat, groups: seq<Group>, key: string): Rating
    requires k > 0
  {
    Rating(Score(id, k, groups, key), |Finders(Found(id, key), groups)|, key)
  }

  lemma RatingIs(id: Hit -> string, k: nat, groups: seq<Group>, e: Fused)
    requires k > 0 && DistinctBackends(groups) && e in Fuse(id, k, groups)
    ensures RatingOf(id, e) == RatingFor(id, k, groups, id(e.hit)) && Finders(Found(id, id(e.hit)), groups) != []
  {
    FuseFacts(id, k, groups);
  }

  lemma Rated(id: Hit -> string, k: nat, groups: seq<Group>, key: string)
    requires k > 0 && DistinctBackends(groups) && Finders(Found(id, key), groups) != []
    ensures RatingFor(id, k, groups, key) in Ratings(id, Fuse(id, k, groups))
  {
    FuseFacts(id, k, groups);
    var r := Fuse(id, k, groups);
    var e :| e in r && id(e.hit) == key;
    RatingIs(id, k, groups, e);
    var j :| 0 <= j < |r| && r[j] == e;
    assert Ratings(id, r)[j] == RatingFor(id, k, groups, key);
  }

  lemma RatingCarries(id: Hit -> string, k: nat, p: seq<Group>, q: seq<Group>, x: Rating)
    requires k > 0 && DistinctBackends(p) && DistinctBackends(q) && multiset(p) == multiset(q)
    requires x in Ratings(id, Fuse(id, k, p))
    ensures x in Ratings(id, Fuse(id, k, q))
  {
    var r := Fuse(id, k, p);
    var i :| 0 <= i < |r| && RatingOf(id, r[i]) == x;
    RatingIs(id, k, p, r[i]);
    RatingsPermuted(id, k, p, q, id(r[i].hit));
    Rated(id, k, q, id(r[i].hit));
  }

  /**
   * The order in which the backends are given does not matter: the fused lists have the same identities in the same
   * order, with the same scores and the same sets of backends.
   */
  lemma BackendOrderIrrelevant(id: Hit -> string, k: nat, p: seq<Group>, q: seq<Group>)
    requires k > 0 && DistinctBackends(p) && DistinctBackends(q) && multiset(p) == multiset(q)
    ensures var r, t := Fuse(id, k, p), Fuse(id, k, q);
      && |r| == |t|
      && forall i | 0 <= i < |r| :: id(r[i].hit) == id(t[i].hit) && r[i].fusionScore == t[i].fusionScore
                                    && SameNames(r[i].backends, t[i].backends)
  {
    var r, t := Fuse(id, k, p), Fuse(id, k, q);
    var a, b := Ratings(id, r), Ratings(id, t);
    RatingsDescend(id, k, p);
    RatingsDescend(id, k, q);
    forall x ensures x in a <==> x in b {
      if x in a { RatingCarries(id, k, p, q, x); }
      if x in b { RatingCarries(id, k, q, p, x); }
    }
    forall x, y | Better(x, y) ensures !Better(y, x) { BetterOrders(x, y, x); }
    SameOrder(Better, a, b);
    FuseFacts(id, k, p);
    FuseFacts(id, k, q);
    forall i | 0 <= i < |r|
      ensures id(r[i].hit) == id(t[i].hit) && r[i].fusionScore == t[i].fusionScore && SameNames(r[i].backends, t[i].backends)
    {
      assert a[i] == b[i];
      assert r[i] in r && t[i] in t;
      RatingsPermuted(id, k, p, q, id(r[i].hit));
    }
  }
}
