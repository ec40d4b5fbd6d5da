/**
 * Recall, reciprocal rank and normalised discounted gain of one ranking (evals, `evaluate_ranking`). The weight of a
 * rank, one over a logarithm in the source, is any positive strictly decreasing function.
 */
module RankingMetrics {
  import opened Sequences

  datatype Metrics = Metrics(recall: real, hit: real, mrr: real, ndcg: real)

  type Weight = nat -> real

  ghost predicate Discount(w: Weight) {
    && (forall r: nat :: w(r) > 0.0)
    && (forall r: nat, s: nat :: r < s ==> w(r) > w(s))
  }

  predicate Distinct(titles: seq<string>) {
    forall i, j | 0 <= i < j < |titles| :: titles[i] != titles[j]
  }

  function Top(ranking: seq<string>, k: nat): seq<string> {
    if k < |ranking| then ranking[..k] else ranking
  }

  function Hits(gold: set<string>, top: seq<string>): nat
    decreases |top|
  {
    if |top| == 0 then 0
    else Hits(gold, top[..|top| - 1]) + if top[|top| - 1] in gold then 1 else 0
  }

  /** Discounted gain: the weights of the ranks that hit. */
  function Gain(w: Weight, gold: set<string>, top: seq<string>): real
    decreases |top|
  {
    if |top| == 0 then 0.0
    else Gain(w, gold, top[..|top| - 1]) + if top[|top| - 1] in gold then w(|top|) else 0.0
  }

  /** The gain of `n` hits at the first `n` ranks. */
  function Ideal(w: Weight, n: nat): real {
    if n == 0 then 0.0 else Ideal(w, n - 1) + w(n)
  }

  /** The rank of the first hit, 0 without one. */
  function FirstHit(gold: set<string>, top: seq<string>, from: nat): nat
    requires from <= |top|
    decreases |top| - from
  {
    if from == |top| then 0 else if top[from] in gold then from + 1 else FirstHit(gold, top, from + 1)
  }

  function Least(a: nat, b: nat): nat {
    if a < b then a else b
  }

  function Evaluate(w: Weight, gold: set<string>, ranking: seq<string>, k: nat): Metrics {
    var top := Top(ranking, k);
    var hits := Hits(gold, top);
    var first := FirstHit(gold, top, 0);
    var ideal := Ideal(w, Least(|gold|, k));
    Metrics(
      if gold == {} then 0.0 else hits as real / |gold| as real,
      if hits > 0 then 1.0 else 0.0,
      if first == 0 then 0.0 else 1.0 / first as real,
      if ideal == 0.0 then 0.0 else Gain(w, gold, top) / ideal)
  }

  /** `evaluate_ranking`. */
  method EvaluateRanking(w: Weight, gold: set<string>, ranking: seq<string>, k: nat) returns (m: Metrics)
    ensures m == Evaluate(w, gold, ranking, k)
  {
    var top := Top(ranking, k);
    var hitCount, dcg := 0, 0.0;
    for i := 0 to |top|
      invariant hitCount == Hits(gold, top[..i]) && dcg == Gain(w, gold, top[..i])
    {
      assert top[..i + 1][..i] == top[..i];
      if top[i] in gold {
        hitCount, dcg := hitCount + 1, dcg + w(i + 1);
      }
    }
    assert top[..|top|] == top;
    var mrr := 0.0;
    for i := 0 to |top|
      invariant mrr == 0.0 && FirstHit(gold, top, 0) == FirstHit(gold, top, i)
    {
      if top[i] in gold {
        mrr := 1.0 / (i + 1) as real;
        break;
      }
    }
    var idcg := 0.0;
    for i := 0 to Least(|gold|, k)
      invariant idcg == Ideal(w, i)
    {
      idcg := idcg + w(i + 1);
    }
    m := Metrics(if gold == {} then 0.0 else hitCount as real / |gold| as real, if hitCount > 0 then 1.0 else 0.0, mrr,
      if idcg == 0.0 then 0.0 else dcg / idcg);
  }

  // ---------- what the metrics mean ----------

  /** The places that hit. */
  function Places(gold: set<string>, top: seq<string>): set<nat> {
    set i: nat | i < |top| && top[i] in gold
  }

  lemma {:induction false} HitsArePlaces(gold: set<string>, top: seq<string>)
    ensures Hits(gold, top) == |Places(gold, top)|
    decreases |top|
  {
    if |top| > 0 {
      var n := |top| - 1;
      HitsArePlaces(gold, top[..n]);
      assert Places(gold, top) == Places(gold, top[..n]) + if top[n] in gold then {n} else {};
    }
  }

  lemma {:induction false} FirstHitIs(gold: set<string>, top: seq<string>, from: nat, i: nat)
    requires from <= i < |top| && top[i] in gold && forall j | from <= j < i :: top[j] !in gold
    ensures FirstHit(gold, top, from) == i + 1
    decreases i - from
  {
    if from < i { FirstHitIs(gold, top, from + 1, i); }
  }

  /** Recall is the share of gold titles for the places that hit, and the reciprocal rank that of the first of them. */
  lemma MetricsMean(w: Weight, gold: set<string>, ranking: seq<string>, k: nat)
    requires gold != {}
    ensures var m, top := Evaluate(w, gold, ranking, k), Top(ranking, k);
      && m.recall == |Places(gold, top)| as real / |gold| as real
      && (m.hit == 1.0 <==> exists i :: 0 <= i < |top| && top[i] in gold) && (m.hit == 1.0 || m.hit == 0.0)
      && (forall i | 0 <= i < |top| && top[i] in gold && (forall j | 0 <= j < i :: top[j] !in gold) ::
            m.mrr == 1.0 / (i + 1) as real)
      && ((forall i | 0 <= i < |top| :: top[i] !in gold) ==> m.mrr == 0.0)
  {
    var top := Top(ranking, k);
    HitsArePlaces(gold, top);
    NoHits(gold, top);
    FirstHitFacts(gold, top, 0);
    forall i | 0 <= i < |top| && top[i] in gold && (forall j | 0 <= j < i :: top[j] !in gold)
      ensures FirstHit(gold, top, 0) == i + 1
    {
      FirstHitIs(gold, top, 0, i);
    }
  }

  lemma {:induction false} OneHitGain(w: Weight, gold: set<string>, top: seq<string>, i: nat)
    requires i < |top| && top[i] in gold && forall j | 0 <= j < |top| && j != i :: top[j] !in gold
    ensures Gain(w, gold, top) == w(i + 1)
    decreases |top|
  {
    var init := top[..|top| - 1];
    if i < |init| { OneHitGain(w, gold, init, i); } else { NoHitGain(w, gold, init); }
  }

  lemma {:induction false} NoHitGain(w: Weight, gold: set<string>, top: seq<string>)
    requires forall j | 0 <= j < |top| :: top[j] !in gold
    ensures Gain(w, gold, top) == 0.0
    decreases |top|
  {
    if |top| > 0 { NoHitGain(w, gold, top[..|top| - 1]); }
  }

  /** With one gold title, found at one place, the normalised gain is the weight of its rank against that of the first. */
  lemma SingleGold(w: Weight, title: string, ranking: seq<string>, k: nat, i: nat)
    requires Discount(w) && i < |Top(ranking, k)| && Top(ranking, k)[i] == title
    requires forall j | 0 <= j < |Top(ranking, k)| && j != i :: Top(ranking, k)[j] != title
    ensures Evaluate(w, {title}, ranking, k).ndcg == w(i + 1) / w(1)
  {
    OneHitGain(w, {title}, Top(ranking, k), i);
    assert Least(|{title}|, k) == 1 && Ideal(w, 1) == Ideal(w, 0) + w(1);
  }

  // ---------- counting hits ----------

  function HitTitles(gold: set<string>, top: seq<string>): set<string>
    decreases |top|
  {
    if |top| == 0 then {}
    else HitTitles(gold, top[..|top| - 1]) + if top[|top| - 1] in gold then {top[|top| - 1]} else {}
  }

  lemma {:induction false} HitTitlesFacts(gold: set<string>, top: seq<string>)
    requires Distinct(top)
    ensures HitTitles(gold, top) <= gold && |HitTitles(gold, top)| == Hits(gold, top)
    ensures forall t | t in HitTitles(gold, top) :: t in top
    decreases |top|
  {
    if |top| > 0 {
      var init, last := top[..|top| - 1], top[|top| - 1];
      HitTitlesFacts(gold, init);
      assert last !in init;
    }
  }

  lemma {:induction false} HitsAtMostLength(gold: set<string>, top: seq<string>)
    ensures Hits(gold, top) <= |top|
    decreases |top|
  {
    if |top| > 0 { HitsAtMostLength(gold, top[..|top| - 1]); }
  }

  /** Titles distinct among the first `k` cannot hit more often than there are gold titles or places. */
  lemma HitBound(gold: set<string>, ranking: seq<string>, k: nat)
    requires Distinct(Top(ranking, k))
    ensures Hits(gold, Top(ranking, k)) <= Least(|gold|, k)
  {
    var top := Top(ranking, k);
    HitTitlesFacts(gold, top);
    SubsetOfSize(HitTitles(gold, top), gold);
    HitsAtMostLength(gold, top);
  }

  /** The first `n` places all hit. */
  predicate LeadingHits(gold: set<string>, top: seq<string>, n: nat) {
    n <= |top| && forall i | 0 <= i < n :: top[i] in gold
  }

  lemma {:induction false} AllHit(gold: set<string>, top: seq<string>)
    ensures Hits(gold, top) == |top| <==> LeadingHits(gold, top, |top|)
    decreases |top|
  {
    if |top| > 0 {
      var init := top[..|top| - 1];
      AllHit(gold, init);
      HitsAtMostLength(gold, init);
    }
  }

  // ---------- the gain ----------

  lemma {:induction false} IdealGrows(w: Weight, a: nat, b: nat)
    requires Discount(w) && a <= b
    ensures Ideal(w, a) <= Ideal(w, b) && (a < b ==> Ideal(w, a) < Ideal(w, b))
    decreases b
  {
    if a < b { IdealGrows(w, a, b - 1); }
  }

  /** The gain of a ranking is at most that of as many hits in front, with equality only for hits in front. */
  lemma {:induction false} GainBound(w: Weight, gold: set<string>, top: seq<string>)
    requires Discount(w)
    ensures Gain(w, gold, top) <= Ideal(w, Hits(gold, top))
    ensures Gain(w, gold, top) == Ideal(w, Hits(gold, top)) <==> LeadingHits(gold, top, Hits(gold, top))
    decreases |top|
  {
    HitsAtMostLength(gold, top);
    if |top| > 0 {
      var init, last := top[..|top| - 1], top[|top| - 1];
      var c := Hits(gold, init);
      GainBound(w, gold, init);
      HitsAtMostLength(gold, init);
      AllHit(gold, init);
      if last in gold {
        assert c + 1 < |top| ==> w(|top|) < w(c + 1);
        if c < |init| {
          assert Gain(w, gold, top) < Ideal(w, c + 1);
          if LeadingHits(gold, top, c + 1) {
            assert LeadingHits(gold, init, c);
            MoreHits(gold, init, c + 1);
          }
        }
      }
    }
  }

  lemma {:induction false} MoreHits(gold: set<string>, top: seq<string>, n: nat)
    requires LeadingHits(gold, top, n)
    ensures Hits(gold, top) >= n
    decreases |top|
  {
    if |top| > n {
      MoreHits(gold, top[..|top| - 1], n);
    } else {
      AllHit(gold, top);
    }
  }

  lemma {:induction false} GainPositive(w: Weight, gold: set<string>, top: seq<string>)
    requires Discount(w)
    ensures Gain(w, gold, top) >= 0.0 && (Gain(w, gold, top) > 0.0 <==> Hits(gold, top) > 0)
    decreases |top|
  {
    if |top| > 0 { GainPositive(w, gold, top[..|top| - 1]); }
  }

  lemma {:induction false} FirstHitFacts(gold: set<string>, top: seq<string>, from: nat)
    requires from <= |top|
    ensures FirstHit(gold, top, from) == 0 <==> forall i | from <= i < |top| :: top[i] !in gold
    decreases |top| - from
  {
    if from < |top| && top[from] !in gold { FirstHitFacts(gold, top, from + 1); }
  }

  lemma {:induction false} NoHits(gold: set<string>, top: seq<string>)
    ensures Hits(gold, top) == 0 <==> forall i | 0 <= i < |top| :: top[i] !in gold
    decreases |top|
  {
    if |top| > 0 {
      NoHits(gold, top[..|top| - 1]);
      assert forall i | 0 <= i < |top| - 1 :: top[..|top| - 1][i] == top[i];
    }
  }

  lemma Ratio(a: real, b: real)
    requires 0.0 <= a <= b && b > 0.0
    ensures 0.0 <= a / b <= 1.0 && (a / b == 1.0 <==> a == b) && (a / b > 0.0 <==> a > 0.0)
  {
    assert a / b * b == a;
  }

  /** For titles distinct among the first `k` and some gold, every metric lies between 0 and 1, and they agree on whether anything was found. */
  lemma MetricBounds(w: Weight, gold: set<string>, ranking: seq<string>, k: nat)
    requires Discount(w) && Distinct(Top(ranking, k)) && gold != {} && k >= 1
    ensures var m := Evaluate(w, gold, ranking, k);
      && 0.0 <= m.recall <= 1.0 && 0.0 <= m.mrr <= 1.0 && 0.0 <= m.ndcg <= 1.0
      && (m.hit == 1.0 <==> m.recall > 0.0) && (m.hit == 1.0 <==> m.mrr > 0.0) && (m.hit == 1.0 <==> m.ndcg > 0.0)
  {
    var top := Top(ranking, k);
    var hits := Hits(gold, top);
    var n := Least(|gold|, k);
    HitBound(gold, ranking, k);
    Ratio(hits as real, |gold| as real);
    FirstHitFacts(gold, top, 0);
    NoHits(gold, top);
    if FirstHit(gold, top, 0) > 0 { Ratio(1.0, FirstHit(gold, top, 0) as real); }
    IdealGrows(w, 0, n);
    IdealGrows(w, hits, n);
    GainBound(w, gold, top);
    GainPositive(w, gold, top);
    Ratio(Gain(w, gold, top), Ideal(w, n));
  }

  /** The gain against the ideal one, before the division. */
  lemma GainAgainstIdeal(w: Weight, gold: set<string>, top: seq<string>, n: nat)
    requires Discount(w) && Hits(gold, top) <= n && 0 < n
    ensures 0.0 <= Gain(w, gold, top) <= Ideal(w, n) && Ideal(w, n) > 0.0
    ensures Gain(w, gold, top) == Ideal(w, n) <==> LeadingHits(gold, top, n)
  {
    IdealGrows(w, 0, n);
    IdealGrows(w, Hits(gold, top), n);
    GainBound(w, gold, top);
    GainPositive(w, gold, top);
    if LeadingHits(gold, top, n) { MoreHits(gold, top, n); }
  }

  /** The normalised gain is 1 exactly when the first min(|gold|, k) places all hit, whatever the weights. */
  lemma PerfectGain(w: Weight, gold: set<string>, ranking: seq<string>, k: nat)
    requires Discount(w) && Distinct(Top(ranking, k)) && gold != {} && k >= 1
    ensures Evaluate(w, gold, ranking, k).ndcg == 1.0 <==> LeadingHits(gold, ranking, Least(|gold|, k))
  {
    var top := Top(ranking, k);
    var n := Least(|gold|, k);
    HitBound(gold, ranking, k);
    GainAgainstIdeal(w, gold, top, n);
    Ratio(Gain(w, gold, top), Ideal(w, n));
    assert LeadingHits(gold, ranking, n) <==> LeadingHits(gold, top, n);
  }

  /** Where a title stands twice, a gold set of that title alone is hit twice. */
  lemma {:induction false} TwoHits(top: seq<string>, i: nat, j: nat)
    requires i < j < |top| && top[i] == top[j]
    ensures Hits({top[i]}, top) >= 2
    decreases |top|
  {
    var init := top[..|top| - 1];
    if j < |init| {
      TwoHits(init, i, j);
    } else {
      NoHits({top[i]}, init);
      assert init[i] in {top[i]};
    }
  }

  /** A title ranked twice among the first `k` counts twice: that is exactly when some gold set brings recall above 1. */
  lemma RecallBoundedIff(w: Weight, ranking: seq<string>, k: nat)
    ensures Distinct(Top(ranking, k)) <==> forall gold | gold != {} :: Evaluate(w, gold, ranking, k).recall <= 1.0
  {
    var top := Top(ranking, k);
    if Distinct(top) {
      forall gold: set<string> | gold != {} ensures Evaluate(w, gold, ranking, k).recall <= 1.0 {
        HitBound(gold, ranking, k);
        Ratio(Hits(gold, top) as real, |gold| as real);
      }
    } else {
      var i, j :| 0 <= i < j < |top| && top[i] == top[j];
      TwoHits(top, i, j);
      assert Evaluate(w, {top[i]}, ranking, k).recall > 1.0;
    }
  }
}
