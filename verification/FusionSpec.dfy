/** What deduplication and fusion compute, for any identity function. */
module FusionSpec {
  import opened Wrappers
  import opened Nodes
  import opened Ordering
  import opened Fusion

  // ---------- deduplication ----------

  /** `s[i]` is the first of the highest-scored hits with identity `key`. */
  predicate IsBest(id: Hit -> string, s: seq<Hit>, key: string, i: nat) {
    && i < |s| && id(s[i]) == key
    && (forall j | 0 <= j < |s| && id(s[j]) == key :: !HigherScore(s[j], s[i]) && (j < i ==> HigherScore(s[i], s[j])))
  }

  lemma {:induction false} CollectBest(id: Hit -> string, s: seq<Hit>, key: string) returns (i: nat)
    ensures key !in Collect(id, s).entries ==> Unseen(id, s, key)
    ensures key in Collect(id, s).entries ==> IsBest(id, s, key, i) && Collect(id, s).entries[key] == s[i]
    decreases |s|
  {
    i := 0;
    if |s| > 0 {
      var init, h := s[..|s| - 1], s[|s| - 1];
      i := CollectBest(id, init, key);
      var before := Collect(id, init).entries;
      if id(h) != key || (key in before && !HigherScore(h, before[key])) {
        if key in before { StaysBest(id, init, key, i, h); } else { StaysUnseen(id, init, key, h); }
      } else {
        if key in before { BecomesBest(id, init, key, i, h); } else { FirstIsBest(id, init, key, h); }
        i := |init|;
      }
      assert init + [h] == s;
    }
  }

  predicate Unseen(id: Hit -> string, s: seq<Hit>, key: string) {
    forall j | 0 <= j < |s| :: id(s[j]) != key
  }

  lemma StaysUnseen(id: Hit -> string, s: seq<Hit>, key: string, h: Hit)
    requires Unseen(id, s, key) && id(h) != key
    ensures Unseen(id, s + [h], key)
  {
  }

  lemma FirstIsBest(id: Hit -> string, s: seq<Hit>, key: string, h: Hit)
    requires Unseen(id, s, key) && id(h) == key
    ensures IsBest(id, s + [h], key, |s|)
  {
  }

  lemma StaysBest(id: Hit -> string, s: seq<Hit>, key: string, i: nat, h: Hit)
    requires IsBest(id, s, key, i) && (id(h) != key || !HigherScore(h, s[i]))
    ensures IsBest(id, s + [h], key, i)
  {
  }

  lemma BecomesBest(id: Hit -> string, s: seq<Hit>, key: string, i: nat, h: Hit)
    requires IsBest(id, s, key, i) && id(h) == key && HigherScore(h, s[i])
    ensures IsBest(id, s + [h], key, |s|)
  {
  }

  lemma ScoresRank()
    ensures Ranks(HigherScore)
  {
  }

  /** No two items share a label. */
  predicate Distinct<T>(f: T -> string, s: seq<T>) {
    forall i, j | 0 <= i < j < |s| :: f(s[i]) != f(s[j])
  }

  lemma {:induction false} InsertDistinct<T>(above: (T, T) -> bool, f: T -> string, s: seq<T>, x: T)
    requires Distinct(f, s) && forall i | 0 <= i < |s| :: f(s[i]) != f(x)
    ensures Distinct(f, Insert(above, s, x))
    decreases |s|
  {
    if |s| > 0 && !above(x, s[0]) {
      var rest := Insert(above, s[1..], x);
      InsertDistinct(above, f, s[1..], x);
      InsertMembers(above, s[1..], x);
      forall j | 0 <= j < |rest| ensures f(rest[j]) != f(s[0]) {
        assert rest[j] in multiset(rest);
        assert rest[j] == x || rest[j] in s[1..];
      }
    }
  }

  lemma {:induction false} SortDistinct<T>(above: (T, T) -> bool, f: T -> string, s: seq<T>)
    requires Distinct(f, s)
    ensures Distinct(f, Sort(above, s))
    decreases |s|
  {
    if |s| > 0 {
      var init, x := s[..|s| - 1], s[|s| - 1];
      var sorted := Sort(above, init);
      SortDistinct(above, f, init);
      forall i | 0 <= i < |sorted| ensures f(sorted[i]) != f(x) {
        SortContains(above, init, sorted[i]);
        assert sorted[i] in init;
      }
      InsertDistinct(above, f, sorted, x);
    }
  }

  /** Every collected hit is stored under its identity. */
  lemma CollectKeyed(id: Hit -> string, s: seq<Hit>)
    ensures forall key | key in Collect(id, s).entries :: id(Collect(id, s).entries[key]) == key
  {
    forall key | key in Collect(id, s).entries ensures id(Collect(id, s).entries[key]) == key {
      var i := CollectBest(id, s, key);
    }
  }

  lemma ValuesOf<V>(d: Dict<V>, x: V)
    requires Valid(d)
    ensures x in Values(d) <==> exists key :: key in d.entries && d.entries[key] == x
  {
    if key :| key in d.entries && d.entries[key] == x {
      var i :| 0 <= i < |d.keys| && d.keys[i] == key;
      assert Values(d)[i] == x;
    }
  }

  /** Identity `a` occurs before the first hit with identity `b`. */
  predicate Earlier(id: Hit -> string, s: seq<Hit>, a: string, b: string) {
    exists p :: 0 <= p < |s| && id(s[p]) == a && forall q | 0 <= q <= p :: id(s[q]) != b
  }

  function EarlierIn(id: Hit -> string, s: seq<Hit>): (string, string) -> bool {
    (a, b) => Earlier(id, s, a, b)
  }

  lemma EarlierGrows(id: Hit -> string, s: seq<Hit>, h: Hit, a: string, b: string)
    requires Earlier(id, s, a, b)
    ensures Earlier(id, s + [h], a, b)
  {
    var p :| 0 <= p < |s| && id(s[p]) == a && forall q | 0 <= q <= p :: id(s[q]) != b;
    assert (s + [h])[p] == s[p];
  }

  lemma SeenFirst(id: Hit -> string, s: seq<Hit>, h: Hit, a: string)
    requires !Unseen(id, s, a) && Unseen(id, s, id(h))
    ensures Earlier(id, s + [h], a, id(h))
  {
    var p :| 0 <= p < |s| && id(s[p]) == a;
    assert (s + [h])[p] == s[p];
  }

  /** The collected identities stand in the order of their first occurrence. */
  predicate InOrder(id: Hit -> string, s: seq<Hit>) {
    Strict(EarlierIn(id, s), Collect(id, s).keys)
  }

  lemma {:induction false} CollectOrder(id: Hit -> string, s: seq<Hit>)
    ensures InOrder(id, s)
    decreases |s|
  {
    if |s| > 0 {
      var init, h := s[..|s| - 1], s[|s| - 1];
      CollectOrder(id, init);
      InOrderNext(id, init, h);
      assert init + [h] == s;
    }
  }

  lemma InOrderNext(id: Hit -> string, s: seq<Hit>, h: Hit)
    requires InOrder(id, s)
    ensures InOrder(id, s + [h])
  {
    OrderNext(id, s, h);
    CollectKeys(id, s, h);
  }

  lemma CollectKeys(id: Hit -> string, s: seq<Hit>, h: Hit)
    ensures var keys := Collect(id, s).keys;
      Collect(id, s + [h]).keys == if id(h) in Collect(id, s).entries then keys else keys + [id(h)]
  {
    assert (s + [h])[..|s|] == s;
  }

  lemma OrderNext(id: Hit -> string, s: seq<Hit>, h: Hit)
    requires Strict(EarlierIn(id, s), Collect(id, s).keys)
    ensures Strict(EarlierIn(id, s + [h]), Collect(id, s).keys)
    ensures id(h) !in Collect(id, s).entries ==>
      Strict(EarlierIn(id, s + [h]), Collect(id, s).keys + [id(h)])
  {
    var keys := Collect(id, s).keys;
    forall i, j | 0 <= i < j < |keys| ensures Earlier(id, s + [h], keys[i], keys[j]) {
      EarlierGrows(id, s, h, keys[i], keys[j]);
    }
    if id(h) !in Collect(id, s).entries {
      forall i | 0 <= i < |keys| ensures Earlier(id, s + [h], keys[i], id(h)) { NewComesLast(id, s, h, keys[i]); }
    }
  }

  lemma NewComesLast(id: Hit -> string, s: seq<Hit>, h: Hit, key: string)
    requires key in Collect(id, s).entries && id(h) !in Collect(id, s).entries
    ensures Earlier(id, s + [h], key, id(h))
  {
    var i := CollectBest(id, s, key);
    var j := CollectBest(id, s, id(h));
    SeenFirst(id, s, h, key);
  }

  function FirstSeen(id: Hit -> string, s: seq<Hit>): (Hit, Hit) -> bool {
    (x, y) => Earlier(id, s, id(x), id(y))
  }

  lemma ValuesInOrder(id: Hit -> string, s: seq<Hit>)
    ensures Strict(FirstSeen(id, s), Values(Collect(id, s)))
  {
    CollectOrder(id, s);
    CollectKeyed(id, s);
    var d := Collect(id, s);
    forall i, j | 0 <= i < j < |d.keys| ensures FirstSeen(id, s)(Values(d)[i], Values(d)[j]) {
      assert Earlier(id, s, d.keys[i], d.keys[j]);
    }
  }

  /**
   * Deduplication keeps for every identity among the input the first of its highest-scored hits, and nothing else,
   * in descending order of score, and of equal scores the one whose identity occurred first.
   */
  lemma DedupExact(id: Hit -> string, s: seq<Hit>)
    ensures var r := Dedup(id, s);
      && Distinct(id, r) && Descending(HigherScore, r)
      && (forall i, j | 0 <= i < j < |r| :: HigherScore(r[i], r[j]) || Earlier(id, s, id(r[i]), id(r[j])))
      && (forall i | 0 <= i < |r| :: exists j: nat :: IsBest(id, s, id(r[i]), j) && s[j] == r[i])
      && (forall j | 0 <= j < |s| :: exists i :: 0 <= i < |r| && id(r[i]) == id(s[j]))
  {
    var d := Collect(id, s);
    var r := Dedup(id, s);
    CollectKeyed(id, s);
    SortDistinct(HigherScore, id, Values(d));
    ScoresRank();
    SortDescending(HigherScore, Values(d));
    DedupOrder(id, s);
    forall i | 0 <= i < |r| ensures exists j: nat :: IsBest(id, s, id(r[i]), j) && s[j] == r[i] {
      SortContains(HigherScore, Values(d), r[i]);
      ValuesOf(d, r[i]);
      var j := CollectBest(id, s, id(r[i]));
    }
    forall j | 0 <= j < |s| ensures exists i :: 0 <= i < |r| && id(r[i]) == id(s[j]) {
      var b := CollectBest(id, s, id(s[j]));
      var x := d.entries[id(s[j])];
      ValuesOf(d, x);
      SortContains(HigherScore, Values(d), x);
      var i :| 0 <= i < |r| && r[i] == x;
    }
  }

  lemma DedupOrder(id: Hit -> string, s: seq<Hit>)
    ensures var r := Dedup(id, s);
      forall i, j | 0 <= i < j < |r| :: HigherScore(r[i], r[j]) || Earlier(id, s, id(r[i]), id(r[j]))
  {
    ScoresRank();
    ValuesInOrder(id, s);
    SortKeepsOrder(HigherScore, FirstSeen(id, s), Values(Collect(id, s)));
    assert Strict(Then(HigherScore, FirstSeen(id, s)), Dedup(id, s));
  }

  lemma PutNew<V>(d: Dict<V>, key: string, value: V)
    requires Valid(d) && key !in d.entries
    ensures Valid(Put(d, key, value)) && Values(Put(d, key, value)) == Values(d) + [value]
  {
    PutValid(d, key, value);
  }

  lemma CollectNew(id: Hit -> string, s: seq<Hit>, h: Hit)
    requires Distinct(id, s + [h])
    ensures id(h) !in Collect(id, s).entries
  {
    var i := CollectBest(id, s, id(h));
    forall j | 0 <= j < |s| ensures id(s[j]) != id(h) {
      assert (s + [h])[j] == s[j] && (s + [h])[|s|] == h;
    }
  }

  lemma {:induction false} CollectAll(id: Hit -> string, s: seq<Hit>)
    requires Distinct(id, s)
    ensures Values(Collect(id, s)) == s
    decreases |s|
  {
    if |s| > 0 {
      var init, h := s[..|s| - 1], s[|s| - 1];
      assert s == init + [h];
      CollectAll(id, init);
      CollectNew(id, init, h);
      PutNew(Collect(id, init), id(h), h);
    }
  }

  /** In terms of the scores: descending, with hits without a score at the end. */
  lemma DedupDescends(id: Hit -> string, s: seq<Hit>, i: nat, j: nat)
    requires i < j < |Dedup(id, s)|
    ensures var a, b := Dedup(id, s)[i].score, Dedup(id, s)[j].score;
      (a.None? ==> b.None?) && (a.Some? && b.Some? ==> a.value >= b.value)
  {
    DedupExact(id, s);
    assert !HigherScore(Dedup(id, s)[j], Dedup(id, s)[i]);
  }

  /** No hit of the same identity has a higher score than the one kept. */
  lemma DedupKeepsHighest(id: Hit -> string, s: seq<Hit>, i: nat, j: nat)
    requires i < |Dedup(id, s)| && j < |s| && id(s[j]) == id(Dedup(id, s)[i])
    ensures var a, b := Dedup(id, s)[i].score, s[j].score;
      (a.None? ==> b.None?) && (a.Some? && b.Some? ==> a.value >= b.value)
  {
    DedupExact(id, s);
    var k: nat :| IsBest(id, s, id(Dedup(id, s)[i]), k) && s[k] == Dedup(id, s)[i];
    assert !HigherScore(s[j], s[k]);
  }

  // ---------- the fusion score ----------

  /** The place of `key` in a ranking, counted from one; 0 when absent. */
  function Rank(id: Hit -> string, ranked: seq<Hit>, key: string): nat
    decreases |ranked|
  {
    if |ranked| == 0 then 0
    else if id(ranked[|ranked| - 1]) == key then |ranked|
    else Rank(id, ranked[..|ranked| - 1], key)
  }

  function RankIn(id: Hit -> string, g: Group, key: string): nat {
    Rank(id, Dedup(id, g.hits), key)
  }

  function Contribution(id: Hit -> string, k: nat, key: string): Group -> real {
    g => if RankIn(id, g, key) == 0 then 0.0 else Inverse(k, RankIn(id, g, key))
  }

  function Total(f: Group -> real, groups: seq<Group>): real
    decreases |groups|
  {
    if |groups| == 0 then 0.0 else Total(f, groups[..|groups| - 1]) + f(groups[|groups| - 1])
  }

  /** The sum of 1 / (k + rank) over the backends that found the candidate. */
  function Score(id: Hit -> string, k: nat, groups: seq<Group>, key: string): real {
    Total(Contribution(id, k, key), groups)
  }

  function Found(id: Hit -> string, key: string): Group -> bool {
    g => RankIn(id, g, key) > 0
  }

  /** The names of the backends that found the candidate, in order. */
  function Finders(found: Group -> bool, groups: seq<Group>): seq<string>
    decreases |groups|
  {
    if |groups| == 0 then []
    else
      var last := groups[|groups| - 1];
      Finders(found, groups[..|groups| - 1]) + if found(last) then [last.backend] else []
  }

  /** The hit of the first backend that found the candidate. */
  function FirstFound(id: Hit -> string, groups: seq<Group>, key: string): Option<Hit>
    decreases |groups|
  {
    if |groups| == 0 then None
    else
      var before := FirstFound(id, groups[..|groups| - 1], key);
      var last := groups[|groups| - 1];
      if before.Some? then before else AtRank(Dedup(id, last.hits), RankIn(id, last, key))
  }

  predicate DistinctBackends(groups: seq<Group>) {
    forall i, j | 0 <= i < j < |groups| :: groups[i].backend != groups[j].backend
  }

  lemma {:induction false} RankMeaning(id: Hit -> string, ranked: seq<Hit>, key: string)
    requires Distinct(id, ranked)
    ensures Rank(id, ranked, key) <= |ranked|
    ensures Rank(id, ranked, key) > 0 ==> id(ranked[Rank(id, ranked, key) - 1]) == key
    ensures Rank(id, ranked, key) == 0 ==> forall i | 0 <= i < |ranked| :: id(ranked[i]) != key
    decreases |ranked|
  {
    if |ranked| > 0 && id(ranked[|ranked| - 1]) != key { RankMeaning(id, ranked[..|ranked| - 1], key); }
  }

  lemma {:induction false} RankAbsent(id: Hit -> string, ranked: seq<Hit>, key: string)
    requires forall i | 0 <= i < |ranked| :: id(ranked[i]) != key
    ensures Rank(id, ranked, key) == 0
    decreases |ranked|
  {
    if |ranked| > 0 { RankAbsent(id, ranked[..|ranked| - 1], key); }
  }

  function Entry(d: Dict<Fused>, key: string): Option<Fused> {
    if key in d.entries then Some(d.entries[key]) else None
  }

  /** What adding a hit at rank `rank` (0 for none) makes of a candidate's entry. */
  predicate Updated(k: nat, backend: string, rank: nat, hit: Option<Hit>, e: Option<Fused>, r: Option<Fused>) {
    if rank == 0 then r == e
    else
      && r.Some? && hit.Some? && r.value.hit == (if e.Some? then e.value.hit else hit.value)
      && r.value.backends == (if e.Some? then e.value.backends else []) + [backend]
      && r.value.fusionScore == (if e.Some? then e.value.fusionScore else 0.0) + Inverse(k, rank)
  }

  function AtRank(ranked: seq<Hit>, rank: nat): Option<Hit> {
    if 0 < rank <= |ranked| then Some(ranked[rank - 1]) else None
  }

  lemma AddHitAt(id: Hit -> string, k: nat, backend: string, h: Hit, rank: nat, d: Dict<Fused>, key: string)
    requires rank > 0
    requires key in d.entries ==> id(d.entries[key].hit) == key && backend !in d.entries[key].backends
    ensures Updated(k, backend, if id(h) == key then rank else 0, Some(h),
                    Entry(d, key), Entry(AddHit(id, k, backend, h, rank, d), key))
  {
  }

  lemma AddHitNext(id: Hit -> string, k: nat, backend: string, h: Hit, n: nat, before: Dict<Fused>, key: string,
                   rank: nat, hit: Option<Hit>, e: Option<Fused>)
    requires n > 0 && Updated(k, backend, rank, hit, e, Entry(before, key)) && (id(h) == key ==> rank == 0)
    requires e.Some? ==> id(e.value.hit) == key && backend !in e.value.backends
    ensures Updated(k, backend, if id(h) == key then n else rank, if id(h) == key then Some(h) else hit,
                    e, Entry(AddHit(id, k, backend, h, n, before), key))
  {
    if id(h) == key {
      AddHitAt(id, k, backend, h, n, before, key);
    } else {
      AddOther(id, k, backend, h, n, before, key);
    }
  }

  /** What the first `n` ranked hits of a backend make of the entry of `key`. */
  predicate HitsUpdated(id: Hit -> string, k: nat, backend: string, ranked: seq<Hit>, n: nat, d: Dict<Fused>, key: string)
    requires Valid(d) && n <= |ranked|
  {
    var rank := Rank(id, ranked[..n], key);
    Updated(k, backend, rank, AtRank(ranked, rank), Entry(d, key), Entry(AddHits(id, k, backend, ranked, n, d), key))
  }

  /** The backend has not been counted for `key`. */
  predicate NewTo(id: Hit -> string, d: Dict<Fused>, key: string, backend: string) {
    key in d.entries ==> id(d.entries[key].hit) == key && backend !in d.entries[key].backends
  }

  lemma HitsUpdatedNone(id: Hit -> string, k: nat, backend: string, ranked: seq<Hit>, d: Dict<Fused>, key: string)
    requires Valid(d)
    ensures HitsUpdated(id, k, backend, ranked, 0, d, key)
  {
    assert ranked[..0] == [];
  }

  lemma HitsUpdatedNext(id: Hit -> string, k: nat, backend: string, ranked: seq<Hit>, n: nat, d: Dict<Fused>, key: string)
    requires Valid(d) && 0 < n <= |ranked| && Distinct(id, ranked)
    requires NewTo(id, d, key, backend)
    requires HitsUpdated(id, k, backend, ranked, n - 1, d, key)
    ensures HitsUpdated(id, k, backend, ranked, n, d, key)
  {
    assert Entry(d, key).Some? ==> id(Entry(d, key).value.hit) == key && backend !in Entry(d, key).value.backends;
    RankNext(id, ranked, n, key);
    var rank := Rank(id, ranked[..n - 1], key);
    AddHitNext(id, k, backend, ranked[n - 1], n, AddHits(id, k, backend, ranked, n - 1, d), key,
               rank, AtRank(ranked, rank), Entry(d, key));
  }

  /** Adding one backend's ranked hits changes the entry of `key` at its rank only. */
  lemma {:induction false} AddHitsAt(id: Hit -> string, k: nat, backend: string, ranked: seq<Hit>, n: nat, d: Dict<Fused>, key: string)
    requires Valid(d) && n <= |ranked| && Distinct(id, ranked)
    requires NewTo(id, d, key, backend)
    ensures HitsUpdated(id, k, backend, ranked, n, d, key)
  {
    if n == 0 {
      HitsUpdatedNone(id, k, backend, ranked, d, key);
    } else {
      AddHitsAt(id, k, backend, ranked, n - 1, d, key);
      HitsUpdatedNext(id, k, backend, ranked, n, d, key);
    }
  }

  lemma RankNext(id: Hit -> string, ranked: seq<Hit>, n: nat, key: string)
    requires 0 < n <= |ranked| && Distinct(id, ranked)
    ensures Rank(id, ranked[..n], key) == if id(ranked[n - 1]) == key then n else Rank(id, ranked[..n - 1], key)
    ensures id(ranked[n - 1]) == key ==> Rank(id, ranked[..n - 1], key) == 0
  {
    assert ranked[..n][..n - 1] == ranked[..n - 1];
    if id(ranked[n - 1]) == key { RankAbsent(id, ranked[..n - 1], key); }
  }

  lemma AddOther(id: Hit -> string, k: nat, backend: string, h: Hit, rank: nat, d: Dict<Fused>, key: string)
    requires rank > 0 && id(h) != key
    ensures Entry(AddHit(id, k, backend, h, rank, d), key) == Entry(d, key)
  {
  }

  lemma {:induction false} FindersAmong(found: Group -> bool, groups: seq<Group>, name: string)
    ensures name in Finders(found, groups) <==> exists g :: g in groups && g.backend == name && found(g)
    decreases |groups|
  {
    if |groups| > 0 {
      var init, last := groups[..|groups| - 1], groups[|groups| - 1];
      FindersAmong(found, init, name);
      assert forall g :: g in groups <==> g in init || g == last;
    }
  }

  /** A backend's name is not among the earlier finders. */
  lemma NewBackend(found: Group -> bool, groups: seq<Group>)
    requires DistinctBackends(groups) && |groups| > 0
    ensures groups[|groups| - 1].backend !in Finders(found, groups[..|groups| - 1])
  {
    var init := groups[..|groups| - 1];
    FindersAmong(found, init, groups[|groups| - 1].backend);
    assert forall i | 0 <= i < |init| :: init[i] == groups[i];
  }

  /** All of one backend's ranked hits. */
  lemma AddGroup(id: Hit -> string, k: nat, backend: string, ranked: seq<Hit>, d: Dict<Fused>, key: string)
    requires Valid(d) && Distinct(id, ranked)
    requires var e := Entry(d, key); e.Some? ==> id(e.value.hit) == key && backend !in e.value.backends
    ensures var rank := Rank(id, ranked, key);
      && Updated(k, backend, rank, AtRank(ranked, rank), Entry(d, key), Entry(AddHits(id, k, backend, ranked, |ranked|, d), key))
      && (rank > 0 ==> AtRank(ranked, rank).Some? && id(AtRank(ranked, rank).value) == key)
  {
    RankMeaning(id, ranked, key);
    AddHitsAt(id, k, backend, ranked, |ranked|, d, key);
    assert ranked[..|ranked|] == ranked;
  }

  /** The entry of `key` before and after the last backend. */
  lemma LastGroup(id: Hit -> string, k: nat, groups: seq<Group>, key: string)
    requires k > 0 && |groups| > 0
    requires var e := Entry(FuseGroups(id, k, groups[..|groups| - 1]), key);
      e.Some? ==> id(e.value.hit) == key && groups[|groups| - 1].backend !in e.value.backends
    ensures var last := groups[|groups| - 1];
      var rank := RankIn(id, last, key);
      && Updated(k, last.backend, rank, AtRank(Dedup(id, last.hits), rank),
                 Entry(FuseGroups(id, k, groups[..|groups| - 1]), key), Entry(FuseGroups(id, k, groups), key))
      && (rank > 0 ==> AtRank(Dedup(id, last.hits), rank).Some? && id(AtRank(Dedup(id, last.hits), rank).value) == key)
  {
    var last := groups[|groups| - 1];
    DedupDistinct(id, last.hits);
    AddGroup(id, k, last.backend, Dedup(id, last.hits), FuseGroups(id, k, groups[..|groups| - 1]), key);
  }

  /** What the entry of a candidate must be. */
  predicate Specified(id: Hit -> string, k: nat, groups: seq<Group>, key: string, e: Option<Fused>) {
    if e.None? then
      Finders(Found(id, key), groups) == [] && FirstFound(id, groups, key) == None && Score(id, k, groups, key) == 0.0
    else
      && Finders(Found(id, key), groups) != [] && e.value.backends == Finders(Found(id, key), groups)
      && e.value.fusionScore == Score(id, k, groups, key)
      && FirstFound(id, groups, key) == Some(e.value.hit) && id(e.value.hit) == key
  }

  lemma SpecifiedNext(id: Hit -> string, k: nat, groups: seq<Group>, key: string, e: Option<Fused>, r: Option<Fused>)
    requires k > 0 && |groups| > 0 && Specified(id, k, groups[..|groups| - 1], key, e)
    requires var last := groups[|groups| - 1];
      var rank := RankIn(id, last, key);
      && Updated(k, last.backend, rank, AtRank(Dedup(id, last.hits), rank), e, r)
      && (rank > 0 ==> AtRank(Dedup(id, last.hits), rank).Some? && id(AtRank(Dedup(id, last.hits), rank).value) == key)
    ensures Specified(id, k, groups, key, r)
  {
    var rank := RankIn(id, groups[|groups| - 1], key);
    assert AtRank(Dedup(id, groups[|groups| - 1].hits), 0) == None;
  }

  /**
   * Fusion refines its specification: the candidates are the identities some backend found, and each carries exactly
   * the sum of 1 / (k + rank) over the backends that found it, those backends, and the first of them's hit.
   */
  lemma {:induction false} FusedExact(id: Hit -> string, k: nat, groups: seq<Group>, key: string)
    requires k > 0 && DistinctBackends(groups)
    ensures Specified(id, k, groups, key, Entry(FuseGroups(id, k, groups), key))
    decreases |groups|
  {
    if |groups| > 0 {
      FusedExact(id, k, groups[..|groups| - 1], key);
      NewBackend(Found(id, key), groups);
      LastGroup(id, k, groups, key);
      SpecifiedNext(id, k, groups, key, Entry(FuseGroups(id, k, groups[..|groups| - 1]), key), Entry(FuseGroups(id, k, groups), key));
    }
  }

  lemma DedupDistinct(id: Hit -> string, s: seq<Hit>)
    ensures Distinct(id, Dedup(id, s))
  {
    DedupExact(id, s);
  }
}
