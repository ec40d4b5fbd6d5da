/** The two-pointer search for triples that sum to zero (algorithm/5.py). */
module ThreeSum {
  import opened Ordering

  datatype Triple = Triple(x: int, y: int, z: int)

  predicate Less(a: int, b: int) {
    a < b
  }

  predicate Ascending(s: seq<int>) {
    forall i, j | 0 <= i <= j < |s| :: s[i] <= s[j]
  }

  /** The three values in ascending order, at three positions of `s`, summing to zero. */
  predicate IsZeroTriple(s: seq<int>, t: Triple) {
    t.x <= t.y <= t.z && t.x + t.y + t.z == 0 && multiset{t.x, t.y, t.z} <= multiset(s)
  }

  /** Each triple once: in ascending order of the first, then of the second value. */
  predicate Increasing(res: seq<Triple>) {
    forall p, q | 0 <= p < q < |res| :: res[p].x < res[q].x || (res[p].x == res[q].x && res[p].y < res[q].y)
  }

  // ---------- positions and multiplicities ----------

  /** One position and what comes after it. */
  lemma OneAndRest(s: seq<int>, i: nat)
    requires i < |s|
    ensures multiset{s[i]} + multiset(s[i + 1..]) <= multiset(s)
  {
    assert s == s[..i] + ([s[i]] + s[i + 1..]);
  }

  lemma AddBelow(m: multiset<int>, n: multiset<int>, x: int)
    requires m <= n
    ensures multiset{x} + m <= multiset{x} + n
  {
  }

  lemma ThreeAsSum(x: int, y: int, z: int)
    ensures multiset{x, y, z} == multiset{x} + (multiset{y} + multiset{z})
  {
  }

  lemma TwoPositions(s: seq<int>, i: nat, j: nat)
    requires i < j < |s|
    ensures multiset{s[i]} + multiset{s[j]} <= multiset(s)
  {
    OneAndRest(s, i);
    assert s[i + 1..][j - i - 1] == s[j];
    OneAndRest(s[i + 1..], j - i - 1);
    AddBelow(multiset{s[j]}, multiset(s[i + 1..]), s[i]);
  }

  lemma PositionsCount(s: seq<int>, i: nat, j: nat, k: nat)
    requires i < j < k < |s|
    ensures multiset{s[i], s[j], s[k]} <= multiset(s)
  {
    var rest := s[i + 1..];
    OneAndRest(s, i);
    assert rest[j - i - 1] == s[j] && rest[k - i - 1] == s[k];
    TwoPositions(rest, j - i - 1, k - i - 1);
    AddBelow(multiset{s[j]} + multiset{s[k]}, multiset(rest), s[i]);
    ThreeAsSum(s[i], s[j], s[k]);
  }

  /** One value at two places or at three. */
  lemma {:induction false} PlaceOf(s: seq<int>, v: int, from: nat) returns (i: nat)
    requires from <= |s| && multiset(s[from..])[v] > 0
    ensures from <= i < |s| && s[i] == v && multiset(s[i + 1..])[v] == multiset(s[from..])[v] - 1
    decreases |s| - from
  {
    assert s[from..] == [s[from]] + s[from + 1..];
    if s[from] == v {
      i := from;
    } else {
      i := PlaceOf(s, v, from + 1);
    }
  }

  lemma Plenty(s: seq<int>, m: multiset<int>, v: int)
    requires m <= multiset(s)
    ensures multiset(s)[v] >= m[v]
  {
  }

  /** Values that occur together do so at different positions; in an ascending list, at ascending ones. */
  lemma Positions(s: seq<int>, t: Triple) returns (i: nat, j: nat, k: nat)
    requires IsZeroTriple(s, t)
    ensures i < |s| && j < |s| && k < |s| && i != j && i != k && j != k
    ensures s[i] == t.x && s[j] == t.y && s[k] == t.z
    ensures Ascending(s) ==> i < j < k
  {
    var m := multiset{t.x, t.y, t.z};
    assert s[0..] == s;
    Plenty(s, m, t.x);
    Plenty(s, m, t.y);
    Plenty(s, m, t.z);
    i := PlaceOf(s, t.x, 0);
    j := PlaceOf(s, t.y, if t.y == t.x then i + 1 else 0);
    k := PlaceOf(s, t.z, if t.z == t.y then j + 1 else 0);
  }

  predicate AtPositions(s: seq<int>, t: Triple, i: nat, j: nat, k: nat) {
    && i < |s| && j < |s| && k < |s| && i != j && i != k && j != k
    && s[i] == t.x && s[j] == t.y && s[k] == t.z
  }

  /** The three values occur together exactly when they stand at three different positions. */
  lemma TripleAtPositions(s: seq<int>, t: Triple)
    requires t.x <= t.y <= t.z && t.x + t.y + t.z == 0
    ensures IsZeroTriple(s, t) <==> exists i: nat, j: nat, k: nat :: AtPositions(s, t, i, j, k)
  {
    if IsZeroTriple(s, t) {
      var i, j, k := Positions(s, t);
      assert AtPositions(s, t, i, j, k);
    }
    if i: nat, j: nat, k: nat :| AtPositions(s, t, i, j, k) {
      if i < j < k { PositionsCount(s, i, j, k); }
      else if i < k < j { PositionsCount(s, i, k, j); }
      else if j < i < k { PositionsCount(s, j, i, k); }
      else if j < k < i { PositionsCount(s, j, k, i); }
      else if k < i < j { PositionsCount(s, k, i, j); }
      else { PositionsCount(s, k, j, i); }
    }
  }

  // ---------- the search ----------

  method SortNumbers(nums: array<int>)
    modifies nums
    ensures Ascending(nums[..]) && multiset(nums[..]) == multiset(old(nums[..]))
  {
    var sorted := Sort(Less, nums[..]);
    SortMembers(Less, nums[..]);
    SortContains(Less, nums[..], 0);
    SortDescending(Less, nums[..]);
    forall i | 0 <= i < nums.Length {
      nums[i] := sorted[i];
    }
    assert nums[..] == sorted;
  }

  /** Every zero triple whose first position is below `i` is found. */
  predicate FoundBelow(s: seq<int>, res: seq<Triple>, i: nat) {
    forall a, b, c | 0 <= a < i && a < b < c < |s| && s[a] + s[b] + s[c] == 0 :: Triple(s[a], s[b], s[c]) in res
  }

  /** Every zero triple starting at `i` is found, or lies between the two pointers. */
  predicate FoundOutside(s: seq<int>, res: seq<Triple>, i: nat, l: int, r: int)
    requires i < |s|
  {
    forall b, c | i < b < c < |s| && s[i] + s[b] + s[c] == 0 :: Triple(s[i], s[b], s[c]) in res || (l <= b && c <= r)
  }

  predicate Sound(s: seq<int>, res: seq<Triple>) {
    forall k | 0 <= k < |res| :: IsZeroTriple(s, res[k])
  }

  /** All triples so far come before those still to be found with first value `x` and second value at least `y`. */
  predicate Before(res: seq<Triple>, x: int, y: int) {
    forall k | 0 <= k < |res| :: res[k].x < x || (res[k].x == x && res[k].y < y)
  }

  predicate FirstBelow(res: seq<Triple>, x: int) {
    forall k | 0 <= k < |res| :: res[k].x < x
  }

  predicate FirstUpTo(res: seq<Triple>, x: int) {
    forall k | 0 <= k < |res| :: res[k].x <= x
  }

  /** The positions from `a` to `b` all hold `v`. */
  predicate Level(s: seq<int>, a: nat, b: nat, v: int)
    requires b < |s|
  {
    forall k | a <= k <= b :: s[k] == v
  }

  /** `while l < r and nums[l] == nums[l + 1]: l += 1`. */
  method SkipRight(nums: array<int>, l: nat, r: nat) returns (m: nat)
    requires l <= r < nums.Length
    ensures l <= m <= r && (m < r ==> nums[m] != nums[m + 1]) && Level(nums[..], l, m, nums[l])
  {
    m := l;
    while m < r && nums[m] == nums[m + 1]
      invariant l <= m <= r && forall k | l <= k <= m :: nums[k] == nums[l]
    {
      m := m + 1;
    }
  }

  /** `while l < r and nums[r] == nums[r - 1]: r -= 1`. */
  method SkipLeft(nums: array<int>, l: nat, r: nat) returns (m: nat)
    requires l <= r < nums.Length
    ensures l <= m <= r && (l < m ==> nums[m] != nums[m - 1]) && Level(nums[..], m, r, nums[r])
  {
    m := r;
    while l < m && nums[m] == nums[m - 1]
      invariant l <= m <= r && forall k | m <= k <= r :: nums[k] == nums[r]
    {
      m := m - 1;
    }
  }

  lemma Narrow(s: seq<int>, res: seq<Triple>, more: seq<Triple>, i: nat, l: nat, r: nat, l': nat, r': nat)
    requires Ascending(s) && i < l < r < |s| && FoundOutside(s, res, i, l, r) && l <= l' <= r && l <= r' <= r
    requires s[i] + s[l] + s[r] == 0 && more == res + [Triple(s[i], s[l], s[r])]
    requires Level(s, l, l', s[l]) && Level(s, r', r, s[r])
    ensures FoundOutside(s, more, i, l' + 1, r' - 1)
  {
    forall b, c | i < b < c < |s| && s[i] + s[b] + s[c] == 0
      ensures Triple(s[i], s[b], s[c]) in more || (l' + 1 <= b && c <= r' - 1)
    {
      if Triple(s[i], s[b], s[c]) !in res {
        assert l <= b && c <= r;
        if b <= l' || c >= r' {
          assert Triple(s[i], s[b], s[c]) == more[|res|];
        }
      }
    }
  }

  lemma DropRight(s: seq<int>, res: seq<Triple>, i: nat, l: nat, r: nat, r': nat)
    requires Ascending(s) && i < l < r < |s| && FoundOutside(s, res, i, l, r) && l <= r' <= r
    requires s[i] + s[l] + s[r] > 0 && Level(s, r', r, s[r])
    ensures FoundOutside(s, res, i, l, r' - 1)
  {
  }

  lemma DropLeft(s: seq<int>, res: seq<Triple>, i: nat, l: nat, r: nat, l': nat)
    requires Ascending(s) && i < l < r < |s| && FoundOutside(s, res, i, l, r) && l <= l' <= r
    requires s[i] + s[l] + s[r] < 0 && Level(s, l, l', s[l])
    ensures FoundOutside(s, res, i, l' + 1, r)
  {
  }

  lemma SoundNext(s: seq<int>, res: seq<Triple>, t: Triple)
    requires Sound(s, res) && IsZeroTriple(s, t)
    ensures Sound(s, res + [t])
  {
  }

  lemma IncreasingNext(res: seq<Triple>, t: Triple)
    requires Increasing(res) && Before(res, t.x, t.y)
    ensures Increasing(res + [t])
  {
  }

  lemma Extend(s: seq<int>, res: seq<Triple>, i: nat, l: nat, r: nat)
    requires Ascending(s) && Sound(s, res) && Increasing(res) && i < l < r < |s|
    requires s[i] + s[l] + s[r] == 0 && Before(res, s[i], s[l])
    ensures var more := res + [Triple(s[i], s[l], s[r])]; Sound(s, more) && Increasing(more)
  {
    var t := Triple(s[i], s[l], s[r]);
    PositionsCount(s, i, l, r);
    SoundNext(s, res, t);
    IncreasingNext(res, t);
  }

  lemma BeforeNext(res: seq<Triple>, t: Triple, y: int)
    requires Before(res, t.x, t.y) && t.y < y
    ensures Before(res + [t], t.x, y)
  {
  }

  lemma BeforeHigher(res: seq<Triple>, x: int, y: int, y': int)
    requires Before(res, x, y) && y <= y'
    ensures Before(res, x, y')
  {
  }

  /** The inner loop's invariant. */
  predicate Scanning(s: seq<int>, found: seq<Triple>, res: seq<Triple>, i: nat, l: int, r: int) {
    && Ascending(s) && i < l && r < |s| && i < |s|
    && found <= res && Sound(s, res) && Increasing(res) && FirstUpTo(res, s[i])
    && (l < r ==> Before(res, s[i], s[l]))
    && FoundOutside(s, res, i, l, r)
  }

  /** The branch of a triple found: it is added, and both pointers pass over its values. */
  method TakeTriple(nums: array<int>, i: nat, l: nat, r: nat, ghost found: seq<Triple>, res: seq<Triple>)
    returns (more: seq<Triple>, l': nat, r': int)
    requires Scanning(nums[..], found, res, i, l, r) && l < r && nums[i] + nums[l] + nums[r] == 0
    ensures Scanning(nums[..], found, more, i, l', r') && r' - l' < r - l
  {
    ghost var s := nums[..];
    var m := SkipRight(nums, l, r);
    var n := SkipLeft(nums, m, r);
    TakeKeeps(s, found, res, i, l, r, m, n);
    more, l', r' := res + [Triple(nums[i], nums[l], nums[r])], m + 1, n - 1;
  }

  lemma TakeKeeps(s: seq<int>, found: seq<Triple>, res: seq<Triple>, i: nat, l: nat, r: nat, m: nat, n: nat)
    requires Scanning(s, found, res, i, l, r) && l < r && s[i] + s[l] + s[r] == 0
    requires l <= m <= n <= r && (m < r ==> s[m] != s[m + 1])
    requires Level(s, l, m, s[l]) && Level(s, n, r, s[r])
    ensures Scanning(s, found, res + [Triple(s[i], s[l], s[r])], i, m + 1, n - 1)
  {
    var t := Triple(s[i], s[l], s[r]);
    Extend(s, res, i, l, r);
    Narrow(s, res, res + [t], i, l, r, m, n);
    if m + 1 < n - 1 { BeforeNext(res, t, s[m + 1]); }
  }

  /** The sum is too large: the right pointer passes over its value. */
  method PassRight(nums: array<int>, i: nat, l: nat, r: nat, ghost found: seq<Triple>, ghost res: seq<Triple>)
    returns (r': int)
    requires Scanning(nums[..], found, res, i, l, r) && l < r && nums[i] + nums[l] + nums[r] > 0
    ensures Scanning(nums[..], found, res, i, l, r') && r' < r
  {
    var n := SkipLeft(nums, l, r);
    DropRight(nums[..], res, i, l, r, n);
    r' := n - 1;
  }

  /** The sum is too small: the left pointer passes over its value. */
  method PassLeft(nums: array<int>, i: nat, l: nat, r: nat, ghost found: seq<Triple>, ghost res: seq<Triple>)
    returns (l': nat)
    requires Scanning(nums[..], found, res, i, l, r) && l < r && nums[i] + nums[l] + nums[r] < 0
    ensures Scanning(nums[..], found, res, i, l', r) && l' > l
  {
    ghost var s := nums[..];
    var m := SkipRight(nums, l, r);
    DropLeft(s, res, i, l, r, m);
    l' := m + 1;
    if l' < r { BeforeHigher(res, s[i], s[l], s[l']); }
  }

  /** The inner loop: all zero triples that start at position `i`. */
  method PairsFor(nums: array<int>, i: nat, found: seq<Triple>) returns (res: seq<Triple>)
    requires i < nums.Length && Ascending(nums[..])
    requires Sound(nums[..], found) && Increasing(found) && FirstBelow(found, nums[i])
    ensures Sound(nums[..], res) && Increasing(res) && FirstUpTo(res, nums[i])
    ensures found <= res && FoundOutside(nums[..], res, i, nums.Length, 0)
  {
    res := found;
    var l: nat, r: int := i + 1, nums.Length - 1;
    while l < r
      invariant Scanning(nums[..], found, res, i, l, r)
      decreases r - l
    {
      if nums[i] + nums[r] + nums[l] == 0 {
        res, l, r := TakeTriple(nums, i, l, r, found, res);
      } else if nums[i] + nums[r] + nums[l] > 0 {
        r := PassRight(nums, i, l, r, found, res);
      } else {
        l := PassLeft(nums, i, l, r, found, res);
      }
    }
  }

  /** The outer loop's invariant. */
  predicate Progress(s: seq<int>, res: seq<Triple>, i: nat) {
    && i <= |s| && Sound(s, res) && Increasing(res) && FoundBelow(s, res, i)
    && if i == 0 then res == [] else FirstUpTo(res, s[i - 1])
  }

  lemma SameFirst(s: seq<int>, res: seq<Triple>, i: nat)
    requires 0 < i < |s| && s[i - 1] == s[i] && Progress(s, res, i)
    ensures Progress(s, res, i + 1)
  {
    forall a, b, c | 0 <= a < i + 1 && a < b < c < |s| && s[a] + s[b] + s[c] == 0
      ensures Triple(s[a], s[b], s[c]) in res
    {
      if a == i {
        assert s[i - 1] + s[b] + s[c] == 0;
      }
    }
  }

  lemma NextFirst(s: seq<int>, found: seq<Triple>, res: seq<Triple>, i: nat)
    requires i < |s| && FoundBelow(s, found, i) && found <= res && FoundOutside(s, res, i, |s|, 0)
    ensures FoundBelow(s, res, i + 1)
  {
    forall a, b, c | 0 <= a < i + 1 && a < b < c < |s| && s[a] + s[b] + s[c] == 0
      ensures Triple(s[a], s[b], s[c]) in res
    {
      if a < i {
        assert Triple(s[a], s[b], s[c]) in found;
      }
    }
  }

  /** A first value not looked at before. */
  method StartingAt(nums: array<int>, i: nat, found: seq<Triple>) returns (res: seq<Triple>)
    requires i < nums.Length && Ascending(nums[..]) && Progress(nums[..], found, i)
    requires i > 0 ==> nums[i - 1] != nums[i]
    ensures Progress(nums[..], res, i + 1)
  {
    assert FirstBelow(found, nums[i]) by {
      assert i > 0 ==> nums[..][i - 1] < nums[..][i];
    }
    res := PairsFor(nums, i, found);
    NextFirst(nums[..], found, res, i);
  }

  lemma PositiveRest(s: seq<int>, res: seq<Triple>, i: nat)
    requires Ascending(s) && i < |s| && s[i] > 0 && FoundBelow(s, res, i)
    ensures FoundBelow(s, res, |s|)
  {
  }

  /** Everything found by position is everything there is. */
  lemma Complete(s: seq<int>, original: seq<int>, res: seq<Triple>)
    requires Ascending(s) && multiset(s) == multiset(original) && FoundBelow(s, res, |s|)
    ensures forall t | IsZeroTriple(original, t) :: t in res
  {
    forall t | IsZeroTriple(original, t) ensures t in res {
      assert IsZeroTriple(s, t);
      var i, j, k := Positions(s, t);
      assert Triple(s[i], s[j], s[k]) == t;
    }
  }

  lemma PartSize(m: multiset<int>, n: multiset<int>)
    requires m <= n
    ensures |m| <= |n|
  {
    assert n == m + (n - m);
  }

  /** Fewer than three numbers have no triple. */
  lemma TooFew(s: seq<int>)
    requires |s| < 3
    ensures forall t :: !IsZeroTriple(s, t)
  {
    forall t ensures !IsZeroTriple(s, t) {
      if IsZeroTriple(s, t) {
        PartSize(multiset{t.x, t.y, t.z}, multiset(s));
      }
    }
  }

  /**
   * `threeSum`: exactly the ascending triples of values at three positions that sum to zero, each once; the list is
   * left sorted, unless it was too short to be looked at.
   */
  method FindTriples(nums: array<int>) returns (res: seq<Triple>)
    modifies nums
    ensures multiset(nums[..]) == multiset(old(nums[..]))
    ensures if nums.Length < 3 then nums[..] == old(nums[..]) else Ascending(nums[..])
    ensures forall t :: t in res <==> IsZeroTriple(old(nums[..]), t)
    ensures forall p, q | 0 <= p < q < |res| :: res[p] != res[q]
  {
    ghost var original := nums[..];
    if nums.Length < 3 {
      TooFew(original);
      return [];
    }
    SortNumbers(nums);
    ghost var s := nums[..];
    res := [];
    for i := 0 to nums.Length
      invariant nums[..] == s && Progress(s, res, i)
    {
      if nums[i] > 0 {
        PositiveRest(s, res, i);
        Exactly(s, original, res);
        return;
      }
      if i > 0 && nums[i - 1] == nums[i] {
        SameFirst(s, res, i);
        continue;
      }
      res := StartingAt(nums, i, res);
    }
    Exactly(s, original, res);
  }

  lemma Exactly(s: seq<int>, original: seq<int>, res: seq<Triple>)
    requires Ascending(s) && multiset(s) == multiset(original)
    requires Sound(s, res) && Increasing(res) && FoundBelow(s, res, |s|)
    ensures forall t :: t in res <==> IsZeroTriple(original, t)
    ensures forall p, q | 0 <= p < q < |res| :: res[p] != res[q]
  {
    Complete(s, original, res);
    forall t | t in res ensures IsZeroTriple(original, t) {
      var k :| 0 <= k < |res| && res[k] == t;
    }
  }
}
