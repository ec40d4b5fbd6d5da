/** The stable descending sort of `sorted(..., reverse=True)`, and the order of texts by code point. */
module Ordering {
  /** `above` compares by some key: what is not above is transitive. */
  ghost predicate Ranks<T(!new)>(above: (T, T) -> bool) {
    && (forall x :: !above(x, x))
    && (forall x, y :: above(x, y) ==> !above(y, x))
    && (forall x, y, z :: !above(y, x) && !above(z, y) ==> !above(z, x))
  }

  function Insert<T>(above: (T, T) -> bool, s: seq<T>, x: T): seq<T>
    decreases |s|
  {
    if |s| == 0 then [x]
    else if above(x, s[0]) then [x] + s
    else [s[0]] + Insert(above, s[1..], x)
  }

  function Sort<T>(above: (T, T) -> bool, s: seq<T>): seq<T>
    decreases |s|
  {
    if |s| == 0 then [] else Insert(above, Sort(above, s[..|s| - 1]), s[|s| - 1])
  }

  predicate Descending<T>(above: (T, T) -> bool, s: seq<T>) {
    forall i, j | 0 <= i < j < |s| :: !above(s[j], s[i])
  }

  lemma {:induction false} InsertMembers<T>(above: (T, T) -> bool, s: seq<T>, x: T)
    ensures multiset(Insert(above, s, x)) == multiset(s) + multiset{x}
    decreases |s|
  {
    if |s| > 0 {
      assert s == [s[0]] + s[1..];
      if !above(x, s[0]) { InsertMembers(above, s[1..], x); }
    }
  }

  lemma {:induction false} SortMembers<T>(above: (T, T) -> bool, s: seq<T>)
    ensures multiset(Sort(above, s)) == multiset(s)
    decreases |s|
  {
    if |s| > 0 {
      SortMembers(above, s[..|s| - 1]);
      InsertMembers(above, Sort(above, s[..|s| - 1]), s[|s| - 1]);
      assert s == s[..|s| - 1] + [s[|s| - 1]];
    }
  }

  lemma SortContains<T>(above: (T, T) -> bool, s: seq<T>, x: T)
    ensures x in Sort(above, s) <==> x in s
    ensures |Sort(above, s)| == |s|
  {
    SortMembers(above, s);
    assert x in Sort(above, s) <==> x in multiset(Sort(above, s));
    assert |multiset(Sort(above, s))| == |multiset(s)|;
  }

  lemma {:induction false} InsertDescending<T(!new)>(above: (T, T) -> bool, s: seq<T>, x: T)
    requires Ranks(above) && Descending(above, s)
    ensures Descending(above, Insert(above, s, x))
    decreases |s|
  {
    if |s| > 0 {
      if above(x, s[0]) {
        forall j | 0 <= j < |s| ensures !above(s[j], x) {
          assert !above(s[0], x);
          assert j > 0 ==> !above(s[j], s[0]);
        }
      } else {
        var rest := Insert(above, s[1..], x);
        InsertDescending(above, s[1..], x);
        InsertMembers(above, s[1..], x);
        forall j | 0 <= j < |rest| ensures !above(rest[j], s[0]) {
          assert rest[j] in multiset(rest);
          assert rest[j] == x || rest[j] in s[1..];
        }
      }
    }
  }

  lemma {:induction false} SortDescending<T(!new)>(above: (T, T) -> bool, s: seq<T>)
    requires Ranks(above)
    ensures Descending(above, Sort(above, s))
    decreases |s|
  {
    if |s| > 0 {
      SortDescending(above, s[..|s| - 1]);
      InsertDescending(above, Sort(above, s[..|s| - 1]), s[|s| - 1]);
    }
  }

  // ---------- stability ----------

  /** The items no comparison tells from `x`, in their order. */
  function Ties<T>(above: (T, T) -> bool, s: seq<T>, x: T): seq<T>
    decreases |s|
  {
    if |s| == 0 then []
    else (if !above(s[0], x) && !above(x, s[0]) then [s[0]] else []) + Ties(above, s[1..], x)
  }

  lemma {:induction false} TiesAppend<T>(above: (T, T) -> bool, a: seq<T>, b: seq<T>, x: T)
    ensures Ties(above, a + b, x) == Ties(above, a, x) + Ties(above, b, x)
    decreases |a|
  {
    if |a| == 0 {
      assert a + b == b;
    } else {
      TiesAppend(above, a[1..], b, x);
      assert (a + b)[1..] == a[1..] + b;
    }
  }

  lemma {:induction false} NoTies<T(!new)>(above: (T, T) -> bool, s: seq<T>, x: T)
    requires forall i | 0 <= i < |s| :: above(x, s[i])
    ensures Ties(above, s, x) == []
    decreases |s|
  {
    if |s| > 0 { NoTies(above, s[1..], x); }
  }

  lemma TiesSingle<T>(above: (T, T) -> bool, y: T, x: T)
    ensures Ties(above, [y], x) == if !above(y, x) && !above(x, y) then [y] else []
  {
    assert [y][1..] == [];
  }

  lemma {:induction false} InsertTies<T(!new)>(above: (T, T) -> bool, s: seq<T>, y: T, x: T)
    requires Ranks(above) && Descending(above, s)
    ensures Ties(above, Insert(above, s, y), x) == Ties(above, s + [y], x)
    decreases |s|
  {
    TiesAppend(above, s, [y], x);
    TiesSingle(above, y, x);
    if |s| > 0 {
      if above(y, s[0]) {
        TiesAppend(above, [y], s, x);
        if !above(y, x) && !above(x, y) {
          forall i | 0 <= i < |s| ensures above(x, s[i]) {
            assert i > 0 ==> !above(s[i], s[0]);
          }
          NoTies(above, s, x);
        }
      } else {
        var rest := Insert(above, s[1..], y);
        InsertTies(above, s[1..], y, x);
        assert ([s[0]] + rest)[1..] == rest;
        assert (s + [y])[1..] == s[1..] + [y];
      }
    }
  }

  /** The sort keeps items no comparison tells apart in their order. */
  lemma {:induction false} SortStable<T(!new)>(above: (T, T) -> bool, s: seq<T>, x: T)
    requires Ranks(above)
    ensures Ties(above, Sort(above, s), x) == Ties(above, s, x)
    decreases |s|
  {
    if |s| > 0 {
      var init, y := s[..|s| - 1], s[|s| - 1];
      SortStable(above, init, x);
      SortDescending(above, init);
      InsertTies(above, Sort(above, init), y, x);
      TiesAppend(above, Sort(above, init), [y], x);
      TiesAppend(above, init, [y], x);
      assert s == init + [y];
    }
  }

  // ---------- strictly descending lists ----------

  predicate Strict<T>(above: (T, T) -> bool, s: seq<T>) {
    forall i, j | 0 <= i < j < |s| :: above(s[i], s[j])
  }

  /** Of two items, the first is above the other or comes before it. */
  function Then<T>(above: (T, T) -> bool, before: (T, T) -> bool): (T, T) -> bool {
    (x, y) => above(x, y) || before(x, y)
  }

  lemma AboveAll<T(!new)>(above: (T, T) -> bool, s: seq<T>, x: T)
    requires Ranks(above) && Descending(above, s) && |s| > 0 && above(x, s[0])
    ensures forall j | 0 <= j < |s| :: above(x, s[j])
  {
    forall j | 0 <= j < |s| ensures above(x, s[j]) {
      assert j > 0 ==> !above(s[j], s[0]);
    }
  }

  lemma {:induction false} InsertKeepsOrder<T(!new)>(above: (T, T) -> bool, before: (T, T) -> bool, s: seq<T>, x: T)
    requires Ranks(above) && Descending(above, s) && Strict(Then(above, before), s)
    requires forall y | y in s :: before(y, x)
    ensures Strict(Then(above, before), Insert(above, s, x))
    decreases |s|
  {
    if |s| > 0 {
      if above(x, s[0]) {
        AboveAll(above, s, x);
      } else {
        var rest := Insert(above, s[1..], x);
        InsertKeepsOrder(above, before, s[1..], x);
        InsertMembers(above, s[1..], x);
        forall j | 0 <= j < |rest| ensures Then(above, before)(s[0], rest[j]) {
          assert rest[j] in multiset(rest);
          assert rest[j] == x || rest[j] in s[1..];
          assert s[0] in s;
        }
      }
    }
  }

  /** Items the sort does not tell apart keep whatever order they came in. */
  lemma {:induction false} SortKeepsOrder<T(!new)>(above: (T, T) -> bool, before: (T, T) -> bool, s: seq<T>)
    requires Ranks(above) && Strict(before, s)
    ensures Strict(Then(above, before), Sort(above, s))
    decreases |s|
  {
    if |s| > 0 {
      var init, x := s[..|s| - 1], s[|s| - 1];
      SortKeepsOrder(above, before, init);
      SortDescending(above, init);
      forall y | y in Sort(above, init) ensures before(y, x) {
        SortContains(above, init, y);
        var i :| 0 <= i < |init| && init[i] == y;
        assert before(s[i], s[|s| - 1]);
      }
      InsertKeepsOrder(above, before, Sort(above, init), x);
    }
  }

  lemma HeadIsIn<T>(s: seq<T>)
    requires |s| > 0
    ensures s[0] in s
  {
  }

  lemma TailMembers<T(!new)>(above: (T, T) -> bool, a: seq<T>, x: T)
    requires forall x, y :: above(x, y) ==> !above(y, x)
    requires |a| > 0 && Strict(above, a)
    ensures x in a[1..] <==> x in a && x != a[0]
  {
    assert a == [a[0]] + a[1..];
    if x in a[1..] {
      var i :| 0 <= i < |a[1..]| && a[1..][i] == x;
      assert above(a[0], a[i + 1]);
    }
  }

  /** A strictly descending list is determined by what it contains. */
  lemma {:induction false} SameOrder<T(!new)>(above: (T, T) -> bool, a: seq<T>, b: seq<T>)
    requires forall x, y :: above(x, y) ==> !above(y, x)
    requires Strict(above, a) && Strict(above, b)
    requires forall x :: x in a <==> x in b
    ensures a == b
    decreases |a|
  {
    if |a| == 0 {
      if |b| > 0 {
        HeadIsIn(b);
        assert false;
      }
    } else {
      assert a[0] in b && b[0] in a;
      var i :| 0 <= i < |b| && b[i] == a[0];
      var j :| 0 <= j < |a| && a[j] == b[0];
      assert a[0] == b[0];
      forall x ensures x in a[1..] <==> x in b[1..] {
        TailMembers(above, a, x);
        TailMembers(above, b, x);
      }
      SameOrder(above, a[1..], b[1..]);
      assert a == [a[0]] + a[1..] && b == [b[0]] + b[1..];
    }
  }

  // ---------- texts ----------

  /** `a < b` on texts. */
  predicate TextLess(a: string, b: string)
    decreases |a|
  {
    |b| > 0 && (|a| == 0 || a[0] < b[0] || (a[0] == b[0] && TextLess(a[1..], b[1..])))
  }

  /** The first place where the texts differ decides; a text comes after its own beginnings. */
  lemma {:induction false} TextLessMeans(a: string, b: string)
    ensures TextLess(a, b) <==> exists k: nat :: k <= |a| && k < |b| && a[..k] == b[..k] && (k == |a| || a[k] < b[k])
    decreases |a|
  {
    if |b| > 0 {
      if |a| == 0 || a[0] < b[0] {
        assert a[..0] == b[..0];
      } else if a[0] == b[0] {
        TextLessMeans(a[1..], b[1..]);
        if k: nat :| k <= |a[1..]| && k < |b[1..]| && a[1..][..k] == b[1..][..k] && (k == |a[1..]| || a[1..][k] < b[1..][k]) {
          assert a[..k + 1] == [a[0]] + a[1..][..k] && b[..k + 1] == [b[0]] + b[1..][..k];
        }
        if k: nat :| k <= |a| && k < |b| && a[..k] == b[..k] && (k == |a| || a[k] < b[k]) {
          assert a[1..][..k - 1] == a[..k][1..] && b[1..][..k - 1] == b[..k][1..];
        }
      } else {
        forall k: nat | 0 < k <= |a| && k < |b| ensures a[..k] != b[..k] {
          assert a[..k][0] != b[..k][0];
        }
      }
    }
  }

  lemma {:induction false} TextLessTotal(a: string, b: string)
    ensures TextLess(a, b) || TextLess(b, a) || a == b
    ensures !(TextLess(a, b) && TextLess(b, a)) && !TextLess(a, a)
    decreases |a|
  {
    if |a| > 0 && |b| > 0 {
      TextLessTotal(a[1..], b[1..]);
      assert a == [a[0]] + a[1..] && b == [b[0]] + b[1..];
    } else if |a| > 0 {
      TextLessTotal(a[1..], []);
    }
  }

  lemma {:induction false} TextLessTransitive(a: string, b: string, c: string)
    requires TextLess(a, b) && TextLess(b, c)
    ensures TextLess(a, c)
    decreases |a|
  {
    if |a| > 0 && a[0] == b[0] && b[0] == c[0] { TextLessTransitive(a[1..], b[1..], c[1..]); }
  }
}
