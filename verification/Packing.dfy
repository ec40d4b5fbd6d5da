/**
 * The greedy two-limit packer shared by the three context formatters: a section is kept unless its
 * document already has `maxPer` sections or the joined text would exceed `maxChars`.
 */
module Packing {
  import opened Text
  import opened Sequences

  const GAP := "\n\n"

  /** A printed section with the document it counts against. */
  datatype Candidate<T> = Candidate(key: string, text: string, item: T)

  datatype Limits = Limits(titles: seq<string>, maxChars: int, maxPer: int)

  function Texts<T>(kept: seq<Candidate<T>>): seq<string> {
    seq(|kept|, i requires 0 <= i < |kept| => kept[i].text)
  }

  function CountKey<T>(kept: seq<Candidate<T>>, key: string): nat {
    if |kept| == 0 then 0
    else CountKey(Init(kept), key) + if Last(kept).key == key then 1 else 0
  }

  /** Length of `"\n\n".join(parts)`. */
  function JoinedLength(parts: seq<string>): int {
    TotalLength(parts) + if |parts| == 0 then 0 else 2 * (|parts| - 1)
  }

  function TotalLength(parts: seq<string>): nat {
    if parts == [] then 0 else |parts[0]| + TotalLength(parts[1..])
  }

  function PackedLength<T>(limits: Limits, kept: seq<Candidate<T>>): int {
    JoinedLength(limits.titles + Texts(kept))
  }

  /** Why a candidate cannot be added to what is already kept. */
  predicate Blocked<T>(limits: Limits, kept: seq<Candidate<T>>, c: Candidate<T>) {
    CountKey(kept, c.key) >= limits.maxPer || PackedLength(limits, kept + [c]) > limits.maxChars
  }

  /** What the loop has kept after seeing all of `items`. */
  function Kept<T>(limits: Limits, items: seq<Candidate<T>>): seq<Candidate<T>> {
    if |items| == 0 then []
    else
      var before := Kept(limits, Init(items));
      if Blocked(limits, before, Last(items)) then before else before + [Last(items)]
  }

  /** Whether item `i` made it into the output. */
  predicate Chosen<T>(limits: Limits, items: seq<Candidate<T>>, i: nat)
    requires i < |items|
  {
    !Blocked(limits, Kept(limits, items[..i]), items[i])
  }

  lemma KeptStep<T>(limits: Limits, items: seq<Candidate<T>>, i: nat)
    requires i < |items|
    ensures Kept(limits, items[..i + 1]) ==
      if Chosen(limits, items, i) then Kept(limits, items[..i]) + [items[i]] else Kept(limits, items[..i])
  {
    assert Init(items[..i + 1]) == items[..i] && Last(items[..i + 1]) == items[i];
  }

  function DocumentCount(counts: map<string, nat>, key: string): nat {
    if key in counts then counts[key] else 0
  }

  /** The document counters of the loop agree with what is kept. */
  ghost predicate CountsAgree<T>(counts: map<string, nat>, kept: seq<Candidate<T>>) {
    forall key :: DocumentCount(counts, key) == CountKey(kept, key)
  }

  lemma CountsStep<T>(counts: map<string, nat>, kept: seq<Candidate<T>>, c: Candidate<T>)
    requires CountsAgree(counts, kept)
    ensures CountsAgree(counts[c.key := DocumentCount(counts, c.key) + 1], kept + [c])
  {
    assert Init(kept + [c]) == kept && Last(kept + [c]) == c;
    forall key ensures DocumentCount(counts[c.key := DocumentCount(counts, c.key) + 1], key) == CountKey(kept + [c], key) {
      assert DocumentCount(counts, key) == CountKey(kept, key);
    }
  }

  // ---------- lengths ----------

  lemma {:induction false} TotalLengthConcat(a: seq<string>, b: seq<string>)
    ensures TotalLength(a + b) == TotalLength(a) + TotalLength(b)
  {
    if a == [] {
      assert a + b == b;
    } else {
      TotalLengthConcat(a[1..], b);
      assert (a + b)[1..] == a[1..] + b;
    }
  }

  lemma {:induction false} JoinLength(parts: seq<string>)
    ensures |Join(parts, GAP)| == JoinedLength(parts)
  {
    if |parts| == 1 {
      assert TotalLength(parts[1..]) == 0;
    } else if |parts| > 1 {
      JoinLength(parts[1..]);
    }
  }

  lemma PackedStep<T>(limits: Limits, kept: seq<Candidate<T>>, c: Candidate<T>)
    ensures PackedLength(limits, kept + [c]) ==
      PackedLength(limits, kept) + |c.text| + if limits.titles == [] && |kept| == 0 then 0 else 2
  {
    var parts := limits.titles + Texts(kept);
    assert limits.titles + Texts(kept + [c]) == parts + [c.text];
    TotalLengthConcat(parts, [c.text]);
  }

  lemma {:induction false} PackedGrows<T>(limits: Limits, kept: seq<Candidate<T>>, more: seq<Candidate<T>>)
    ensures PackedLength(limits, kept) <= PackedLength(limits, kept + more)
    decreases |more|
  {
    if |more| == 0 {
      assert kept + more == kept;
    } else {
      PackedGrows(limits, kept, Init(more));
      assert kept + more == (kept + Init(more)) + [Last(more)];
      PackedStep(limits, kept + Init(more), Last(more));
    }
  }

  lemma {:induction false} CountGrows<T>(kept: seq<Candidate<T>>, more: seq<Candidate<T>>, key: string)
    ensures CountKey(kept, key) <= CountKey(kept + more, key)
    decreases |more|
  {
    if |more| == 0 {
      assert kept + more == kept;
    } else {
      CountGrows(kept, Init(more), key);
      assert Init(kept + more) == kept + Init(more);
    }
  }

  lemma TextsStep<T>(kept: seq<Candidate<T>>, c: Candidate<T>)
    ensures Texts(kept + [c]) == Texts(kept) + [c.text]
  {
  }

  /** The length test of the loop is the packed length of the grown list. */
  lemma LengthTest<T>(limits: Limits, kept: seq<Candidate<T>>, c: Candidate<T>, parts: seq<string>)
    requires parts == limits.titles + Texts(kept)
    ensures |Join(parts + [c.text], GAP)| == PackedLength(limits, kept + [c])
    ensures parts + [c.text] == limits.titles + Texts(kept + [c])
  {
    TextsStep(kept, c);
    Regroup(limits.titles, Texts(kept), [c.text]);
    JoinLength(parts + [c.text]);
  }

  // ---------- what the packer guarantees ----------

  /** The joined output stays within the budget and no document exceeds its share. */
  lemma {:induction false} KeptWithinLimits<T>(limits: Limits, items: seq<Candidate<T>>, key: string)
    requires limits.maxPer >= 1
    ensures var kept := Kept(limits, items);
      && (|kept| > 0 ==> |Join(limits.titles + Texts(kept), GAP)| <= limits.maxChars)
      && CountKey(kept, key) <= limits.maxPer
    decreases |items|
  {
    if |items| > 0 {
      KeptWithinLimits(limits, Init(items), key);
      var before, c := Kept(limits, Init(items)), Last(items);
      JoinLength(limits.titles + Texts(Kept(limits, items)));
      assert Init(before + [c]) == before;
    }
  }

  lemma {:induction false} KeptExtends<T>(limits: Limits, items: seq<Candidate<T>>, i: nat)
    requires i <= |items|
    ensures Kept(limits, items[..i]) <= Kept(limits, items)
    decreases |items| - i
  {
    if i < |items| {
      KeptExtends(limits, items, i + 1);
      KeptStep(limits, items, i);
    } else {
      TakeAll(items);
    }
  }

  /** A candidate that is blocked stays blocked when more is kept. */
  lemma BlockedStays<T>(limits: Limits, kept: seq<Candidate<T>>, more: seq<Candidate<T>>, c: Candidate<T>)
    requires Blocked(limits, kept, c)
    requires limits.titles != []
    ensures Blocked(limits, kept + more, c)
  {
    CountGrows(kept, more, c.key);
    PackedGrows(limits, kept, more);
    PackedStep(limits, kept, c);
    PackedStep(limits, kept + more, c);
  }

  /** Maximality: nothing left out could be added to the finished output within both limits. */
  lemma KeptMaximal<T>(limits: Limits, items: seq<Candidate<T>>, i: nat)
    requires i < |items| && limits.titles != []
    requires !Chosen(limits, items, i)
    ensures Blocked(limits, Kept(limits, items), items[i])
  {
    KeptExtends(limits, items, i);
    var early, final := Kept(limits, items[..i]), Kept(limits, items);
    PrefixRest(early, final);
    BlockedStays(limits, early, final[|early|..], items[i]);
  }

  /** The formatter loop over one list of parts. */
  method Pack<T>(limits: Limits, items: seq<Candidate<T>>) returns (parts: seq<string>)
    ensures parts == limits.titles + Texts(Kept(limits, items))
  {
    parts := limits.titles;
    var documentCounts: map<string, nat> := map[];
    for i := 0 to |items|
      invariant parts == limits.titles + Texts(Kept(limits, items[..i]))
      invariant CountsAgree(documentCounts, Kept(limits, items[..i]))
    {
      ghost var kept := Kept(limits, items[..i]);
      var c := items[i];
      KeptStep(limits, items, i);
      LengthTest(limits, kept, c, parts);
      assert DocumentCount(documentCounts, c.key) == CountKey(kept, c.key);
      if DocumentCount(documentCounts, c.key) < limits.maxPer && |Join(parts + [c.text], GAP)| <= limits.maxChars {
        CountsStep(documentCounts, kept, c);
        parts := parts + [c.text];
        documentCounts := documentCounts[c.key := DocumentCount(documentCounts, c.key) + 1];
      }
    }
    TakeAll(items);
  }
}
