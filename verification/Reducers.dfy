/** The channel reducers of core/task_state.py, which merge the updates of parallel nodes. */
module Reducers {
  import opened Wrappers

  predicate NoDuplicates<T(==)>(s: seq<T>) {
    forall i, j | 0 <= i < j < |s| :: s[i] != s[j]
  }

  /** `existing`, then the items of `incoming` not yet there. */
  function AppendNew<T(==)>(existing: seq<T>, incoming: seq<T>): seq<T>
    decreases |incoming|
  {
    if |incoming| == 0 then existing
    else AppendNew(if incoming[0] in existing then existing else existing + [incoming[0]], incoming[1..])
  }

  /** `merge_unique`: an explicit empty list clears the channel. */
  function MergeUnique<T(==)>(existing: seq<T>, incoming: Option<seq<T>>): seq<T> {
    match incoming
    case None => existing
    case Some(items) => if items == [] then [] else AppendNew(existing, items)
  }

  /** `merge_dict`: an explicit empty dict clears the channel. */
  function MergeDict<K(==), V>(existing: map<K, V>, incoming: Option<map<K, V>>): map<K, V> {
    match incoming
    case None => existing
    case Some(items) => if items.Keys == {} then map[] else existing + items
  }

  /** Merging keeps the old items in place, ends with exactly the items of both, and creates no duplicate. */
  lemma {:induction false} AppendNewMerges<T>(existing: seq<T>, incoming: seq<T>)
    ensures existing <= AppendNew(existing, incoming)
    ensures forall x :: x in AppendNew(existing, incoming) <==> x in existing || x in incoming
    ensures NoDuplicates(existing) ==> NoDuplicates(AppendNew(existing, incoming))
    decreases |incoming|
  {
    if |incoming| > 0 {
      var next := if incoming[0] in existing then existing else existing + [incoming[0]];
      AppendNewMerges(next, incoming[1..]);
      assert forall x :: x in incoming <==> x == incoming[0] || x in incoming[1..];
    }
  }

  /** The loop of `merge_unique`. */
  method MergeUniqueLists<T(==)>(existing: Option<seq<T>>, incoming: Option<seq<T>>) returns (merged: seq<T>)
    ensures merged == MergeUnique(if existing.Some? then existing.value else [], incoming)
    ensures incoming.Some? && incoming.value != [] ==>
      forall x :: x in merged <==> (existing.Some? && x in existing.value) || x in incoming.value
  {
    var old' := if existing.Some? then existing.value else [];
    if incoming.None? {
      return old';
    }
    if incoming.value == [] {
      return [];
    }
    merged := old';
    var items := incoming.value;
    for i := 0 to |items|
      invariant AppendNew(merged, items[i..]) == AppendNew(old', items)
    {
      assert items[i..][1..] == items[i + 1..];
      if items[i] !in merged {
        merged := merged + [items[i]];
      }
    }
    assert items[|items|..] == [];
    AppendNewMerges(old', items);
  }
}
