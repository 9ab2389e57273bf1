/**
 * What the builders make of their arguments. `new Map(iterable)` keeps one entry per key, in the order
 * the keys first appear, holding the Struct given last for that key; `extract_array_options` takes the
 * options object from the front of the arguments before it looks at the back.
 */
module Construction {
  import opened Wrappers
  import opened Document
  import opened Structs

  /** Where key `k` first appears among the entries. */
  function FirstIndex(entries: seq<(string, Struct)>, k: string): (r: nat)
    requires k in Keys(entries)
    ensures r < |entries| && entries[r].0 == k
    ensures forall i | 0 <= i < r :: entries[i].0 != k
    decreases |entries|
  {
    var n := |entries| - 1;
    assert Keys(entries) == Keys(entries[..n]) + [entries[n].0];
    if k in Keys(entries[..n]) then FirstIndex(entries[..n], k) else n
  }

  /** The Struct the last entry with key `k` holds. */
  function LastValue(entries: seq<(string, Struct)>, k: string): Struct
    requires k in Keys(entries)
    decreases |entries|
  {
    var n := |entries| - 1;
    assert Keys(entries) == Keys(entries[..n]) + [entries[n].0];
    if entries[n].0 == k then entries[n].1 else LastValue(entries[..n], k)
  }

  /** Dropping the last entry keeps where an earlier key first appears. */
  lemma {:induction false} FirstIndexInit(entries: seq<(string, Struct)>, k: string)
    requires |entries| > 0 && k in Keys(entries[..|entries| - 1])
    ensures k in Keys(entries) && FirstIndex(entries, k) == FirstIndex(entries[..|entries| - 1], k)
  {
    var n := |entries| - 1;
    assert Keys(entries) == Keys(entries[..n]) + [entries[n].0];
  }

  /** Every entry of `r` holds the Struct given last for its key among `entries`. */
  ghost predicate LastWins(entries: seq<(string, Struct)>, r: seq<(string, Struct)>)
  {
    forall i | 0 <= i < |r| :: r[i].0 in Keys(entries) && r[i].1 == LastValue(entries, r[i].0)
  }

  /** The keys of `r` come in the order of their first appearance among `entries`. */
  ghost predicate FirstOrdered(entries: seq<(string, Struct)>, r: seq<(string, Struct)>)
  {
    forall i, j | 0 <= i < j < |r| ::
      r[i].0 in Keys(entries) && r[j].0 in Keys(entries) && FirstIndex(entries, r[i].0) < FirstIndex(entries, r[j].0)
  }

  /** Every entry of `new Map(entries)` holds the Struct given last for its key. */
  lemma {:induction false} MapEntriesLastWins(entries: seq<(string, Struct)>)
    ensures LastWins(entries, MapEntries(entries))
    decreases |entries|
  {
    if entries != [] {
      var n := |entries| - 1;
      MapEntriesLastWins(entries[..n]);
      LastWinsStep(entries, MapEntries(entries[..n]), MapEntries(entries));
    }
  }

  /** One more entry keeps `LastWins`. */
  lemma {:induction false} LastWinsStep(entries: seq<(string, Struct)>, before: seq<(string, Struct)>, r: seq<(string, Struct)>)
    requires |entries| > 0 && DistinctKeys(before) && LastWins(entries[..|entries| - 1], before)
    requires r == SetEntry(before, entries[|entries| - 1].0, entries[|entries| - 1].1)
    ensures LastWins(entries, r)
  {
    var n := |entries| - 1;
    var init := entries[..n];
    var last := entries[n];
    assert Keys(entries) == Keys(init) + [last.0];
    forall i | 0 <= i < |r|
      ensures r[i].0 in Keys(entries) && r[i].1 == LastValue(entries, r[i].0)
    {
      if r[i].0 != last.0 {
        assert r[i] == before[i];
        assert before[i].0 in Keys(init) && before[i].1 == LastValue(init, before[i].0);
      }
    }
  }

  /** The keys of `new Map(entries)` come in the order of their first appearance among the entries. */
  lemma {:induction false} MapEntriesFirstOrder(entries: seq<(string, Struct)>)
    ensures FirstOrdered(entries, MapEntries(entries))
    decreases |entries|
  {
    if entries != [] {
      var n := |entries| - 1;
      MapEntriesFirstOrder(entries[..n]);
      var before := MapEntries(entries[..n]);
      assert forall k :: k in Keys(before) <==> k in Keys(entries[..n]);
      FirstOrderedStep(entries, before, MapEntries(entries));
    }
  }

  /** One more entry keeps `FirstOrdered`. */
  lemma {:induction false} FirstOrderedStep(entries: seq<(string, Struct)>, before: seq<(string, Struct)>, r: seq<(string, Struct)>)
    requires |entries| > 0 && DistinctKeys(before) && FirstOrdered(entries[..|entries| - 1], before)
    requires forall k :: k in Keys(before) <==> k in Keys(entries[..|entries| - 1])
    requires r == SetEntry(before, entries[|entries| - 1].0, entries[|entries| - 1].1)
    ensures FirstOrdered(entries, r)
  {
    var n := |entries| - 1;
    var init := entries[..n];
    var last := entries[n];
    assert Keys(entries) == Keys(init) + [last.0];
    forall i, j | 0 <= i < j < |r|
      ensures r[i].0 in Keys(entries) && r[j].0 in Keys(entries) && FirstIndex(entries, r[i].0) < FirstIndex(entries, r[j].0)
    {
      if j < |before| {
        assert Keys(r)[i] == r[i].0 && Keys(r)[j] == r[j].0;
        assert Keys(before)[i] == before[i].0 && Keys(before)[j] == before[j].0;
        assert r[i].0 == before[i].0 && r[j].0 == before[j].0;
        assert FirstIndex(init, before[i].0) < FirstIndex(init, before[j].0);
        FirstIndexInit(entries, r[i].0);
        FirstIndexInit(entries, r[j].0);
      } else {
        LastKeyNew(before, last.0, last.1, r, i, j);
        assert Keys(before)[i] == before[i].0;
        assert before[i].0 in Keys(before);
        assert r[i].0 in Keys(init);
        FirstIndexInit(entries, r[i].0);
        FirstIndexLast(entries);
      }
    }
  }

  /** Setting a key the map does not hold adds it last, behind every key it holds. */
  lemma {:induction false} LastKeyNew(before: seq<(string, Struct)>, key: string, value: Struct, r: seq<(string, Struct)>, i: nat, j: nat)
    requires DistinctKeys(before) && r == SetEntry(before, key, value) && i < j == |before| && j < |r|
    ensures key !in Keys(before) && r[i].0 == before[i].0 && r[j].0 == key
  {
    assert Keys(r)[i] == r[i].0 && Keys(r)[j] == r[j].0;
    if key in Keys(before) {
      assert false;
    }
    assert Keys(r)[i] == Keys(before)[i];
  }

  /** A key that appears only in the last entry appears first there. */
  lemma {:induction false} FirstIndexLast(entries: seq<(string, Struct)>)
    requires |entries| > 0 && entries[|entries| - 1].0 !in Keys(entries[..|entries| - 1])
    ensures entries[|entries| - 1].0 in Keys(entries) && FirstIndex(entries, entries[|entries| - 1].0) == |entries| - 1
  {
    var n := |entries| - 1;
    assert Keys(entries) == Keys(entries[..n]) + [entries[n].0];
  }

  /** An options object at both ends: the one at the front is taken, the one at the back stays as a child. */
  lemma ExtractPrefersFront(elements: seq<Element>)
    requires |elements| >= 2 && elements[0].Options? && elements[|elements| - 1].Options?
    ensures var (options, rest) := ExtractArrayOptions(elements);
      && options == elements[0].options && |rest| == |elements| - 1 && rest[|rest| - 1].Options?
      && Children(rest)[|rest| - 1].NotStruct?
  {
  }
}
