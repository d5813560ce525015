/**
 * What counting the faceted unique values guarantees: keys are never
 * removed and stay distinct, every count is at least one, every value
 * processed adds exactly one to the counts, and a primitive's count is its
 * number of occurrences.
 */
module FacetedValueProperties {
  import opened Wrappers
  import opened FacetedValues

  /** No key is stored twice. */
  predicate UniqueKeys(entries: seq<Entry>) {
    forall a, b :: 0 <= a < b < |entries| ==> entries[a].key != entries[b].key
  }

  /** Every stored count is at least one. */
  predicate PositiveCounts(entries: seq<Entry>) {
    forall m :: 0 <= m < |entries| ==> entries[m].count >= 1
  }

  /** The sum of all counts. */
  function Total(entries: seq<Entry>): int {
    if |entries| == 0 then 0 else Total(entries[..|entries| - 1]) + entries[|entries| - 1].count
  }

  /** How often `v` occurs in `values`. */
  function Occurrences(values: seq<Value>, v: Value): nat {
    if |values| == 0 then 0
    else Occurrences(values[..|values| - 1], v) + (if values[|values| - 1] == v then 1 else 0)
  }

  /** Every object is equal to itself when ids are ignored. */
  ghost predicate ReflexiveOnObjects(sansId: (Value, Value) -> bool) {
    forall v: Value :: v.Obj? ==> sansId(v, v)
  }

  /** No stored primitive key is equal, ids ignored, to an object. */
  ghost predicate PrimitivesNeverMatchObjects(sansId: (Value, Value) -> bool) {
    forall a: Value, b: Value :: a.Prim? && b.Obj? ==> !sansId(a, b)
  }

  /** Counting a value keeps every stored key where it was, and adds at most one key, `newValue` itself, at the end. */
  lemma AddValueKeepsKeys(entries: seq<Entry>, newValue: Value, sansId: (Value, Value) -> bool)
    ensures var r := AddValue(entries, newValue, sansId);
      |entries| <= |r| <= |entries| + 1
      && (forall m :: 0 <= m < |entries| ==> r[m].key == entries[m].key)
      && (|r| == |entries| + 1 ==> r[|entries|] == Entry(newValue, 1) && IndexOfKey(entries, newValue).None?)
  {
  }

  /** Counting a value keeps the keys distinct and the counts positive. */
  lemma AddValueWellFormed(entries: seq<Entry>, newValue: Value, sansId: (Value, Value) -> bool)
    requires UniqueKeys(entries) && PositiveCounts(entries)
    ensures UniqueKeys(AddValue(entries, newValue, sansId)) && PositiveCounts(AddValue(entries, newValue, sansId))
  {
    AddValueKeepsKeys(entries, newValue, sansId);
  }

  /** Whatever the values and the relation, the counted map has distinct keys and counts of at least one. */
  lemma {:induction false} CountedWellFormed(values: seq<Value>, sansId: (Value, Value) -> bool)
    ensures UniqueKeys(Counted(values, sansId)) && PositiveCounts(Counted(values, sansId))
  {
    if |values| > 0 {
      CountedWellFormed(values[..|values| - 1], sansId);
      AddValueWellFormed(Counted(values[..|values| - 1], sansId), values[|values| - 1], sansId);
    }
  }

  /** Counting more values never removes or moves a key. */
  lemma {:induction false} KeysNeverRemoved(values: seq<Value>, more: seq<Value>, sansId: (Value, Value) -> bool)
    ensures var before := Counted(values, sansId);
      var after := Counted(values + more, sansId);
      |before| <= |after| && forall m :: 0 <= m < |before| ==> after[m].key == before[m].key
  {
    if |more| > 0 {
      var front := more[..|more| - 1];
      KeysNeverRemoved(values, front, sansId);
      assert (values + more)[..|values + more| - 1] == values + front;
      AddValueKeepsKeys(Counted(values + front, sansId), more[|more| - 1], sansId);
    } else {
      assert values + more == values;
    }
  }

  lemma TotalAppend(entries: seq<Entry>, e: Entry)
    ensures Total(entries + [e]) == Total(entries) + e.count
  {
    assert (entries + [e])[..|entries|] == entries;
  }

  /** Changing one count changes the total by the difference. */
  lemma {:induction false} TotalUpdate(entries: seq<Entry>, k: nat, e: Entry)
    requires k < |entries|
    ensures Total(entries[k := e]) == Total(entries) - entries[k].count + e.count
  {
    var n := |entries| - 1;
    if k < n {
      TotalUpdate(entries[..n], k, e);
      assert entries[k := e][..n] == entries[..n][k := e];
    } else {
      assert entries[k := e][..n] == entries[..n];
    }
  }

  /** With objects equal to themselves, counting a value adds exactly one to the total. */
  lemma AddValueTotal(entries: seq<Entry>, newValue: Value, sansId: (Value, Value) -> bool)
    requires ReflexiveOnObjects(sansId)
    ensures Total(AddValue(entries, newValue, sansId)) == Total(entries) + 1
  {
    if newValue.Obj? {
      match FirstMatch(entries, newValue, sansId)
      case Some(k) =>
        TotalUpdate(entries, k, Entry(entries[k].key, entries[k].count + 1));
      case None =>
        assert sansId(newValue, newValue);
        assert IndexOfKey(entries, newValue).None?;
        TotalAppend(entries, Entry(newValue, 1));
    } else if IndexOfKey(entries, newValue).Some? {
      TotalUpdate(entries, IndexOfKey(entries, newValue).value, Entry(newValue, CountOf(entries, newValue) + 1));
    } else {
      TotalAppend(entries, Entry(newValue, 1));
    }
  }

  /**
   * Conservation: when every object equals itself ids ignored, the counts
   * add up to the number of values processed.
   */
  lemma {:induction false} CountsAddUpToValues(values: seq<Value>, sansId: (Value, Value) -> bool)
    requires ReflexiveOnObjects(sansId)
    ensures Total(Counted(values, sansId)) == |values|
  {
    if |values| > 0 {
      CountsAddUpToValues(values[..|values| - 1], sansId);
      AddValueTotal(Counted(values[..|values| - 1], sansId), values[|values| - 1], sansId);
    }
  }

  /** Conservation over rows: the counts add up to the number of values across all rows. */
  lemma RowCountsAddUp(rows: seq<Option<seq<Value>>>, sansId: (Value, Value) -> bool)
    requires ReflexiveOnObjects(sansId)
    ensures Total(FacetedUniqueValues(Some(rows), sansId)) == |FlatValues(rows)|
  {
    CountsAddUpToValues(FlatValues(rows), sansId);
  }

  /** Lists with the same keys in the same places find every key in the same place. */
  lemma {:induction false} IndexOfKeySameKeys(e1: seq<Entry>, e2: seq<Entry>, w: Value)
    requires |e1| == |e2| && forall m :: 0 <= m < |e1| ==> e1[m].key == e2[m].key
    ensures IndexOfKey(e1, w) == IndexOfKey(e2, w)
  {
    if |e1| > 0 {
      IndexOfKeySameKeys(e1[..|e1| - 1], e2[..|e2| - 1], w);
    }
  }

  /** Changing the count at position `k` changes only the count stored for that key. */
  lemma CountOfUpdateAt(entries: seq<Entry>, k: nat, c: int, w: Value)
    requires UniqueKeys(entries) && k < |entries|
    ensures CountOf(entries[k := Entry(entries[k].key, c)], w) == if w == entries[k].key then c else CountOf(entries, w)
  {
    IndexOfKeySameKeys(entries[k := Entry(entries[k].key, c)], entries, w);
  }

  /** Appending a new key changes only the count stored for it. */
  lemma CountOfAppend(entries: seq<Entry>, key: Value, c: int, w: Value)
    requires IndexOfKey(entries, key).None?
    ensures CountOf(entries + [Entry(key, c)], w) == if w == key then c else CountOf(entries, w)
  {
    assert (entries + [Entry(key, c)])[..|entries|] == entries;
  }

  /** Counting a value changes a primitive's count only when the value is that primitive, and then by one. */
  lemma AddValuePrimitiveCount(entries: seq<Entry>, newValue: Value, s: string, sansId: (Value, Value) -> bool)
    requires UniqueKeys(entries) && PrimitivesNeverMatchObjects(sansId)
    ensures CountOf(AddValue(entries, newValue, sansId), Prim(s))
         == CountOf(entries, Prim(s)) + (if newValue == Prim(s) then 1 else 0)
  {
    if newValue.Obj? {
      match FirstMatch(entries, newValue, sansId)
      case Some(k) =>
        assert !entries[k].key.Prim?;
        CountOfUpdateAt(entries, k, entries[k].count + 1, Prim(s));
      case None =>
        match IndexOfKey(entries, newValue)
        case Some(m) =>
          CountOfUpdateAt(entries, m, 1, Prim(s));
        case None =>
          CountOfAppend(entries, newValue, 1, Prim(s));
    } else {
      match IndexOfKey(entries, newValue)
      case Some(m) =>
        CountOfUpdateAt(entries, m, CountOf(entries, newValue) + 1, Prim(s));
      case None =>
        CountOfAppend(entries, newValue, 1, Prim(s));
    }
  }

  /**
   * When no primitive key ever matches an object, the count stored for a
   * primitive is its number of occurrences (0 meaning it is not stored).
   */
  lemma {:induction false} PrimitiveCountIsOccurrences(values: seq<Value>, s: string, sansId: (Value, Value) -> bool)
    requires PrimitivesNeverMatchObjects(sansId)
    ensures CountOf(Counted(values, sansId), Prim(s)) == Occurrences(values, Prim(s))
  {
    if |values| > 0 {
      var front := values[..|values| - 1];
      PrimitiveCountIsOccurrences(front, s, sansId);
      CountedWellFormed(front, sansId);
      AddValuePrimitiveCount(Counted(front, sansId), values[|values| - 1], s, sansId);
    }
  }

  /** An object equal, ids ignored, to a stored key is counted under the first such key, and no key is added. */
  lemma ObjectCountedUnderFirstMatch(entries: seq<Entry>, newValue: Value, k: nat, sansId: (Value, Value) -> bool)
    requires newValue.Obj? && k < |entries| && sansId(entries[k].key, newValue)
    requires forall m :: 0 <= m < k ==> !sansId(entries[m].key, newValue)
    ensures var r := AddValue(entries, newValue, sansId);
      |r| == |entries| && r[k] == entries[k].(count := entries[k].count + 1)
      && forall m :: 0 <= m < |entries| && m != k ==> r[m] == entries[m]
  {
    assert FirstMatch(entries, newValue, sansId) == Some(k);
  }

  /** An object that matches no stored key, ids ignored, is stored at the end with count 1. */
  lemma UnmatchedObjectAppended(entries: seq<Entry>, newValue: Value, sansId: (Value, Value) -> bool)
    requires ReflexiveOnObjects(sansId) && newValue.Obj?
    requires forall m :: 0 <= m < |entries| ==> !sansId(entries[m].key, newValue)
    ensures AddValue(entries, newValue, sansId) == entries + [Entry(newValue, 1)]
  {
    assert sansId(newValue, newValue);
  }
}
