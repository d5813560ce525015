/**
 * The faceted unique values of a table column (`getFacetedUniqueValues`):
 * every value of every row counted in an insertion-ordered map. Primitive
 * values are counted under themselves; an object value is counted under
 * the first stored key it equals when ids are ignored, and otherwise under
 * itself.
 *
 * `isEqualSansId` belongs to code that is not part of this model, so it is
 * a parameter: any relation on values, called with the stored key first.
 */
module FacetedValues {
  import opened Wrappers

  /** A cell value: a string, or an object, identified by its reference and carrying its id. */
  datatype Value = Prim(s: string) | Obj(ref: nat, id: string)

  /** One entry of the `Map`, in insertion order. */
  datatype Entry = Entry(key: Value, count: int)

  /** Where `key` is stored, if it is. */
  function IndexOfKey(entries: seq<Entry>, key: Value): (r: Option<nat>)
    ensures r.Some? ==> r.value < |entries| && entries[r.value].key == key
    ensures r.None? ==> forall m :: 0 <= m < |entries| ==> entries[m].key != key
  {
    if |entries| == 0 then None
    else match IndexOfKey(entries[..|entries| - 1], key)
      case Some(m) => Some(m)
      case None => if entries[|entries| - 1].key == key then Some(|entries| - 1) else None
  }

  /** `map.get(key) ?? 0`. */
  function CountOf(entries: seq<Entry>, key: Value): int {
    match IndexOfKey(entries, key)
    case Some(m) => entries[m].count
    case None => 0
  }

  /** `map.set(key, count)`: the entry is updated where it stands, or appended. */
  function SetCount(entries: seq<Entry>, key: Value, count: int): (r: seq<Entry>)
    ensures IndexOfKey(entries, key).Some? ==> |r| == |entries|
    ensures IndexOfKey(entries, key).None? ==> r == entries + [Entry(key, count)]
  {
    match IndexOfKey(entries, key)
    case Some(m) => entries[m := Entry(key, count)]
    case None => entries + [Entry(key, count)]
  }

  /** The first stored key, in insertion order, that `newValue` equals when ids are ignored. */
  function FirstMatch(entries: seq<Entry>, newValue: Value, sansId: (Value, Value) -> bool): (r: Option<nat>)
    ensures r.Some? ==> r.value < |entries| && sansId(entries[r.value].key, newValue)
    ensures r.Some? ==> forall m :: 0 <= m < r.value ==> !sansId(entries[m].key, newValue)
    ensures r.None? ==> forall m :: 0 <= m < |entries| ==> !sansId(entries[m].key, newValue)
  {
    if |entries| == 0 then None
    else match FirstMatch(entries[..|entries| - 1], newValue, sansId)
      case Some(m) => Some(m)
      case None => if sansId(entries[|entries| - 1].key, newValue) then Some(|entries| - 1) else None
  }

  /** Counting one more value. */
  function AddValue(entries: seq<Entry>, newValue: Value, sansId: (Value, Value) -> bool): seq<Entry> {
    if newValue.Obj? then
      match FirstMatch(entries, newValue, sansId)
      case Some(k) => entries[k := Entry(entries[k].key, entries[k].count + 1)]
      case None => SetCount(entries, newValue, 1)
    else if IndexOfKey(entries, newValue).Some? then SetCount(entries, newValue, CountOf(entries, newValue) + 1)
    else SetCount(entries, newValue, 1)
  }

  /** The map after counting `values` in order, starting from an empty map. */
  function Counted(values: seq<Value>, sansId: (Value, Value) -> bool): seq<Entry> {
    if |values| == 0 then [] else AddValue(Counted(values[..|values| - 1], sansId), values[|values| - 1], sansId)
  }

  /** A row's unique values; a row without values contributes none. */
  function ValuesOf(row: Option<seq<Value>>): seq<Value> {
    match row
    case None => []
    case Some(vs) => vs
  }

  /** All the rows' values, row after row. */
  function FlatValues(rows: seq<Option<seq<Value>>>): seq<Value> {
    if |rows| == 0 then [] else FlatValues(rows[..|rows| - 1]) + ValuesOf(rows[|rows| - 1])
  }

  /** What the memoised function returns: empty without a faceted row model, else every row's values counted. */
  function FacetedUniqueValues(rowModel: Option<seq<Option<seq<Value>>>>, sansId: (Value, Value) -> bool): seq<Entry> {
    match rowModel
    case None => []
    case Some(rows) => Counted(FlatValues(rows), sansId)
  }

  lemma CountedStep(before: seq<Value>, values: seq<Value>, j: nat, sansId: (Value, Value) -> bool)
    requires j < |values|
    ensures Counted(before + values[..j + 1], sansId) == AddValue(Counted(before + values[..j], sansId), values[j], sansId)
  {
    assert (before + values[..j + 1])[..|before + values[..j]|] == before + values[..j];
  }

  lemma FlatStep(rows: seq<Option<seq<Value>>>, i: nat)
    requires i < |rows|
    ensures FlatValues(rows[..i + 1]) == FlatValues(rows[..i]) + ValuesOf(rows[i])
  {
    assert rows[..i + 1][..i] == rows[..i];
  }

  /**
   * One pass of the inner loop's body: an object is matched against the
   * stored keys in insertion order and the first match counted, else stored
   * with count 1; a primitive is counted under itself.
   */
  method CountValue(facetedUniqueValues: seq<Entry>, newValue: Value, sansId: (Value, Value) -> bool)
    returns (updated: seq<Entry>)
    ensures updated == AddValue(facetedUniqueValues, newValue, sansId)
  {
    updated := facetedUniqueValues;
    var foundMatch := false;
    if newValue.Obj? {
      var k := 0;
      while k < |updated|
        invariant 0 <= k <= |updated| && updated == facetedUniqueValues
        invariant forall m :: 0 <= m < k ==> !sansId(updated[m].key, newValue)
      {
        if sansId(updated[k].key, newValue) {
          assert FirstMatch(facetedUniqueValues, newValue, sansId) == Some(k);
          updated := updated[k := Entry(updated[k].key, updated[k].count + 1)];
          foundMatch := true;
          break;
        }
        k := k + 1;
      }
      if !foundMatch {
        updated := SetCount(updated, newValue, 1);
      }
    } else {
      if IndexOfKey(updated, newValue).Some? {
        updated := SetCount(updated, newValue, CountOf(updated, newValue) + 1);
      } else {
        updated := SetCount(updated, newValue, 1);
      }
    }
  }

  /** The counting loop, as the memoised function runs it. */
  method GetFacetedUniqueValues(rowModel: Option<seq<Option<seq<Value>>>>, sansId: (Value, Value) -> bool)
    returns (facetedUniqueValues: seq<Entry>)
    ensures facetedUniqueValues == FacetedUniqueValues(rowModel, sansId)
  {
    if rowModel.None? {
      return [];
    }
    var rows := rowModel.value;
    facetedUniqueValues := [];
    var i := 0;
    while i < |rows|
      invariant 0 <= i <= |rows|
      invariant facetedUniqueValues == Counted(FlatValues(rows[..i]), sansId)
    {
      var values := ValuesOf(rows[i]);
      ghost var before := FlatValues(rows[..i]);
      var j := 0;
      assert before + values[..0] == before;
      while j < |values|
        invariant 0 <= j <= |values|
        invariant facetedUniqueValues == Counted(before + values[..j], sansId)
      {
        facetedUniqueValues := CountValue(facetedUniqueValues, values[j], sansId);
        CountedStep(before, values, j, sansId);
        j := j + 1;
      }
      assert values[..j] == values;
      FlatStep(rows, i);
      i := i + 1;
    }
    assert rows[..i] == rows;
  }
}
