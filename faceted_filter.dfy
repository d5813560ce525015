/**
 * The faceted filter of a table column: which options are selected, how
 * many rows each option counts, which options are offered, and what
 * choosing an option does to the column's filter value.
 *
 * Values are those of `FacetedValues`; `isEqualSansId` is the parameter
 * `sansId` and the optional custom selection test is `custom`. Identity
 * (`===`) is datatype equality: a primitive is its string and an object its
 * reference.
 */
module FacetedFilter {
  import opened Wrappers
  import opened FacetedValues
  import opened FacetedValueProperties

  /** `filterValue || []`: no filter value selects nothing. */
  function SelectedValues(filterValue: Option<seq<Value>>): (r: seq<Value>)
    ensures filterValue.None? ==> r == []
    ensures filterValue.Some? ==> r == filterValue.value
  {
    filterValue.GetOr([])
  }

  /** The test a selected value passes to select the option: the custom test, else equality sans id for objects, else identity. */
  predicate Selects(custom: Option<(Value, Value) -> bool>, sansId: (Value, Value) -> bool, sv: Value, optionValue: Value)
    ensures custom.None? && optionValue.Prim? ==> (Selects(custom, sansId, sv, optionValue) <==> sv == optionValue)
    ensures custom.None? && sv.Prim? && optionValue.Obj? && PrimitivesNeverMatchObjects(sansId) ==>
      !Selects(custom, sansId, sv, optionValue)
  {
    match custom
    case Some(c) => c(sv, optionValue)
    case None => if optionValue.Obj? then sansId(sv, optionValue) else sv == optionValue
  }

  /** Whether the option is selected: some selected value passes the test, as `some` finds it. */
  predicate IsValueSelected(selected: seq<Value>, custom: Option<(Value, Value) -> bool>, sansId: (Value, Value) -> bool, optionValue: Value)
    ensures selected == [] ==> !IsValueSelected(selected, custom, sansId, optionValue)
    ensures custom.None? && optionValue.Prim? ==> (IsValueSelected(selected, custom, sansId, optionValue) <==> optionValue in selected)
    ensures custom.None? && optionValue.Obj? ==>
      (IsValueSelected(selected, custom, sansId, optionValue) <==> exists i :: 0 <= i < |selected| && sansId(selected[i], optionValue))
  {
    exists i :: 0 <= i < |selected| && Selects(custom, sansId, selected[i], optionValue)
  }

  /** `getKey`: an object option is keyed by its id, a string option by itself. */
  function GetKey(optionValue: Value): (key: string)
    ensures optionValue.Obj? ==> key == optionValue.id
    ensures optionValue.Prim? ==> key == optionValue.s
  {
    match optionValue
    case Obj(_, id) => id
    case Prim(s) => s
  }

  /** Keys tell object options apart only by id: two objects with one id share a key, and so can an object and a string. */
  lemma GetKeyCollisions(s: string, r1: nat, r2: nat)
    ensures GetKey(Obj(r1, s)) == GetKey(Obj(r2, s)) == GetKey(Prim(s))
    ensures GetKey(Obj(r1, s)) == GetKey(Obj(r2, s + "'")) ==> false
  {
  }

  /** The count the facets hold for an option, as the filter looks it up (no facets: no count). */
  function FacetCount(facets: Option<seq<Entry>>, optionValue: Value, sansId: (Value, Value) -> bool): (r: Option<int>)
    ensures facets.None? ==> r.None?
    ensures facets.Some? && optionValue.Prim? ==>
      r == (match IndexOfKey(facets.value, optionValue) case Some(m) => Some(facets.value[m].count) case None => None)
    ensures facets.Some? && optionValue.Obj? ==>
      r == (match FirstMatch(facets.value, optionValue, sansId) case Some(m) => Some(facets.value[m].count) case None => None)
  {
    match facets
    case None => None
    case Some(entries) =>
      if optionValue.Prim? then
        match IndexOfKey(entries, optionValue)
        case Some(m) => Some(entries[m].count)
        case None => None
      else
        match FirstMatch(entries, optionValue, sansId)
        case Some(m) => Some(entries[m].count)
        case None => None
  }

  /** `getCount`: a map lookup for a string option, else a scan of the facets in insertion order for the first one equal sans id. */
  method GetCount(facets: Option<seq<Entry>>, optionValue: Value, sansId: (Value, Value) -> bool) returns (r: Option<int>)
    ensures r == FacetCount(facets, optionValue, sansId)
  {
    if facets.None? {
      return None;
    }
    var entries := facets.value;
    if optionValue.Prim? {
      return match IndexOfKey(entries, optionValue) case Some(m) => Some(entries[m].count) case None => None;
    }
    var k := 0;
    while k < |entries|
      invariant 0 <= k <= |entries|
      invariant forall m :: 0 <= m < k ==> !sansId(entries[m].key, optionValue)
    {
      if sansId(entries[k].key, optionValue) {
        assert FirstMatch(entries, optionValue, sansId) == Some(k);
        return Some(entries[k].count);
      }
      k := k + 1;
    }
    return None;
  }

  /** An option is offered when its count is truthy: present and not zero. */
  predicate Offered(facets: Option<seq<Entry>>, optionValue: Value, sansId: (Value, Value) -> bool) {
    var c := FacetCount(facets, optionValue, sansId);
    c.Some? && c.value != 0
  }

  /** The selected values whose test the option does not pass, as the code as written removes them: custom test, then identity. */
  function KeepAsWritten(selected: seq<Value>, custom: Option<(Value, Value) -> bool>, optionValue: Value): (r: seq<Value>)
    ensures forall v :: v in r <==> v in selected && !(custom.Some? && custom.value(v, optionValue)) && v != optionValue
  {
    if |selected| == 0 then []
    else
      var rest := KeepAsWritten(selected[..|selected| - 1], custom, optionValue);
      var v := selected[|selected| - 1];
      assert selected == selected[..|selected| - 1] + [v];
      if !(custom.Some? && custom.value(v, optionValue)) && v != optionValue then rest + [v] else rest
  }

  /** The new filter value as written: a selected option loses its identical copies, an unselected one is appended; empty means no filter. */
  function ToggleAsWritten(filterValue: Option<seq<Value>>, custom: Option<(Value, Value) -> bool>, sansId: (Value, Value) -> bool, optionValue: Value): (r: Option<seq<Value>>)
    ensures r.Some? ==> |r.value| > 0
    ensures !IsValueSelected(SelectedValues(filterValue), custom, sansId, optionValue) ==> r == Some(SelectedValues(filterValue) + [optionValue])
    ensures IsValueSelected(SelectedValues(filterValue), custom, sansId, optionValue) ==>
      SelectedValues(r) == KeepAsWritten(SelectedValues(filterValue), custom, optionValue)
  {
    var selected := SelectedValues(filterValue);
    var next := if IsValueSelected(selected, custom, sansId, optionValue) then KeepAsWritten(selected, custom, optionValue) else selected + [optionValue];
    if |next| == 0 then None else Some(next)
  }

  /**
   * As written, an object option selected through a copy that is equal sans
   * id but not identical cannot be deselected: choosing it leaves the
   * filter value as it was.
   */
  lemma ObjectCopyNotDeselected()
    ensures var sansId := (a: Value, b: Value) => a.Obj? && b.Obj?;
      var filterValue := Some([Obj(1, "first")]);
      IsValueSelected(SelectedValues(filterValue), None, sansId, Obj(2, "second"))
      && ToggleAsWritten(filterValue, None, sansId, Obj(2, "second")) == filterValue
  {
    var sansId := (a: Value, b: Value) => a.Obj? && b.Obj?;
    assert Obj(1, "first") in [Obj(1, "first")] && Selects(None, sansId, Obj(1, "first"), Obj(2, "second"));
    assert KeepAsWritten([Obj(1, "first")], None, Obj(2, "second")) == [Obj(1, "first")] by {
      assert [Obj(1, "first")][..0] == [];
    }
  }

  /** The selected values that do not select the option, removed with the same test that selects it. */
  function Keep(selected: seq<Value>, custom: Option<(Value, Value) -> bool>, sansId: (Value, Value) -> bool, optionValue: Value): (r: seq<Value>)
    ensures forall v :: v in r <==> v in selected && !Selects(custom, sansId, v, optionValue)
  {
    if |selected| == 0 then []
    else
      var rest := Keep(selected[..|selected| - 1], custom, sansId, optionValue);
      var v := selected[|selected| - 1];
      assert selected == selected[..|selected| - 1] + [v];
      if !Selects(custom, sansId, v, optionValue) then rest + [v] else rest
  }

  /** The new filter value: a selected option loses every value that selects it, an unselected one is appended; empty means no filter. */
  function Toggle(filterValue: Option<seq<Value>>, custom: Option<(Value, Value) -> bool>, sansId: (Value, Value) -> bool, optionValue: Value): (r: Option<seq<Value>>)
    ensures r.Some? ==> |r.value| > 0
    ensures !IsValueSelected(SelectedValues(filterValue), custom, sansId, optionValue) ==> r == Some(SelectedValues(filterValue) + [optionValue])
    ensures IsValueSelected(SelectedValues(filterValue), custom, sansId, optionValue) ==>
      SelectedValues(r) == Keep(SelectedValues(filterValue), custom, sansId, optionValue)
  {
    var selected := SelectedValues(filterValue);
    var next := if IsValueSelected(selected, custom, sansId, optionValue) then Keep(selected, custom, sansId, optionValue) else selected + [optionValue];
    if |next| == 0 then None else Some(next)
  }

  /** Choosing a selected option deselects it. */
  lemma ToggleDeselects(filterValue: Option<seq<Value>>, custom: Option<(Value, Value) -> bool>, sansId: (Value, Value) -> bool, optionValue: Value)
    requires IsValueSelected(SelectedValues(filterValue), custom, sansId, optionValue)
    ensures !IsValueSelected(SelectedValues(Toggle(filterValue, custom, sansId, optionValue)), custom, sansId, optionValue)
  {
  }

  /** Choosing an unselected option that passes its own test selects it, keeping every value selected before. */
  lemma ToggleSelects(filterValue: Option<seq<Value>>, custom: Option<(Value, Value) -> bool>, sansId: (Value, Value) -> bool, optionValue: Value)
    requires !IsValueSelected(SelectedValues(filterValue), custom, sansId, optionValue)
    requires Selects(custom, sansId, optionValue, optionValue)
    ensures Toggle(filterValue, custom, sansId, optionValue) == Some(SelectedValues(filterValue) + [optionValue])
    ensures IsValueSelected(SelectedValues(Toggle(filterValue, custom, sansId, optionValue)), custom, sansId, optionValue)
  {
    var next := SelectedValues(filterValue) + [optionValue];
    assert optionValue in next;
  }

  /** Without a custom test, the two removals agree on string options: identity is the selection test there. */
  lemma ToggleAsWrittenAgreesOnStrings(filterValue: Option<seq<Value>>, sansId: (Value, Value) -> bool, optionValue: Value)
    requires optionValue.Prim?
    ensures ToggleAsWritten(filterValue, None, sansId, optionValue) == Toggle(filterValue, None, sansId, optionValue)
  {
    KeepAgreesOnStrings(SelectedValues(filterValue), sansId, optionValue);
  }

  lemma {:induction false} KeepAgreesOnStrings(selected: seq<Value>, sansId: (Value, Value) -> bool, optionValue: Value)
    requires optionValue.Prim?
    ensures KeepAsWritten(selected, None, optionValue) == Keep(selected, None, sansId, optionValue)
  {
    if |selected| > 0 {
      KeepAgreesOnStrings(selected[..|selected| - 1], sansId, optionValue);
    }
  }

  /** A single value survives exactly when it fails the test. */
  lemma KeepAsWrittenSingle(v: Value, custom: Option<(Value, Value) -> bool>, optionValue: Value)
    ensures KeepAsWritten([v], custom, optionValue) == if !(custom.Some? && custom.value(v, optionValue)) && v != optionValue then [v] else []
  {
    assert [v][..0] == [];
  }

  /** The as-written removal is a `filter`: it works value by value and keeps the survivors in their order, each as often as it occurs. */
  lemma {:induction false} KeepAsWrittenConcat(a: seq<Value>, b: seq<Value>, custom: Option<(Value, Value) -> bool>, optionValue: Value)
    ensures KeepAsWritten(a + b, custom, optionValue) == KeepAsWritten(a, custom, optionValue) + KeepAsWritten(b, custom, optionValue)
    decreases |b|
  {
    if |b| > 0 {
      var front := b[..|b| - 1];
      var last := b[|b| - 1];
      assert (a + b)[..|a + b| - 1] == a + front;
      KeepAsWrittenConcat(a, front, custom, optionValue);
    } else {
      assert a + b == a;
    }
  }

  /** A single value survives exactly when it fails the test. */
  lemma KeepSingle(v: Value, custom: Option<(Value, Value) -> bool>, sansId: (Value, Value) -> bool, optionValue: Value)
    ensures Keep([v], custom, sansId, optionValue) == if !Selects(custom, sansId, v, optionValue) then [v] else []
  {
    assert [v][..0] == [];
  }

  /** The corrected removal is a `filter` as well: value by value, survivors in order and with their multiplicity. */
  lemma {:induction false} KeepConcat(a: seq<Value>, b: seq<Value>, custom: Option<(Value, Value) -> bool>, sansId: (Value, Value) -> bool, optionValue: Value)
    ensures Keep(a + b, custom, sansId, optionValue) == Keep(a, custom, sansId, optionValue) + Keep(b, custom, sansId, optionValue)
    decreases |b|
  {
    if |b| > 0 {
      var front := b[..|b| - 1];
      assert (a + b)[..|a + b| - 1] == a + front;
      KeepConcat(a, front, custom, sansId, optionValue);
    } else {
      assert a + b == a;
    }
  }

  /**
   * When no primitive key matches an object, a string option is offered
   * exactly when its value occurs in the rows.
   */
  lemma StringOfferedIffOccurs(rows: seq<Option<seq<Value>>>, s: string, sansId: (Value, Value) -> bool)
    requires PrimitivesNeverMatchObjects(sansId)
    ensures Offered(Some(FacetedUniqueValues(Some(rows), sansId)), Prim(s), sansId) <==> Occurrences(FlatValues(rows), Prim(s)) > 0
  {
    PrimitiveCountIsOccurrences(FlatValues(rows), s, sansId);
  }
}
