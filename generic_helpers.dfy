/** The generic helpers of the utility module: volumes, the sidebar lookup and keyed indexing. */
module GenericHelpers {
  import opened Wrappers
  import opened Domain

  /** `getVolume`: the product of the three dimensions. */
  function GetVolume(d: Dimensions): (v: real)
    ensures d.length >= 0.0 && d.breadth >= 0.0 && d.height >= 0.0 ==> v >= 0.0
    ensures d.length == 0.0 || d.breadth == 0.0 || d.height == 0.0 ==> v == 0.0
  {
    d.length * d.breadth * d.height
  }

  /** `getVolumetricWeight`: the volume over the divisor (a zero divisor is not guarded in the source). */
  function GetVolumetricWeight(d: Dimensions, volumetricDivisor: real): (w: real)
    requires volumetricDivisor != 0.0
    ensures w * volumetricDivisor == GetVolume(d)
  {
    GetVolume(d) / volumetricDivisor
  }

  /**
   * A navigation entry: a name, a path and nested entries. An entry without
   * `children` is modelled by an empty list: the search treats the two alike
   * (an empty list is searched and yields nothing).
   */
  datatype SidebarRoute = SidebarRoute(name: string, path: string, children: seq<SidebarRoute>)

  /**
   * The search `findSidebarRouteNameByPath` performs: entries in order, an
   * entry's own path before its children. A nested result counts only when
   * it is truthy, so a nested empty name is passed over.
   */
  function FindRouteName(routes: seq<SidebarRoute>, path: string): Option<string>
    decreases routes
  {
    if routes == [] then None
    else if routes[0].path == path then Some(routes[0].name)
    else
      var found := FindRouteName(routes[0].children, path);
      if found.Some? && found.value != "" then found else FindRouteName(routes[1..], path)
  }

  /** Every entry of the forest, each before its children (pre-order). */
  function Flatten(routes: seq<SidebarRoute>): seq<SidebarRoute>
    decreases routes
  {
    if routes == [] then []
    else
      [routes[0]]
      + Flatten(routes[0].children)
      + Flatten(routes[1..])
  }

  /** `findSidebarRouteNameByPath`: a loop over the entries with early return, recursing into children. */
  method FindSidebarRouteNameByPath(routes: seq<SidebarRoute>, path: string) returns (r: Option<string>)
    ensures r == FindRouteName(routes, path)
    decreases routes
  {
    var i := 0;
    while i < |routes|
      invariant 0 <= i <= |routes|
      invariant FindRouteName(routes, path) == FindRouteName(routes[i..], path)
    {
      var route := routes[i];
      assert routes[i..][0] == route && routes[i..][1..] == routes[i + 1..];
      if route.path == path {
        return Some(route.name);
      }
      assert route in routes;
      var found := FindSidebarRouteNameByPath(route.children, path);
      if found.Some? && found.value != "" {
        return found;
      }
      i := i + 1;
    }
    assert routes[i..] == [];
    return None;
  }

  /** A forest with no entry at `path` yields nothing. */
  lemma {:induction false} FindAbsent(routes: seq<SidebarRoute>, path: string)
    requires forall j :: 0 <= j < |Flatten(routes)| ==> Flatten(routes)[j].path != path
    ensures FindRouteName(routes, path) == None
    decreases routes
  {
    if routes != [] {
      var f := Flatten(routes);
      var kids := Flatten(routes[0].children);
      assert f == [routes[0]] + kids + Flatten(routes[1..]);
      assert f[0] == routes[0];
      forall j | 0 <= j < |kids| ensures kids[j].path != path {
        assert f[1 + j] == kids[j];
      }
      FindAbsent(routes[0].children, path);
      forall j | 0 <= j < |Flatten(routes[1..])| ensures Flatten(routes[1..])[j].path != path {
        assert f[1 + |kids| + j] == Flatten(routes[1..])[j];
      }
      FindAbsent(routes[1..], path);
    }
  }

  /** Whatever the search returns is the name of an entry with that path. */
  lemma {:induction false} FindSound(routes: seq<SidebarRoute>, path: string)
    ensures FindRouteName(routes, path).Some? ==>
      exists j :: 0 <= j < |Flatten(routes)| && Flatten(routes)[j].path == path
        && Flatten(routes)[j].name == FindRouteName(routes, path).value
    decreases routes
  {
    if routes != [] && routes[0].path != path {
      var f := Flatten(routes);
      var kids := Flatten(routes[0].children);
      var tail := Flatten(routes[1..]);
      assert f == [routes[0]] + kids + tail;
      var found := FindRouteName(routes[0].children, path);
      if found.Some? && found.value != "" {
        FindSound(routes[0].children, path);
        var j :| 0 <= j < |kids| && kids[j].path == path && kids[j].name == found.value;
        assert f[1 + j] == kids[j];
      } else {
        FindSound(routes[1..], path);
        if FindRouteName(routes[1..], path).Some? {
          var j :| 0 <= j < |tail| && tail[j].path == path && tail[j].name == FindRouteName(routes[1..], path).value;
          assert f[1 + |kids| + j] == tail[j];
        }
      }
    } else if routes != [] {
      assert Flatten(routes)[0] == routes[0];
    }
  }

  /** The first entry in pre-order with that path is found, provided its name is not empty. */
  lemma {:induction false} FindFirstMatch(routes: seq<SidebarRoute>, path: string, i: nat)
    requires i < |Flatten(routes)|
    requires Flatten(routes)[i].path == path && Flatten(routes)[i].name != ""
    requires forall j :: 0 <= j < i ==> Flatten(routes)[j].path != path
    ensures FindRouteName(routes, path) == Some(Flatten(routes)[i].name)
    decreases routes
  {
    var f := Flatten(routes);
    var kids := Flatten(routes[0].children);
    var tail := Flatten(routes[1..]);
    assert f == [routes[0]] + kids + tail;
    assert f[0] == routes[0];
    if routes[0].path != path {
      if i < 1 + |kids| {
        assert f[i] == kids[i - 1];
        forall j | 0 <= j < i - 1 ensures kids[j].path != path {
          assert f[1 + j] == kids[j];
        }
        FindFirstMatch(routes[0].children, path, i - 1);
      } else {
        forall j | 0 <= j < |kids| ensures kids[j].path != path {
          assert f[1 + j] == kids[j];
        }
        FindAbsent(routes[0].children, path);
        assert f[i] == tail[i - 1 - |kids|];
        forall j | 0 <= j < i - 1 - |kids| ensures tail[j].path != path {
          assert f[1 + |kids| + j] == tail[j];
        }
        FindFirstMatch(routes[1..], path, i - 1 - |kids|);
      }
    }
  }

  /**
   * `indexBy`: a dictionary from each element's key to the rest of that
   * element, built left to right, so a later element with the same key wins.
   */
  function IndexBy<T, K(==), R>(items: seq<T>, key: T -> K, rest: T -> R): (m: map<K, R>)
    ensures m.Keys == set i | 0 <= i < |items| :: key(items[i])
  {
    if items == [] then map[]
    else
      var last := items[|items| - 1];
      var m := IndexBy(items[..|items| - 1], key, rest);
      assert forall i :: 0 <= i < |items| - 1 ==> items[..|items| - 1][i] == items[i];
      m[key(last) := rest(last)]
  }

  /** Each key maps to the rest of the LAST element carrying that key. */
  lemma {:induction false} IndexByLastWins<T, K, R>(items: seq<T>, key: T -> K, rest: T -> R, k: K)
    requires k in IndexBy(items, key, rest)
    ensures exists i :: 0 <= i < |items| && key(items[i]) == k && IndexBy(items, key, rest)[k] == rest(items[i])
                        && (forall j :: i < j < |items| ==> key(items[j]) != k)
  {
    var n := |items|;
    var last := items[n - 1];
    var front := items[..n - 1];
    if key(last) != k {
      assert IndexBy(items, key, rest)[k] == IndexBy(front, key, rest)[k];
      IndexByLastWins(front, key, rest, k);
      var i :| 0 <= i < |front| && key(front[i]) == k && IndexBy(front, key, rest)[k] == rest(front[i])
        && forall j :: i < j < |front| ==> key(front[j]) != k;
      assert items[i] == front[i];
      assert forall j :: i < j < n - 1 ==> items[j] == front[j];
      assert key(items[i]) == k && IndexBy(items, key, rest)[k] == rest(items[i])
        && (forall j :: i < j < |items| ==> key(items[j]) != k);
    } else {
      assert IndexBy(items, key, rest)[k] == rest(items[n - 1]);
    }
  }
}
