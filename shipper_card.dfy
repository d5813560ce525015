/**
 * The edits the shipper card makes to a shipper: submitting a route from
 * the route form (replacing the route with the same id when editing,
 * appending otherwise), deleting and copying a route, and choosing the
 * default currency and the home warehouse. Each edit returns the new
 * shipper and leaves every other field as it was.
 */
module ShipperCard {
  import opened Wrappers
  import opened Domain

  /** The ids of a list of routes, in order. */
  function Ids(routes: seq<ShippingRoute>): (ids: seq<string>)
    ensures |ids| == |routes| && forall i :: 0 <= i < |routes| ==> ids[i] == routes[i].id
  {
    if |routes| == 0 then [] else Ids(routes[..|routes| - 1]) + [routes[|routes| - 1].id]
  }

  /** Every route whose id is that of `value` becomes `value`; the others stay where they are. */
  function ReplaceById(routes: seq<ShippingRoute>, value: ShippingRoute): (r: seq<ShippingRoute>)
    ensures |r| == |routes|
    ensures forall i :: 0 <= i < |routes| ==> r[i] == if routes[i].id == value.id then value else routes[i]
  {
    if |routes| == 0 then []
    else
      var last := routes[|routes| - 1];
      ReplaceById(routes[..|routes| - 1], value) + [if last.id == value.id then value else last]
  }

  /** The routes whose id is not `id`, in their order. */
  function WithoutId(routes: seq<ShippingRoute>, id: string): (r: seq<ShippingRoute>)
    ensures |r| <= |routes|
    ensures forall i :: 0 <= i < |r| ==> r[i].id != id && r[i] in routes
  {
    if |routes| == 0 then []
    else
      var rest := WithoutId(routes[..|routes| - 1], id);
      var last := routes[|routes| - 1];
      if last.id == id then rest else rest + [last]
  }

  /** Submitting the route form: in edit mode the route with the submitted id is replaced, otherwise the route is appended. */
  function SubmitRoute(shipper: Shipper, value: ShippingRoute, editMode: bool): (s: Shipper)
    ensures s.(shippingRoutes := shipper.shippingRoutes) == shipper
    ensures editMode ==> s.shippingRoutes == ReplaceById(shipper.shippingRoutes, value)
    ensures !editMode ==> s.shippingRoutes == shipper.shippingRoutes + [value]
  {
    if editMode then shipper.(shippingRoutes := ReplaceById(shipper.shippingRoutes, value))
    else shipper.(shippingRoutes := shipper.shippingRoutes + [value])
  }

  /** The delete action: every route with the id of `route` is removed. */
  function DeleteRoute(shipper: Shipper, route: ShippingRoute): (s: Shipper)
    ensures s.(shippingRoutes := shipper.shippingRoutes) == shipper
    ensures s.shippingRoutes == WithoutId(shipper.shippingRoutes, route.id)
  {
    shipper.(shippingRoutes := WithoutId(shipper.shippingRoutes, route.id))
  }

  /** The copy a route is copied to: a new id and " (Copy)" after the name, everything else kept. */
  function CopyOf(route: ShippingRoute, newId: string): (c: ShippingRoute)
    ensures c.id == newId && c.name == route.name + " (Copy)"
    ensures c.(id := route.id, name := route.name) == route
  {
    route.(id := newId, name := route.name + " (Copy)")
  }

  /** The copy action; the fresh id, a random UUID, is a parameter. */
  function CopyRoute(shipper: Shipper, route: ShippingRoute, newId: string): (s: Shipper)
    ensures s.(shippingRoutes := shipper.shippingRoutes) == shipper
    ensures s.shippingRoutes == shipper.shippingRoutes + [CopyOf(route, newId)]
  {
    shipper.(shippingRoutes := shipper.shippingRoutes + [CopyOf(route, newId)])
  }

  /** Choosing the default currency changes that and nothing else. */
  function SelectDefaultCurrency(shipper: Shipper, defaultCurrency: Currency): (s: Shipper)
    ensures s.defaultCurrency == defaultCurrency
    ensures s.(defaultCurrency := shipper.defaultCurrency) == shipper
  {
    shipper.(defaultCurrency := defaultCurrency)
  }

  /** A warehouse as the catalog lists it, under its id. */
  datatype WarehouseDetails = WarehouseDetails(name: string, countryName: string)

  /** Choosing the home warehouse from the catalog: the chosen id with the catalog's name and country. */
  function SelectBasedIn(shipper: Shipper, catalog: map<string, WarehouseDetails>, warehouseId: string): (s: Shipper)
    requires warehouseId in catalog
    ensures s.basedIn.Some? && s.basedIn.value.id == warehouseId
    ensures WarehouseDetails(s.basedIn.value.name, s.basedIn.value.countryName) == catalog[warehouseId]
    ensures s.(basedIn := shipper.basedIn) == shipper
  {
    shipper.(basedIn := Some(Warehouse(warehouseId, catalog[warehouseId].name, catalog[warehouseId].countryName)))
  }

  /** Editing keeps the list of ids exactly as it was. */
  lemma {:induction false} ReplaceKeepsIds(routes: seq<ShippingRoute>, value: ShippingRoute)
    ensures Ids(ReplaceById(routes, value)) == Ids(routes)
  {
    var r := ReplaceById(routes, value);
    assert forall i :: 0 <= i < |routes| ==> Ids(r)[i] == Ids(routes)[i];
  }

  /** After an edit, the submitted route is in the list exactly when a route with its id was. */
  lemma SubmittedEditPresent(shipper: Shipper, value: ShippingRoute)
    ensures value in SubmitRoute(shipper, value, true).shippingRoutes <==> value.id in Ids(shipper.shippingRoutes)
  {
    var routes := shipper.shippingRoutes;
    var r := SubmitRoute(shipper, value, true).shippingRoutes;
    if value.id in Ids(routes) {
      var k :| 0 <= k < |routes| && Ids(routes)[k] == value.id;
      assert r[k] == value;
    }
    if value in r {
      var k :| 0 <= k < |r| && r[k] == value;
      assert Ids(routes)[k] == value.id;
    }
  }

  /** Submitting the same edit twice is the same as submitting it once. */
  lemma SubmitEditIdempotent(shipper: Shipper, value: ShippingRoute)
    ensures SubmitRoute(SubmitRoute(shipper, value, true), value, true) == SubmitRoute(shipper, value, true)
  {
  }

  /** Deleting is idempotent, and deleting an id no route carries changes nothing. */
  lemma {:induction false} WithoutAbsentId(routes: seq<ShippingRoute>, id: string)
    requires id !in Ids(routes)
    ensures WithoutId(routes, id) == routes
  {
    if |routes| > 0 {
      var front := routes[..|routes| - 1];
      assert Ids(front) == Ids(routes)[..|routes| - 1];
      WithoutAbsentId(front, id);
      assert routes == front + [routes[|routes| - 1]];
    }
  }

  /** Deleting a route twice is the same as deleting it once. */
  lemma DeleteIdempotent(shipper: Shipper, route: ShippingRoute)
    ensures DeleteRoute(DeleteRoute(shipper, route), route) == DeleteRoute(shipper, route)
  {
    WithoutAbsentId(WithoutId(shipper.shippingRoutes, route.id), route.id);
  }

  /** Deleting keeps every route with another id. */
  lemma {:induction false} WithoutKeepsOthers(routes: seq<ShippingRoute>, id: string, x: ShippingRoute)
    requires x in routes && x.id != id
    ensures x in WithoutId(routes, id)
  {
    var front := routes[..|routes| - 1];
    if x != routes[|routes| - 1] {
      assert routes == front + [routes[|routes| - 1]];
      WithoutKeepsOthers(front, id, x);
    }
  }

  /** A single route is kept exactly when its id is not the deleted one. */
  lemma WithoutIdSingle(x: ShippingRoute, id: string)
    ensures WithoutId([x], id) == if x.id == id then [] else [x]
  {
    assert [x][..0] == [];
  }

  /** Deleting works route by route: the remaining routes keep their relative order. */
  lemma {:induction false} WithoutIdConcat(a: seq<ShippingRoute>, b: seq<ShippingRoute>, id: string)
    ensures WithoutId(a + b, id) == WithoutId(a, id) + WithoutId(b, id)
    decreases |b|
  {
    if |b| > 0 {
      var front := b[..|b| - 1];
      assert (a + b)[..|a + b| - 1] == a + front;
      WithoutIdConcat(a, front, id);
    } else {
      assert a + b == a;
    }
  }

  /** Deleting a route appended under a fresh id gives back the routes as they were. */
  lemma {:induction false} WithoutAppendedFresh(routes: seq<ShippingRoute>, x: ShippingRoute)
    requires x.id !in Ids(routes)
    ensures WithoutId(routes + [x], x.id) == routes
  {
    assert (routes + [x])[..|routes|] == routes;
    WithoutAbsentId(routes, x.id);
  }

  /** Adding a route under a fresh id and deleting it again restores the shipper. */
  lemma AddThenDelete(shipper: Shipper, value: ShippingRoute)
    requires value.id !in Ids(shipper.shippingRoutes)
    ensures DeleteRoute(SubmitRoute(shipper, value, false), value) == shipper
  {
    WithoutAppendedFresh(shipper.shippingRoutes, value);
  }

  /** Copying a route under a fresh id and deleting the copy restores the shipper. */
  lemma CopyThenDelete(shipper: Shipper, route: ShippingRoute, newId: string)
    requires newId !in Ids(shipper.shippingRoutes)
    ensures DeleteRoute(CopyRoute(shipper, route, newId), CopyOf(route, newId)) == shipper
  {
    WithoutAppendedFresh(shipper.shippingRoutes, CopyOf(route, newId));
  }

  /** A copy under a fresh id does not take the place of the original: the original keeps its id and its place. */
  lemma CopyKeepsOriginal(shipper: Shipper, route: ShippingRoute, newId: string)
    requires route in shipper.shippingRoutes
    ensures route in CopyRoute(shipper, route, newId).shippingRoutes
    ensures |CopyRoute(shipper, route, newId).shippingRoutes| == |shipper.shippingRoutes| + 1
  {
    var rs := shipper.shippingRoutes;
    var k :| 0 <= k < |rs| && rs[k] == route;
    assert CopyRoute(shipper, route, newId).shippingRoutes[k] == route;
  }
}
