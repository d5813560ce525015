/**
 * The pricing engine: the price of a package on each of its routes (from
 * the route's fee split and the package's weight or volumetric weight), the
 * package's total shipping price, and each item's share of every route's
 * price by weight or by volume, its total shipping price and its total
 * price with its cost.
 *
 * A package's routes are priced in place, so `Package` is a class whose
 * `routes` the methods reassign; the other fields are never changed here.
 * `now` stands for `new Date()`.
 */
module Pricing {
  import opened Wrappers
  import opened Domain
  import opened GenericHelpers
  import opened Sums

  /** The route's volumetric divisor is present and not zero. */
  predicate HasDivisor(route: PackageRoute) {
    route.volumetricDivisor.Some? && route.volumetricDivisor.value != 0.0
  }

  /** The route has a price, or one can be computed: it is charged by actual weight, or has a divisor. */
  predicate CanPrice(route: PackageRoute) {
    route.price.Some? || route.evaluationType == Actual || HasDivisor(route)
  }

  /** Every route has a price. */
  predicate AllPriced(routes: seq<PackageRoute>) {
    forall i :: 0 <= i < |routes| ==> routes[i].price.Some?
  }

  /** The weight the route charges for, in kilograms: the package's weight (in grams) or its volumetric weight. */
  function ChargeableKg(route: PackageRoute, weight: real, dimensions: Dimensions): real
    requires route.evaluationType == Actual || HasDivisor(route)
  {
    if route.evaluationType == Actual then weight / 1000.0
    else GetVolumetricWeight(dimensions, route.volumetricDivisor.value)
  }

  /** The first-weight cost, plus `excessKg` times the continued-weight cost, plus the fee, in both amounts; the rest is the first-weight cost's. */
  function TieredPrice(feeSplit: FeeSplit<Price>, excessKg: real, now: Timestamp): Price {
    feeSplit.firstWeightCost.(
      timeStamp := now,
      paidAmount := feeSplit.firstWeightCost.paidAmount + excessKg * feeSplit.continuedWeightCost.paidAmount
                    + feeSplit.miscFee.paidAmount,
      convertedAmount := feeSplit.firstWeightCost.convertedAmount + excessKg * feeSplit.continuedWeightCost.convertedAmount
                         + feeSplit.miscFee.convertedAmount)
  }

  /** The route as `calculatePackageRoutePrice` leaves it: a set price is kept, otherwise the tiered price for the weight over one kilogram. */
  function PricedRoute(route: PackageRoute, weight: real, dimensions: Dimensions, now: Timestamp): (r: PackageRoute)
    requires CanPrice(route)
    ensures r.price.Some?
    ensures route.price.Some? ==> r == route
    ensures r == route.(price := r.price)
  {
    if route.price.Some? then route
    else route.(price := Some(TieredPrice(route.feeSplit, ChargeableKg(route, weight, dimensions) - 1.0, now)))
  }

  /** Every route priced. */
  function PriceAll(routes: seq<PackageRoute>, weight: real, dimensions: Dimensions, now: Timestamp): (r: seq<PackageRoute>)
    requires forall i :: 0 <= i < |routes| ==> CanPrice(routes[i])
    ensures |r| == |routes| && AllPriced(r)
    ensures forall i :: 0 <= i < |routes| ==> r[i] == PricedRoute(routes[i], weight, dimensions, now)
  {
    seq(|routes|, i requires 0 <= i < |routes| => PricedRoute(routes[i], weight, dimensions, now))
  }

  /** The converted amount of each priced route. */
  function RouteAmounts(routes: seq<PackageRoute>): (amounts: seq<real>)
    requires AllPriced(routes)
    ensures |amounts| == |routes| && forall i :: 0 <= i < |routes| ==> amounts[i] == routes[i].price.value.convertedAmount
  {
    seq(|routes|, i requires 0 <= i < |routes| => routes[i].price.value.convertedAmount)
  }

  /** The converted total of a priced prefix grows by the next route's converted amount. */
  lemma RouteAmountsStep(routes: seq<PackageRoute>, i: nat)
    requires i < |routes| && AllPriced(routes[..i]) && routes[i].price.Some?
    ensures AllPriced(routes[..i + 1])
    ensures Sum(RouteAmounts(routes[..i + 1])) == Sum(RouteAmounts(routes[..i])) + routes[i].price.value.convertedAmount
  {
    assert routes[..i + 1] == routes[..i] + [routes[i]];
    assert RouteAmounts(routes[..i + 1]) == RouteAmounts(routes[..i]) + [routes[i].price.value.convertedAmount];
    SumSnoc(RouteAmounts(routes[..i]), routes[i].price.value.convertedAmount);
  }

  /** What `calculatePackageShippingPrice` returns: the sum of the priced routes' converted amounts, in the first route's converted currency. */
  function PackageShippingPrice(routes: seq<PackageRoute>, weight: real, dimensions: Dimensions, now: Timestamp): (total: LocalPrice)
    requires |routes| > 0 && forall i :: 0 <= i < |routes| ==> CanPrice(routes[i])
  {
    var priced := PriceAll(routes, weight, dimensions, now);
    LocalPrice(priced[0].price.value.convertedCurrency, Sum(RouteAmounts(priced)), now)
  }

  /** The package's weights in kilograms, item by item. */
  function KgOf(items: seq<Item>): (kg: seq<real>)
    ensures |kg| == |items| && forall j :: 0 <= j < |items| ==> kg[j] == items[j].weight / 1000.0
  {
    seq(|items|, j requires 0 <= j < |items| => items[j].weight / 1000.0)
  }

  /** The package's volumes, item by item. */
  function VolumesOf(items: seq<Item>): (v: seq<real>)
    ensures |v| == |items| && forall j :: 0 <= j < |items| ==> v[j] == GetVolume(items[j].dimensions)
  {
    seq(|items|, j requires 0 <= j < |items| => GetVolume(items[j].dimensions))
  }

  /** The total the route's ratio divides by is not zero. */
  predicate RatioDefined(route: PackageRoute, items: seq<Item>) {
    if route.evaluationType == Actual then Sum(KgOf(items)) != 0.0 else Sum(VolumesOf(items)) != 0.0
  }

  /** The item's weight share (Actual routes) or volume share (Volumetric routes) among the package's items. */
  function ShareRatio(route: PackageRoute, item: Item, items: seq<Item>): real
    requires RatioDefined(route, items)
  {
    if route.evaluationType == Actual then item.weight / 1000.0 / Sum(KgOf(items))
    else GetVolume(item.dimensions) / Sum(VolumesOf(items))
  }

  /** The item's share of a priced route: the route's price with both amounts scaled by the ratio. */
  function ItemShare(route: PackageRoute, item: Item, items: seq<Item>): ItemRoute
    requires route.price.Some? && RatioDefined(route, items)
  {
    var ratio := ShareRatio(route, item, items);
    var p := route.price.value;
    ItemRoute(route.id, p.(paidAmount := ratio * p.paidAmount, convertedAmount := ratio * p.convertedAmount))
  }

  /** Every route's price can be shared among the items. */
  predicate AllRatiosDefined(routes: seq<PackageRoute>, items: seq<Item>) {
    forall i :: 0 <= i < |routes| ==> RatioDefined(routes[i], items)
  }

  /** The item's share of each priced route, route by route. */
  function ItemShares(routes: seq<PackageRoute>, item: Item, items: seq<Item>): (shares: seq<ItemRoute>)
    requires AllPriced(routes) && AllRatiosDefined(routes, items)
    ensures |shares| == |routes|
    ensures forall i :: 0 <= i < |routes| ==> shares[i] == ItemShare(routes[i], item, items)
  {
    seq(|routes|, i requires 0 <= i < |routes| => ItemShare(routes[i], item, items))
  }

  /** The converted amount of each item route. */
  function ItemAmounts(routes: seq<ItemRoute>): (amounts: seq<real>)
    ensures |amounts| == |routes| && forall i :: 0 <= i < |routes| ==> amounts[i] == routes[i].price.convertedAmount
  {
    seq(|routes|, i requires 0 <= i < |routes| => routes[i].price.convertedAmount)
  }

  /** `calculateItemShippingPrice(routes)`: the sum of the converted amounts, in the first route's converted currency. */
  function CalculateItemShippingPrice(routes: seq<ItemRoute>, now: Timestamp): (total: LocalPrice)
    requires |routes| > 0
    ensures total.paidCurrency == routes[0].price.convertedCurrency && total.timeStamp == now
  {
    LocalPrice(routes[0].price.convertedCurrency, Sum(ItemAmounts(routes)), now)
  }

  /** `calculateItemTotalPrice(item, shippingPrice)`: the item's converted cost plus its shipping, in the cost's converted currency. */
  function CalculateItemTotalPrice(item: Item, shippingPrice: LocalPrice, now: Timestamp): (total: LocalPrice)
    ensures total.paidCurrency == item.cost.convertedCurrency && total.timeStamp == now
    ensures total.paidAmount - shippingPrice.paidAmount == item.cost.convertedAmount
  {
    LocalPrice(item.cost.convertedCurrency, item.cost.convertedAmount + shippingPrice.paidAmount, now)
  }

  class Package {
    const id: string
    const name: string
    const dimensions: Dimensions
    /** In grams. */
    const weight: real
    const itemCurrency: Currency
    var routes: seq<PackageRoute>
    const timeStamp: Timestamp
    const link: string
    const items: seq<Item>

    constructor (id: string, name: string, dimensions: Dimensions, weight: real, itemCurrency: Currency,
                 routes: seq<PackageRoute>, timeStamp: Timestamp, link: string, items: seq<Item>)
      ensures this.id == id && this.name == name && this.dimensions == dimensions && this.weight == weight
      ensures this.itemCurrency == itemCurrency && this.routes == routes && this.timeStamp == timeStamp
      ensures this.link == link && this.items == items
    {
      this.id := id;
      this.name := name;
      this.dimensions := dimensions;
      this.weight := weight;
      this.itemCurrency := itemCurrency;
      this.routes := routes;
      this.timeStamp := timeStamp;
      this.link := link;
      this.items := items;
    }

    /** `calculatePackageRoutePrice(pkg, routeIndex)`: returns the route's price, computing and storing it first if it has none. */
    method CalculatePackageRoutePrice(routeIndex: nat, now: Timestamp) returns (price: Price)
      requires routeIndex < |routes| && CanPrice(routes[routeIndex])
      modifies this
      ensures routes == old(routes)[routeIndex := PricedRoute(old(routes)[routeIndex], weight, dimensions, now)]
      ensures routes[routeIndex].price == Some(price)
    {
      var route := routes[routeIndex];
      if route.price.Some? {
        assert routes == routes[routeIndex := route];
        return route.price.value;
      }
      var excessKg := (if route.evaluationType == Actual then weight / 1000.0
                       else GetVolumetricWeight(dimensions, route.volumetricDivisor.value)) - 1.0;
      assert excessKg == ChargeableKg(route, weight, dimensions) - 1.0;
      var feeSplit := route.feeSplit;
      price := TieredPrice(feeSplit, excessKg, now);
      routes := routes[routeIndex := route.(price := Some(price))];
    }

    /** `calculatePackageShippingPrice(pkg)`: prices every route and adds up their converted amounts. */
    method CalculatePackageShippingPrice(now: Timestamp) returns (total: LocalPrice)
      requires |routes| > 0 && forall i :: 0 <= i < |routes| ==> CanPrice(routes[i])
      modifies this
      ensures routes == PriceAll(old(routes), weight, dimensions, now)
      ensures total == PackageShippingPrice(old(routes), weight, dimensions, now)
    {
      var first := CalculatePackageRoutePrice(0, now);
      total := LocalPrice(first.convertedCurrency, 0.0, now);
      var i := 0;
      while i < |routes|
        invariant 0 <= i <= |routes| == |old(routes)|
        invariant forall j :: 0 <= j < i ==> routes[j] == PricedRoute(old(routes)[j], weight, dimensions, now)
        invariant forall j :: i <= j < |routes| ==>
                    routes[j] == old(routes)[j] || routes[j] == PricedRoute(old(routes)[j], weight, dimensions, now)
        invariant routes[0] == PricedRoute(old(routes)[0], weight, dimensions, now)
        invariant AllPriced(routes[..i])
        invariant total == LocalPrice(routes[0].price.value.convertedCurrency, Sum(RouteAmounts(routes[..i])), now)
      {
        var price := CalculatePackageRoutePrice(i, now);
        RouteAmountsStep(routes, i);
        total := total.(paidAmount := total.paidAmount + price.convertedAmount);
        i := i + 1;
      }
      assert routes[..i] == routes;
      assert routes == PriceAll(old(routes), weight, dimensions, now);
    }

    /**
     * `calculateItemRoutePrice(pkg, item)`: nothing when the item or the
     * package weighs nothing; otherwise every route is priced and the item
     * gets its share of each.
     */
    method CalculateItemRoutePrice(item: Item, now: Timestamp) returns (r: Option<seq<ItemRoute>>)
      requires item.weight != 0.0 && weight != 0.0 ==> forall i :: 0 <= i < |routes| ==> CanPrice(routes[i])
      requires item.weight != 0.0 && weight != 0.0 ==> AllRatiosDefined(routes, items)
      modifies this
      ensures item.weight == 0.0 || weight == 0.0 ==> r == None && routes == old(routes)
      ensures item.weight != 0.0 && weight != 0.0 ==>
        routes == PriceAll(old(routes), weight, dimensions, now) && r == Some(ItemShares(routes, item, items))
    {
      if item.weight == 0.0 || weight == 0.0 {
        return None;
      }
      var shares: seq<ItemRoute> := [];
      var i := 0;
      while i < |routes|
        invariant 0 <= i <= |routes| == |old(routes)| && |shares| == i
        invariant forall j :: 0 <= j < i ==> routes[j] == PricedRoute(old(routes)[j], weight, dimensions, now)
        invariant forall j :: i <= j < |routes| ==> routes[j] == old(routes)[j]
        invariant forall j :: 0 <= j < i ==> shares[j] == ItemShare(routes[j], item, items)
      {
        var price := CalculatePackageRoutePrice(i, now);
        shares := shares + [ItemShare(routes[i], item, items)];
        i := i + 1;
      }
      assert routes == PriceAll(old(routes), weight, dimensions, now);
      assert AllRatiosDefined(routes, items);
      assert shares == ItemShares(routes, item, items);
      return Some(shares);
    }
  }
}
