/**
 * What the pricing engine promises: how a route's price follows from its
 * fee split and the package's weight, that a price once stored is kept,
 * and that items' shares of the routes add back up to the package's prices.
 */
module PricingProperties {
  import opened Wrappers
  import opened Domain
  import opened GenericHelpers
  import opened Sums
  import opened Pricing

  /** An unpriced route is priced at first cost + (chargeable kg − 1) × continued cost + fee, in both amounts, with the first cost's currencies and rate. */
  lemma TieredPriceFormula(route: PackageRoute, weight: real, dimensions: Dimensions, now: Timestamp)
    requires route.price.None? && CanPrice(route)
    ensures var p := PricedRoute(route, weight, dimensions, now).price.value;
      var f := route.feeSplit;
      var excessKg := ChargeableKg(route, weight, dimensions) - 1.0;
      p.paidAmount == f.firstWeightCost.paidAmount + excessKg * f.continuedWeightCost.paidAmount + f.miscFee.paidAmount
      && p.convertedAmount
         == f.firstWeightCost.convertedAmount + excessKg * f.continuedWeightCost.convertedAmount + f.miscFee.convertedAmount
      && p.paidCurrency == f.firstWeightCost.paidCurrency && p.convertedCurrency == f.firstWeightCost.convertedCurrency
      && p.conversionRate == f.firstWeightCost.conversionRate && p.timeStamp == now
  {
  }

  /** Once a route is priced, pricing it again, at any weight and instant, returns the same price and changes nothing. */
  lemma PricedRouteIdempotent(route: PackageRoute, weight: real, dimensions: Dimensions, now: Timestamp,
                              laterWeight: real, laterDimensions: Dimensions, later: Timestamp)
    requires CanPrice(route)
    ensures var priced := PricedRoute(route, weight, dimensions, now);
      PricedRoute(priced, laterWeight, laterDimensions, later) == priced
  {
  }

  /** The first tier is always one kilogram: the route's `firstWeightKg` has no effect on its price. */
  lemma FirstWeightKgIgnored(route: PackageRoute, firstWeightKg: real, weight: real, dimensions: Dimensions, now: Timestamp)
    requires CanPrice(route)
    ensures PricedRoute(route.(feeSplit := route.feeSplit.(firstWeightKg := firstWeightKg)), weight, dimensions, now).price
         == PricedRoute(route, weight, dimensions, now).price
  {
    var other := route.(feeSplit := route.feeSplit.(firstWeightKg := firstWeightKg));
    if route.price.None? {
      var excessKg := ChargeableKg(route, weight, dimensions) - 1.0;
      assert ChargeableKg(other, weight, dimensions) == ChargeableKg(route, weight, dimensions);
      TieredPriceOfCosts(other.feeSplit, route.feeSplit, excessKg, now);
    }
  }

  /** The tiered price depends on the three costs only. */
  lemma TieredPriceOfCosts(f: FeeSplit<Price>, g: FeeSplit<Price>, excessKg: real, now: Timestamp)
    requires f.firstWeightCost == g.firstWeightCost && f.continuedWeightCost == g.continuedWeightCost && f.miscFee == g.miscFee
    ensures TieredPrice(f, excessKg, now) == TieredPrice(g, excessKg, now)
  {
    var c := f.continuedWeightCost;
    assert excessKg * c.paidAmount == excessKg * g.continuedWeightCost.paidAmount;
    assert excessKg * c.convertedAmount == excessKg * g.continuedWeightCost.convertedAmount;
  }

  /** The excess weight is not clamped: a package under a kilogram on a route with a positive continued cost costs less than the first cost plus the fee. */
  lemma ExcessNotClamped(route: PackageRoute, weight: real, dimensions: Dimensions, now: Timestamp)
    requires route.price.None? && route.evaluationType == Actual
    requires weight < 1000.0 && route.feeSplit.continuedWeightCost.paidAmount > 0.0
    ensures PricedRoute(route, weight, dimensions, now).price.value.paidAmount
          < route.feeSplit.firstWeightCost.paidAmount + route.feeSplit.miscFee.paidAmount
  {
    var c := route.feeSplit.continuedWeightCost.paidAmount;
    var excessKg := ChargeableKg(route, weight, dimensions) - 1.0;
    TieredPriceFormula(route, weight, dimensions, now);
    assert excessKg == weight / 1000.0 - 1.0 && excessKg < 0.0;
    NegativeTimesPositive(excessKg, c);
  }

  lemma NegativeTimesPositive(a: real, b: real)
    requires a < 0.0 && b > 0.0
    ensures a * b < 0.0
  {
  }

  /** On a route charged by actual weight with a non-negative continued cost, a heavier package never costs less. */
  lemma HeavierCostsMore(route: PackageRoute, lighter: real, heavier: real, dimensions: Dimensions, now: Timestamp)
    requires route.price.None? && route.evaluationType == Actual
    requires lighter <= heavier && route.feeSplit.continuedWeightCost.paidAmount >= 0.0
    ensures PricedRoute(route, lighter, dimensions, now).price.value.paidAmount
         <= PricedRoute(route, heavier, dimensions, now).price.value.paidAmount
  {
    var c := route.feeSplit.continuedWeightCost.paidAmount;
    assert (lighter / 1000.0 - 1.0) * c <= (heavier / 1000.0 - 1.0) * c by {
      assert (heavier / 1000.0 - 1.0) * c - (lighter / 1000.0 - 1.0) * c == (heavier - lighter) / 1000.0 * c;
    }
  }

  /** A volumetric route's price depends on the package's dimensions, not on its weight. */
  lemma VolumetricIgnoresWeight(route: PackageRoute, weight: real, otherWeight: real, dimensions: Dimensions, now: Timestamp)
    requires route.evaluationType == Volumetric && CanPrice(route)
    ensures PricedRoute(route, weight, dimensions, now) == PricedRoute(route, otherWeight, dimensions, now)
  {
  }

  /** Pricing every route of an already priced list changes nothing. */
  lemma {:induction false} PriceAllIdempotent(routes: seq<PackageRoute>, weight: real, dimensions: Dimensions, now: Timestamp,
                                              later: Timestamp)
    requires forall i :: 0 <= i < |routes| ==> CanPrice(routes[i])
    ensures var priced := PriceAll(routes, weight, dimensions, now);
      PriceAll(priced, weight, dimensions, later) == priced
  {
    var priced := PriceAll(routes, weight, dimensions, now);
    forall i | 0 <= i < |routes|
      ensures PricedRoute(priced[i], weight, dimensions, later) == priced[i]
    {
      PricedRouteIdempotent(routes[i], weight, dimensions, now, weight, dimensions, later);
    }
  }

  /** Each item's share of the route's converted amount, item by item. */
  function ConvertedShares(route: PackageRoute, items: seq<Item>): (s: seq<real>)
    requires route.price.Some? && RatioDefined(route, items)
    ensures |s| == |items|
    ensures forall j :: 0 <= j < |items| ==> s[j] == ItemShare(route, items[j], items).price.convertedAmount
  {
    seq(|items|, j requires 0 <= j < |items| => ItemShare(route, items[j], items).price.convertedAmount)
  }

  /** Each item's share of the route's paid amount, item by item. */
  function PaidShares(route: PackageRoute, items: seq<Item>): (s: seq<real>)
    requires route.price.Some? && RatioDefined(route, items)
    ensures |s| == |items|
    ensures forall j :: 0 <= j < |items| ==> s[j] == ItemShare(route, items[j], items).price.paidAmount
  {
    seq(|items|, j requires 0 <= j < |items| => ItemShare(route, items[j], items).price.paidAmount)
  }

  /** What a route's ratio is taken over: the items' weights for Actual routes, their volumes otherwise. */
  function RatioBasis(route: PackageRoute, items: seq<Item>): (xs: seq<real>)
    ensures |xs| == |items|
  {
    if route.evaluationType == Actual then KgOf(items) else VolumesOf(items)
  }

  /** Each item's ratio for the route, item by item. */
  function Ratios(route: PackageRoute, items: seq<Item>): (rs: seq<real>)
    requires RatioDefined(route, items)
    ensures |rs| == |items| && forall j :: 0 <= j < |items| ==> rs[j] == ShareRatio(route, items[j], items)
  {
    seq(|items|, j requires 0 <= j < |items| => ShareRatio(route, items[j], items))
  }

  /** An item's ratio is its entry of the ratio basis over the basis's total. */
  lemma RatioIsBasisShare(route: PackageRoute, items: seq<Item>, j: nat)
    requires RatioDefined(route, items) && j < |items|
    ensures Sum(RatioBasis(route, items)) != 0.0
    ensures Ratios(route, items)[j] == RatioBasis(route, items)[j] / Sum(RatioBasis(route, items))
  {
    var xs := RatioBasis(route, items);
    if route.evaluationType == Actual {
      assert xs == KgOf(items) && xs[j] == items[j].weight / 1000.0;
    } else {
      assert xs == VolumesOf(items) && xs[j] == GetVolume(items[j].dimensions);
    }
  }

  /** The ratios of the first `n` items add up to the basis of those items over the basis's total. */
  lemma {:induction false} RatioPrefixSum(route: PackageRoute, items: seq<Item>, n: nat)
    requires RatioDefined(route, items) && n <= |items|
    ensures Sum(RatioBasis(route, items)) != 0.0
    ensures Sum(Ratios(route, items)[..n]) == Sum(RatioBasis(route, items)[..n]) / Sum(RatioBasis(route, items))
  {
    var xs := RatioBasis(route, items);
    var rs := Ratios(route, items);
    if route.evaluationType == Actual {
      assert xs == KgOf(items);
    } else {
      assert xs == VolumesOf(items);
    }
    var t := Sum(xs);
    if n == 0 {
      assert rs[..0] == [] && xs[..0] == [];
    } else {
      var m := n - 1;
      RatioPrefixSum(route, items, m);
      RatioIsBasisShare(route, items, m);
      SumPrefixStep(rs, m);
      SumPrefixStep(xs, m);
      AddOverSame(Sum(xs[..m]), xs[m], t);
    }
  }

  /** The items' ratios for a route add up to one: the route's price is shared out whole. */
  lemma {:induction false} RatiosAddUpToOne(route: PackageRoute, items: seq<Item>)
    requires RatioDefined(route, items)
    ensures Sum(Ratios(route, items)) == 1.0
  {
    var xs := RatioBasis(route, items);
    var rs := Ratios(route, items);
    RatioPrefixSum(route, items, |items|);
    assert rs[..|items|] == rs && xs[..|items|] == xs;
    OverItself(Sum(xs));
  }

  /** The items' shares of a route's converted amount add up to that amount. */
  lemma {:induction false} ConvertedSharesAddUp(route: PackageRoute, items: seq<Item>)
    requires route.price.Some? && RatioDefined(route, items)
    ensures Sum(ConvertedShares(route, items)) == route.price.value.convertedAmount
  {
    var rs := Ratios(route, items);
    var amount := route.price.value.convertedAmount;
    var shares := ConvertedShares(route, items);
    forall j | 0 <= j < |rs|
      ensures shares[j] == rs[j] * amount
    {
      assert shares[j] == ItemShare(route, items[j], items).price.convertedAmount;
    }
    RatiosAddUpToOne(route, items);
    SumScale(rs, shares, amount);
  }

  /** The items' shares of a route's paid amount add up to that amount. */
  lemma {:induction false} PaidSharesAddUp(route: PackageRoute, items: seq<Item>)
    requires route.price.Some? && RatioDefined(route, items)
    ensures Sum(PaidShares(route, items)) == route.price.value.paidAmount
  {
    var rs := Ratios(route, items);
    var amount := route.price.value.paidAmount;
    var shares := PaidShares(route, items);
    forall j | 0 <= j < |rs|
      ensures shares[j] == rs[j] * amount
    {
      assert shares[j] == ItemShare(route, items[j], items).price.paidAmount;
    }
    RatiosAddUpToOne(route, items);
    SumScale(rs, shares, amount);
  }

  /**
   * The items' shares of a route, by weight or by volume, add up to the
   * route's price, in both amounts.
   */
  lemma SharesAddUpToRoutePrice(route: PackageRoute, items: seq<Item>)
    requires route.price.Some? && RatioDefined(route, items)
    ensures Sum(ConvertedShares(route, items)) == route.price.value.convertedAmount
    ensures Sum(PaidShares(route, items)) == route.price.value.paidAmount
  {
    ConvertedSharesAddUp(route, items);
    PaidSharesAddUp(route, items);
  }

  /** Each item's shipping price (the sum of its route shares), item by item. */
  function ItemShippingAmounts(routes: seq<PackageRoute>, items: seq<Item>, now: Timestamp): (s: seq<real>)
    requires |routes| > 0 && AllPriced(routes) && AllRatiosDefined(routes, items)
    ensures |s| == |items|
    ensures forall j :: 0 <= j < |items| ==> s[j] == CalculateItemShippingPrice(ItemShares(routes, items[j], items), now).paidAmount
  {
    seq(|items|, j requires 0 <= j < |items| => CalculateItemShippingPrice(ItemShares(routes, items[j], items), now).paidAmount)
  }

  /** The grid of shares: a row per item, a column per route. */
  function ShareGrid(routes: seq<PackageRoute>, items: seq<Item>): (m: seq<seq<real>>)
    requires AllPriced(routes) && AllRatiosDefined(routes, items)
    ensures |m| == |items| && Rectangular(m, |routes|)
    ensures forall j :: 0 <= j < |items| ==> m[j] == ItemAmounts(ItemShares(routes, items[j], items))
  {
    seq(|items|, j requires 0 <= j < |items| => ItemAmounts(ItemShares(routes, items[j], items)))
  }

  /** Each column of the share grid is one route's shares, which add up to that route's converted amount. */
  lemma {:induction false} GridColumnsAreRoutePrices(routes: seq<PackageRoute>, items: seq<Item>)
    requires AllPriced(routes) && AllRatiosDefined(routes, items)
    ensures ColumnSums(ShareGrid(routes, items), |routes|) == RouteAmounts(routes)
  {
    var m := ShareGrid(routes, items);
    forall r | 0 <= r < |routes|
      ensures ColumnSums(m, |routes|)[r] == RouteAmounts(routes)[r]
    {
      assert Column(m, |routes|, r) == ConvertedShares(routes[r], items);
      SharesAddUpToRoutePrice(routes[r], items);
    }
  }

  /** A single item route's shipping total is its converted amount: the `reduce` starts from zero. */
  lemma ItemShippingOfOne(r: ItemRoute, now: Timestamp)
    ensures CalculateItemShippingPrice([r], now).paidAmount == r.price.convertedAmount
  {
    var xs := ItemAmounts([r]);
    assert xs == [] + [r.price.convertedAmount];
    SumSnoc([], r.price.convertedAmount);
  }

  /** One more item route adds its converted amount to the item's shipping total and keeps its currency: the `reduce` step. */
  lemma ItemShippingStep(routes: seq<ItemRoute>, r: ItemRoute, now: Timestamp)
    requires |routes| > 0
    ensures CalculateItemShippingPrice(routes + [r], now).paidAmount
         == CalculateItemShippingPrice(routes, now).paidAmount + r.price.convertedAmount
    ensures CalculateItemShippingPrice(routes + [r], now).paidCurrency == CalculateItemShippingPrice(routes, now).paidCurrency
  {
    assert ItemAmounts(routes + [r]) == ItemAmounts(routes) + [r.price.convertedAmount];
    SumSnoc(ItemAmounts(routes), r.price.convertedAmount);
  }

  /**
   * The items' shipping prices add up to the package's: summing every
   * item's shares over all routes gives the sum of the routes' converted
   * amounts, and every item's shipping price is in the first route's
   * converted currency, as the package's is.
   */
  lemma {:induction false} ItemShippingAddsUp(routes: seq<PackageRoute>, items: seq<Item>, now: Timestamp)
    requires |routes| > 0 && AllPriced(routes) && AllRatiosDefined(routes, items)
    ensures Sum(ItemShippingAmounts(routes, items, now)) == Sum(RouteAmounts(routes))
    ensures forall j :: 0 <= j < |items| ==>
      CalculateItemShippingPrice(ItemShares(routes, items[j], items), now).paidCurrency == routes[0].price.value.convertedCurrency
  {
    var m := ShareGrid(routes, items);
    assert ItemShippingAmounts(routes, items, now) == RowSums(m);
    SumSwap(m, |routes|);
    GridColumnsAreRoutePrices(routes, items);
  }

  /**
   * For a package whose routes are priced by `calculatePackageShippingPrice`,
   * the shipping prices `calculateItemRoutePrice` and
   * `calculateItemShippingPrice` give its items add up to the package's
   * shipping price.
   */
  lemma PackageShippingIsSharedOut(routes: seq<PackageRoute>, weight: real, dimensions: Dimensions, items: seq<Item>, now: Timestamp)
    requires |routes| > 0 && forall i :: 0 <= i < |routes| ==> CanPrice(routes[i])
    requires AllRatiosDefined(routes, items)
    ensures var priced := PriceAll(routes, weight, dimensions, now);
      AllRatiosDefined(priced, items)
      && Sum(ItemShippingAmounts(priced, items, now)) == PackageShippingPrice(routes, weight, dimensions, now).paidAmount
  {
    var priced := PriceAll(routes, weight, dimensions, now);
    assert AllRatiosDefined(priced, items);
    ItemShippingAddsUp(priced, items, now);
  }

  /** Each item's total price (its converted cost plus its shipping), item by item. */
  function ItemTotalAmounts(routes: seq<PackageRoute>, items: seq<Item>, now: Timestamp): (s: seq<real>)
    requires |routes| > 0 && AllPriced(routes) && AllRatiosDefined(routes, items)
    ensures |s| == |items|
    ensures forall j :: 0 <= j < |items| ==>
      s[j] == CalculateItemTotalPrice(items[j], CalculateItemShippingPrice(ItemShares(routes, items[j], items), now), now).paidAmount
  {
    seq(|items|, j requires 0 <= j < |items| =>
      CalculateItemTotalPrice(items[j], CalculateItemShippingPrice(ItemShares(routes, items[j], items), now), now).paidAmount)
  }

  /** The items' converted costs, item by item. */
  function CostAmounts(items: seq<Item>): (s: seq<real>)
    ensures |s| == |items| && forall j :: 0 <= j < |items| ==> s[j] == items[j].cost.convertedAmount
  {
    seq(|items|, j requires 0 <= j < |items| => items[j].cost.convertedAmount)
  }

  /** The items' total prices add up to their converted costs plus the routes' converted amounts. */
  lemma {:induction false} ItemTotalsAddUp(routes: seq<PackageRoute>, items: seq<Item>, now: Timestamp)
    requires |routes| > 0 && AllPriced(routes) && AllRatiosDefined(routes, items)
    ensures Sum(ItemTotalAmounts(routes, items, now)) == Sum(CostAmounts(items)) + Sum(RouteAmounts(routes))
  {
    SumAdd(CostAmounts(items), ItemShippingAmounts(routes, items, now), ItemTotalAmounts(routes, items, now));
    ItemShippingAddsUp(routes, items, now);
  }
}
