/**
 * The filter and sort functions of the shipping-route table's columns: a
 * route filter on its warehouses, an evaluation-type filter and
 * comparator, and comparators on the volumetric divisor, the fee split and
 * the price.
 *
 * A comparator returns a negative number, zero or a positive number as
 * its first row sorts before, with or after its second row.
 */
module RouteColumns {
  import opened Wrappers
  import opened Domain

  /** The route filter: some end of the route is named, by warehouse or by country, among the filter values. */
  predicate RouteFilter(route: ShippingRoute, value: seq<string>) {
    route.originWarehouse.countryName in value
    || route.originWarehouse.name in value
    || route.destinationWarehouse.countryName in value
    || route.destinationWarehouse.name in value
  }

  /** A warehouse is named, by itself or by its country, among the filter values. */
  predicate Mentioned(w: Warehouse, value: seq<string>) {
    w.name in value || w.countryName in value
  }

  /** The route filter keeps a route exactly when one of its two warehouses is mentioned. */
  lemma RouteFilterByEndpoint(route: ShippingRoute, value: seq<string>)
    ensures RouteFilter(route, value) <==> Mentioned(route.originWarehouse, value) || Mentioned(route.destinationWarehouse, value)
  {
  }

  /** The route filter does not care which way the route runs. */
  lemma RouteFilterIgnoresDirection(route: ShippingRoute, value: seq<string>)
    ensures RouteFilter(route, value)
        <==> RouteFilter(route.(originWarehouse := route.destinationWarehouse, destinationWarehouse := route.originWarehouse), value)
  {
  }

  /** Adding filter values never hides a route that was shown. */
  lemma {:induction false} RouteFilterWidens(route: ShippingRoute, value: seq<string>, more: seq<string>)
    requires RouteFilter(route, value)
    ensures RouteFilter(route, value + more)
  {
    var w := value + more;
    assert forall x :: x in value ==> x in w by {
      forall x | x in value
        ensures x in w
      {
        var k :| 0 <= k < |value| && value[k] == x;
        assert w[k] == x;
      }
    }
  }

  /** The evaluation-type filter: the route's type is among the filter values. */
  predicate EvaluationTypeFilter(route: ShippingRoute, value: seq<EvaluationType>) {
    route.evaluationType in value
  }

  /** The routes a filter keeps, in their order. */
  function FilterRoutes(routes: seq<ShippingRoute>, value: seq<EvaluationType>): (kept: seq<ShippingRoute>)
    ensures forall r :: r in kept <==> r in routes && r.evaluationType in value
  {
    if |routes| == 0 then []
    else
      var rest := FilterRoutes(routes[..|routes| - 1], value);
      var last := routes[|routes| - 1];
      assert forall r :: r in routes <==> r in routes[..|routes| - 1] || r == last by {
        assert routes == routes[..|routes| - 1] + [last];
      }
      if EvaluationTypeFilter(last, value) then rest + [last] else rest
  }

  /** Filtering on one evaluation type keeps exactly the routes of that type. */
  lemma OneTypeFilter(routes: seq<ShippingRoute>, t: EvaluationType)
    ensures forall r :: r in FilterRoutes(routes, [t]) <==> r in routes && r.evaluationType == t
  {
  }

  /**
   * The evaluation-type comparator as written: 0 for equal types, 0 when
   * the first is Volumetric, 1 otherwise.
   */
  function EvaluationTypeOrderAsWritten(a: EvaluationType, b: EvaluationType): (r: int)
    ensures r >= 0
    ensures r == 1 <==> a == Actual && b == Volumetric
  {
    match (a, b)
    case (Actual, Volumetric) => 1
    case _ => 0
  }

  /** As written, the comparator is not antisymmetric: Volumetric ties with Actual, but Actual sorts after Volumetric. */
  lemma EvaluationTypeOrderNotAntisymmetric()
    ensures EvaluationTypeOrderAsWritten(Volumetric, Actual) == 0
    ensures EvaluationTypeOrderAsWritten(Actual, Volumetric) == 1
  {
  }

  /** The comparator its shape intends: Volumetric routes before Actual ones. */
  function EvaluationTypeOrder(a: EvaluationType, b: EvaluationType): (r: int)
    ensures r == 0 <==> a == b
    ensures r < 0 <==> a == Volumetric && b == Actual
  {
    match (a, b)
    case (Volumetric, Actual) => -1
    case (Actual, Volumetric) => 1
    case _ => 0
  }

  /** The intended comparator is antisymmetric and agrees with the written one wherever the written one says "after". */
  lemma EvaluationTypeOrderAntisymmetric(a: EvaluationType, b: EvaluationType)
    ensures EvaluationTypeOrder(a, b) == -EvaluationTypeOrder(b, a)
    ensures EvaluationTypeOrderAsWritten(a, b) > 0 ==> EvaluationTypeOrder(a, b) > 0
  {
  }

  /** The volumetric-divisor comparator `A − B`; `None` stands for the NaN an absent divisor gives. */
  function VolumetricDivisorOrder(a: Option<real>, b: Option<real>): (r: Option<real>)
    ensures r.Some? <==> a.Some? && b.Some?
  {
    if a.Some? && b.Some? then Some(a.value - b.value) else None
  }

  /** On present divisors the comparator is antisymmetric, zero exactly on equal divisors, and negative exactly when the first is smaller. */
  lemma VolumetricDivisorOrderIsNumeric(a: real, b: real)
    ensures VolumetricDivisorOrder(Some(a), Some(b)).value == -VolumetricDivisorOrder(Some(b), Some(a)).value
    ensures VolumetricDivisorOrder(Some(a), Some(b)).value == 0.0 <==> a == b
    ensures VolumetricDivisorOrder(Some(a), Some(b)).value < 0.0 <==> a < b
  {
  }

  /** The score the fee-split column sorts by: first weight times its cost, plus the continued cost and the fee, in paid amounts. */
  function FeeSplitScore(f: FeeSplit<LocalPrice>): real {
    f.firstWeightKg * f.firstWeightCost.paidAmount + f.continuedWeightCost.paidAmount + f.miscFee.paidAmount
  }

  /** The fee-split comparator: the difference of the scores. */
  function FeeSplitOrder(a: FeeSplit<LocalPrice>, b: FeeSplit<LocalPrice>): (r: real)
    ensures r == 0.0 <==> FeeSplitScore(a) == FeeSplitScore(b)
    ensures r < 0.0 <==> FeeSplitScore(a) < FeeSplitScore(b)
  {
    FeeSplitScore(a) - FeeSplitScore(b)
  }

  /** The fee-split comparator is a consistent order: antisymmetric, and "not after" is transitive. */
  lemma FeeSplitOrderConsistent(a: FeeSplit<LocalPrice>, b: FeeSplit<LocalPrice>, c: FeeSplit<LocalPrice>)
    ensures FeeSplitOrder(a, b) == -FeeSplitOrder(b, a)
    ensures FeeSplitOrder(a, b) <= 0.0 && FeeSplitOrder(b, c) <= 0.0 ==> FeeSplitOrder(a, c) <= 0.0
  {
  }

  /** The price comparator: 0 unless both routes have a price, else the difference of the paid amounts. */
  function PriceOrder(a: Option<LocalPrice>, b: Option<LocalPrice>): (r: real)
    ensures a.None? || b.None? ==> r == 0.0
    ensures a.Some? && b.Some? ==> (r < 0.0 <==> a.value.paidAmount < b.value.paidAmount)
    ensures a.Some? && b.Some? ==> (r == 0.0 <==> a.value.paidAmount == b.value.paidAmount)
  {
    if !(a.Some? && b.Some?) then 0.0 else a.value.paidAmount - b.value.paidAmount
  }

  /** The price comparator is antisymmetric, but a route without a price ties with every route, so ties are not transitive. */
  lemma PriceOrderTies(a: LocalPrice, b: LocalPrice)
    requires a.paidAmount < b.paidAmount
    ensures PriceOrder(Some(a), Some(b)) == -PriceOrder(Some(b), Some(a))
    ensures PriceOrder(Some(a), None) == 0.0 && PriceOrder(None, Some(b)) == 0.0
    ensures PriceOrder(Some(a), Some(b)) < 0.0
  {
  }
}
