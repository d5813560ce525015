/**
 * The price helpers of the pricing engine: `refreshPrice` re-converts a
 * price at the rate a lookup resolved to, `generatePrice` builds a new
 * price, and `generatePackageRoute` copies a shipper's route onto a package
 * with every cost converted into the package's currency.
 *
 * The awaited `getConversionRate` calls are parameters: each is the
 * `RateResult` the lookup resolved to (see ConversionRates), and `now` is
 * the instant `new Date()` reports.
 */
module Prices {
  import opened Wrappers
  import opened Domain
  import opened ConversionRates

  /** Why no price could be produced: the lookup was rejected, or it resolved without a rate. */
  datatype PriceError = LookupRejected | RateUndefined

  /** The `{ status, price }` a price helper resolves to. */
  datatype PriceOutcome = PriceOutcome(status: string, price: Price)

  /** The lookup resolved with a rate. */
  predicate Defined(lookup: RateResult) {
    lookup.Resolved? && lookup.conversionRate.Some?
  }

  /** `newRate.conversion_rate!`, or why there is none. */
  function RateOf(lookup: RateResult): (r: Result<real, PriceError>)
    ensures r.Success? <==> Defined(lookup)
    ensures r.Success? ==> r.value == lookup.conversionRate.value
    ensures lookup.Rejected? ==> r == Failure(LookupRejected)
  {
    match lookup
    case Rejected => Failure(LookupRejected)
    case Resolved(_, rate) =>
      match rate
      case Some(x) => Success(x)
      case None => Failure(RateUndefined)
  }

  /** A paid amount converted at `rate` on `now`: the price every conversion here produces. */
  function Converted(paid: LocalPrice, convertedCurrency: Currency, rate: real, now: Timestamp): (p: Price)
    ensures p.paidCurrency == paid.paidCurrency && p.paidAmount == paid.paidAmount && p.timeStamp == now
    ensures p.convertedCurrency == convertedCurrency && p.conversionRate == rate
    ensures p.convertedAmount == p.paidAmount * p.conversionRate
  {
    Price(paid.paidCurrency, paid.paidAmount, now, convertedCurrency, rate, paid.paidAmount * rate)
  }

  /** The paid part of a price. */
  function Paid(p: Price): LocalPrice {
    LocalPrice(p.paidCurrency, p.paidAmount, p.timeStamp)
  }

  /** `refreshPrice(price)`: the same paid amount, converted at the looked-up rate, stamped `now`. */
  function RefreshPrice(price: Price, lookup: RateResult, now: Timestamp): (r: Result<PriceOutcome, PriceError>)
    ensures r.Success? <==> Defined(lookup)
    ensures lookup.Rejected? ==> r == Failure(LookupRejected)
    ensures r.Success? ==>
      r.value.status == StatusText(lookup)
      && r.value.price == Converted(Paid(price), price.convertedCurrency, lookup.conversionRate.value, now)
  {
    match RateOf(lookup)
    case Failure(e) => Failure(e)
    case Success(rate) =>
      Success(PriceOutcome(StatusText(lookup), price.(conversionRate := rate, convertedAmount := price.paidAmount * rate, timeStamp := now)))
  }

  /** A refreshed price depends only on the paid currency and amount and the target currency: the old rate and converted amount are discarded. */
  lemma RefreshDiscardsOldConversion(p: Price, q: Price, lookup: RateResult, now: Timestamp)
    requires p.paidCurrency == q.paidCurrency && p.paidAmount == q.paidAmount && p.convertedCurrency == q.convertedCurrency
    ensures RefreshPrice(p, lookup, now) == RefreshPrice(q, lookup, now)
  {
    if Defined(lookup) {
      var rate := lookup.conversionRate.value;
      assert Converted(Paid(p), p.convertedCurrency, rate, now) == Converted(Paid(q), q.convertedCurrency, rate, now);
    }
  }

  /** Refreshing a refreshed price again at the same rate and instant changes nothing. */
  lemma RefreshIdempotent(p: Price, lookup: RateResult, now: Timestamp)
    requires Defined(lookup)
    ensures var once := RefreshPrice(p, lookup, now).value.price;
      RefreshPrice(once, lookup, now).value.price == once
  {
  }

  /** A price whose currencies agree is refreshed at rate 1, to its own paid amount, and the lookup leaves the store as it was. */
  lemma RefreshSameCurrency(p: Price, cache: RateCache, date: Date, fetched: FetchOutcome, now: Timestamp)
    requires p.paidCurrency == p.convertedCurrency
    ensures var (lookup, after) := ConversionRate(cache, p.paidCurrency, p.convertedCurrency, date, fetched);
      after == cache
      && RefreshPrice(p, lookup, now).Success?
      && RefreshPrice(p, lookup, now).value.price.conversionRate == 1.0
      && RefreshPrice(p, lookup, now).value.price.convertedAmount == p.paidAmount
  {
  }

  /** A JavaScript number is truthy when it is present and not zero. */
  predicate Truthy(x: Option<real>) {
    x.Some? && x.value != 0.0
  }

  /**
   * `generatePrice(paidCurrency, convertedCurrency, paidAmount, timeStamp,
   * conversionRate, convertedAmount)`. A truthy `conversionRate` is used as
   * given and the lookup is not awaited; otherwise the looked-up rate is
   * used. An empty `convertedCurrency` falls back to the paid currency and a
   * zero `convertedAmount` is computed from the rate.
   */
  function GeneratePrice(paidCurrency: Currency, convertedCurrency: Currency, paidAmount: real, timeStamp: Timestamp,
                         conversionRate: Option<real>, convertedAmount: real, lookup: RateResult)
    : (r: Result<PriceOutcome, PriceError>)
    ensures r.Success? <==> Truthy(conversionRate) || Defined(lookup)
    ensures !Truthy(conversionRate) && lookup.Rejected? ==> r == Failure(LookupRejected)
    ensures r.Success? ==>
      var rate := if Truthy(conversionRate) then conversionRate.value else lookup.conversionRate.value;
      var p := r.value.price;
      r.value.status == "Price generated successfully! "
      && p.paidCurrency == paidCurrency && p.paidAmount == paidAmount && p.timeStamp == timeStamp
      && p.conversionRate == rate
      && (p.convertedCurrency == if convertedCurrency == "" then paidCurrency else convertedCurrency)
      && (p.convertedAmount == if convertedAmount != 0.0 then convertedAmount else paidAmount * rate)
  {
    var rate :- if Truthy(conversionRate) then Success(conversionRate.value) else RateOf(lookup);
    Success(PriceOutcome(
      "Price generated successfully! ",
      Price(paidCurrency, paidAmount, timeStamp,
            if convertedCurrency != "" then convertedCurrency else paidCurrency,
            rate,
            if convertedAmount != 0.0 then convertedAmount else paidAmount * rate)))
  }

  /** With a truthy rate given, the lookup is never consulted: any lookup gives the same outcome. */
  lemma GivenRateIgnoresLookup(paidCurrency: Currency, convertedCurrency: Currency, paidAmount: real, timeStamp: Timestamp,
                               rate: real, convertedAmount: real, l1: RateResult, l2: RateResult)
    requires rate != 0.0
    ensures GeneratePrice(paidCurrency, convertedCurrency, paidAmount, timeStamp, Some(rate), convertedAmount, l1)
         == GeneratePrice(paidCurrency, convertedCurrency, paidAmount, timeStamp, Some(rate), convertedAmount, l2)
  {
    var r1 := GeneratePrice(paidCurrency, convertedCurrency, paidAmount, timeStamp, Some(rate), convertedAmount, l1);
    var r2 := GeneratePrice(paidCurrency, convertedCurrency, paidAmount, timeStamp, Some(rate), convertedAmount, l2);
    assert r1.value.price == r2.value.price;
  }

  /**
   * Without a rate or converted amount given and with a target currency, a
   * generated price is the price `refreshPrice` makes of the same paid
   * amount at the same instant.
   */
  lemma GeneratedPriceIsRefreshed(paidCurrency: Currency, convertedCurrency: Currency, paidAmount: real, timeStamp: Timestamp,
                                  lookup: RateResult, any: Price)
    requires convertedCurrency != ""
    requires any.paidCurrency == paidCurrency && any.paidAmount == paidAmount && any.convertedCurrency == convertedCurrency
    ensures var g := GeneratePrice(paidCurrency, convertedCurrency, paidAmount, timeStamp, None, 0.0, lookup);
      var f := RefreshPrice(any, lookup, timeStamp);
      g.Success? == f.Success? && (g.Success? ==> g.value.price == f.value.price)
  {
  }

  /** The lookups `generatePackageRoute` awaits, in order: one per fee-split cost, then one for the route price. */
  datatype RouteLookups = RouteLookups(firstWeightCost: RateResult, continuedWeightCost: RateResult, miscFee: RateResult, price: RateResult)

  /** `refreshPrice({ ...cost, convertedCurrency } as Price)`: a local cost converted into `convertedCurrency`. */
  function RefreshCost(cost: LocalPrice, convertedCurrency: Currency, lookup: RateResult, now: Timestamp): (r: Result<Price, PriceError>)
    ensures r.Success? <==> Defined(lookup)
    ensures lookup.Rejected? ==> r == Failure(LookupRejected)
    ensures r.Success? ==> r.value == Converted(cost, convertedCurrency, lookup.conversionRate.value, now)
  {
    var out :- RefreshPrice(Price(cost.paidCurrency, cost.paidAmount, cost.timeStamp, convertedCurrency, 0.0, 0.0), lookup, now);
    Success(out.price)
  }

  /** Every lookup the route needs resolved with a rate. */
  predicate RouteLookupsDefined(route: ShippingRoute, lookups: RouteLookups) {
    Defined(lookups.firstWeightCost) && Defined(lookups.continuedWeightCost) && Defined(lookups.miscFee)
    && (route.price.Some? ==> Defined(lookups.price))
  }

  /** The first rejection among the lookups the route awaits, in the order it awaits them. */
  predicate RouteRejected(route: ShippingRoute, lookups: RouteLookups) {
    lookups.firstWeightCost.Rejected?
    || (Defined(lookups.firstWeightCost) && lookups.continuedWeightCost.Rejected?)
    || (Defined(lookups.firstWeightCost) && Defined(lookups.continuedWeightCost) && lookups.miscFee.Rejected?)
    || (Defined(lookups.firstWeightCost) && Defined(lookups.continuedWeightCost) && Defined(lookups.miscFee)
        && route.price.Some? && lookups.price.Rejected?)
  }

  /**
   * `generatePackageRoute(route, convertedCurrency, shippedOn, deliveredOn)`:
   * the route with each fee-split cost, and the route price when there is
   * one, converted into `convertedCurrency`, an empty tracking number,
   * status Pending and the given dates.
   */
  function GeneratePackageRoute(route: ShippingRoute, convertedCurrency: Currency, shippedOn: Option<Timestamp>,
                                deliveredOn: Option<Timestamp>, lookups: RouteLookups, now: Timestamp)
    : (r: Result<PackageRoute, PriceError>)
    ensures r.Success? <==> RouteLookupsDefined(route, lookups)
    ensures r.Failure? ==> (r.error == LookupRejected <==> RouteRejected(route, lookups))
    ensures r.Success? ==>
      var pr := r.value;
      pr.id == route.id && pr.shipperId == route.shipperId && pr.name == route.name
      && pr.originWarehouse == route.originWarehouse && pr.destinationWarehouse == route.destinationWarehouse
      && pr.evaluationType == route.evaluationType && pr.volumetricDivisor == route.volumetricDivisor
      && pr.trackingNumber == "" && pr.status == Pending && pr.shippedOn == shippedOn && pr.deliveredOn == deliveredOn
      && pr.feeSplit.firstWeightKg == route.feeSplit.firstWeightKg
      && pr.feeSplit.firstWeightCost
         == Converted(route.feeSplit.firstWeightCost, convertedCurrency, lookups.firstWeightCost.conversionRate.value, now)
      && pr.feeSplit.continuedWeightCost
         == Converted(route.feeSplit.continuedWeightCost, convertedCurrency, lookups.continuedWeightCost.conversionRate.value, now)
      && pr.feeSplit.miscFee
         == Converted(route.feeSplit.miscFee, convertedCurrency, lookups.miscFee.conversionRate.value, now)
      && pr.price.Some? == route.price.Some?
      && (route.price.Some? ==>
            pr.price.value == Converted(route.price.value, convertedCurrency, lookups.price.conversionRate.value, now))
  {
    var first :- RefreshCost(route.feeSplit.firstWeightCost, convertedCurrency, lookups.firstWeightCost, now);
    var continued :- RefreshCost(route.feeSplit.continuedWeightCost, convertedCurrency, lookups.continuedWeightCost, now);
    var misc :- RefreshCost(route.feeSplit.miscFee, convertedCurrency, lookups.miscFee, now);
    var price :- match route.price
      case None => Success(None)
      case Some(p) =>
        var converted :- RefreshCost(p, convertedCurrency, lookups.price, now);
        Success(Some(converted));
    Success(PackageRoute(
      route.id, route.shipperId, route.name, route.originWarehouse, route.destinationWarehouse,
      route.evaluationType, route.volumetricDivisor,
      FeeSplit(route.feeSplit.firstWeightKg, first, continued, misc),
      price, "", Pending, shippedOn, deliveredOn))
  }

  /** A local cost with its time stamp replaced. */
  function Restamped(cost: LocalPrice, now: Timestamp): LocalPrice {
    cost.(timeStamp := now)
  }

  /** The shipper's route a package route was copied from, read back from its paid amounts. */
  function RateCardOf(pr: PackageRoute): ShippingRoute {
    ShippingRoute(
      pr.id, pr.shipperId, pr.name, pr.originWarehouse, pr.destinationWarehouse, pr.evaluationType, pr.volumetricDivisor,
      FeeSplit(pr.feeSplit.firstWeightKg, Paid(pr.feeSplit.firstWeightCost), Paid(pr.feeSplit.continuedWeightCost),
               Paid(pr.feeSplit.miscFee)),
      match pr.price case None => None case Some(p) => Some(Paid(p)))
  }

  /**
   * Copying a route onto a package keeps its rate card: reading the paid
   * amounts back gives the original route, with only the cost time stamps
   * moved to the instant of conversion.
   */
  lemma {:induction false} PackageRouteKeepsRateCard(route: ShippingRoute, convertedCurrency: Currency, shippedOn: Option<Timestamp>,
                                                     deliveredOn: Option<Timestamp>, lookups: RouteLookups, now: Timestamp)
    requires RouteLookupsDefined(route, lookups)
    ensures RateCardOf(GeneratePackageRoute(route, convertedCurrency, shippedOn, deliveredOn, lookups, now).value)
         == route.(feeSplit := FeeSplit(route.feeSplit.firstWeightKg,
                                        Restamped(route.feeSplit.firstWeightCost, now),
                                        Restamped(route.feeSplit.continuedWeightCost, now),
                                        Restamped(route.feeSplit.miscFee, now)),
                   price := match route.price case None => None case Some(p) => Some(Restamped(p, now)))
  {
    var pr := GeneratePackageRoute(route, convertedCurrency, shippedOn, deliveredOn, lookups, now).value;
    match route.price
    case None =>
    case Some(p) =>
      assert Paid(pr.price.value) == Restamped(p, now);
  }
}
