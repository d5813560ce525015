/**
 * The records the pricing engine and the route table work on: prices in a
 * paid and a converted currency, shipping routes with their fee split,
 * packages' routes and items, and shippers.
 */
module Domain {
  import opened Wrappers

  /** A currency code such as "CNY", "INR" or "USD". */
  type Currency = string

  /** A JavaScript `Date`, reduced to the instant it holds. */
  type Timestamp = int

  /** An amount in the currency it was paid in. */
  datatype LocalPrice = LocalPrice(paidCurrency: Currency, paidAmount: real, timeStamp: Timestamp)

  /** An amount together with its conversion into another currency; the converted amount is stored. */
  datatype Price = Price(
    paidCurrency: Currency,
    paidAmount: real,
    timeStamp: Timestamp,
    convertedCurrency: Currency,
    conversionRate: real,
    convertedAmount: real)

  datatype Dimensions = Dimensions(length: real, breadth: real, height: real)

  datatype EvaluationType = Volumetric | Actual

  datatype Warehouse = Warehouse(id: string, name: string, countryName: string)

  /** The tiered fee: a cost for the first weight, a cost per further kilogram, a fixed fee. */
  datatype FeeSplit<P> = FeeSplit(firstWeightKg: real, firstWeightCost: P, continuedWeightCost: P, miscFee: P)

  /** A shipper's rate card for one leg; `price`, when present, overrides the fee split. */
  datatype ShippingRoute = ShippingRoute(
    id: string,
    shipperId: string,
    name: string,
    originWarehouse: Warehouse,
    destinationWarehouse: Warehouse,
    evaluationType: EvaluationType,
    volumetricDivisor: Option<real>,
    feeSplit: FeeSplit<LocalPrice>,
    price: Option<LocalPrice>)

  datatype PackageStatus = Pending | Shipped | InTransit | Delivered

  /** A shipping route copied onto a package, with converted prices and tracking fields. */
  datatype PackageRoute = PackageRoute(
    id: string,
    shipperId: string,
    name: string,
    originWarehouse: Warehouse,
    destinationWarehouse: Warehouse,
    evaluationType: EvaluationType,
    volumetricDivisor: Option<real>,
    feeSplit: FeeSplit<Price>,
    price: Option<Price>,
    trackingNumber: string,
    status: PackageStatus,
    shippedOn: Option<Timestamp>,
    deliveredOn: Option<Timestamp>)

  /** An item packed in a package; weight in grams. */
  datatype Item = Item(
    id: string,
    name: string,
    dimensions: Dimensions,
    weight: real,
    quantity: real,
    cost: Price,
    timeStamp: Timestamp,
    link: string,
    image: Option<string>)

  /** An item's share of one package route's price. */
  datatype ItemRoute = ItemRoute(routeId: string, price: Price)

  datatype Shipper = Shipper(
    id: string,
    name: string,
    defaultCurrency: Currency,
    image: Option<string>,
    basedIn: Option<Warehouse>,
    shippingRoutes: seq<ShippingRoute>)
}
