# Shipment pricing and rate lookup, modelled in Dafny

This project models the pricing core of a freight-forwarding web app.
Shippers publish shipping routes with a tiered fee. Packages copy those
routes, price them and share the price out among their items. Amounts are
converted between currencies using exchange rates cached in the browser.

The model covers these parts:

- **Rate lookup** (`getConversionRate`), in `conversion_rate.dfy`.
  - The browser store of rate tables is a class, `ExchangeRateStore`.
  - The rate service's answer is a parameter.
  - The lookup is proved against a state-transition function, `ConversionRate`. Given the store and the answer, it returns the result and the new store.
  - The offline fallback compares keys the way JavaScript compares strings, in `js_strings.dfy`. Its `sort()` is in `js_sort.dfy`.
- **Price helpers** (`refreshPrice`, `generatePrice`, `generatePackageRoute`), in `prices.dfy`.
  - Each takes the awaited lookup result as a parameter.
- **Route, package and item pricing** (`calculatePackageRoutePrice` through `calculateItemTotalPrice`), in `pricing.dfy`.
  - A package is a class. Its route list is reassigned when a route is priced.
  - `pricing_properties.dfy` and `sums.dfy` prove that the item shares of every route add back up to the route's price. They also prove that the items' shipping prices add up to the package's shipping price.
- **Generic helpers** (`getVolume`, `getVolumetricWeight`, `findSidebarRouteNameByPath`, `indexBy`), in `generic_helpers.dfy`.
- **Faceted value counting** of a table column (`getFacetedUniqueValues`), in `faceted_values.dfy`.
  - It is the nested counting loop over an insertion-ordered map.
  - Its properties are in `faceted_values_properties.dfy`.
- **The faceted filter** (`isValueSelected`, `getKey`, `getCount`, the toggle), in `faceted_filter.dfy`.
- **The route table's filter and sort functions**, in `route_columns.dfy`.
- **The shipper card's edits of a shipper**, in `shipper_card.dfy`.
  - Submitting, deleting and copying routes.
  - Choosing the default currency and the home warehouse.

Several inputs come from outside the model and are parameters:

- the clock (`now`);
- random ids (`newId`);
- the date of a lookup;
- the rate service's answer;
- the warehouse catalog;
- `isEqualSansId` (`sansId`), and the filter's optional custom selection test.

Amounts are `real`.

## Model

| member | source | states |
|---|---|---|
| JsStrings.StrLessIrreflexive | src/utils.ts:116-124 | no key sorts before itself under the string `<` the offline scan uses |
| JsStrings.StrLessAsymmetric | src/utils.ts:116-124 | string `<` never holds both ways |
| JsStrings.StrLessTransitive | src/utils.ts:116-124 | string `<` is transitive |
| JsStrings.StrLessTotal | src/utils.ts:116-124 | two different keys are always ordered one way or the other, so `sort()` has a unique result |
| JsStrings.StrLessCommonPrefix | src/utils.ts:116-124 | keys that share the `from` prefix are ordered by what follows it |
| JsStrings.NatToString | src/utils.ts:81 | a date component renders as at least one decimal digit, with no leading zero |
| JsStrings.NatToStringRoundTrip | src/utils.ts:81 | reading the rendered digits back gives the number: the key loses no date information |
| JsStrings.IntToString | src/utils.ts:81 | a rendered year is non-empty and contains no `/`, so the key's fields stay separable |
| JsSort.Least | src/utils.ts:116-118 | a non-empty key set has a smallest key under string `<` |
| JsSort.SortedKeys | src/utils.ts:116-118 | `sort()` on the keys gives a strictly increasing list with exactly the same keys |
| JsSort.SortedUnique | src/utils.ts:116-118 | two strictly sorted lists with the same keys are equal, so the sorted order is determined |
| JsSort.InsertSorted | src/utils.ts:116-118 | inserting a key keeps the list strictly sorted and adds exactly that key |
| JsSort.SortKeys | src/utils.ts:116-118 | the sorting method returns exactly `SortedKeys` of the key set |
| ConversionRates.DateKey | src/utils.ts:81-82 | the store key starts with `from` followed by `/` |
| ConversionRates.KeysStartingWith | src/utils.ts:116-117 | the filtered keys are exactly the stored keys that start with `from` |
| ConversionRates.ScanNext | src/utils.ts:121-130 | a key the scan returns is in the list, after the requested key, and has a truthy rate for `to` |
| ConversionRates.ScanFallback | src/utils.ts:112-140 | the sort-then-scan loop returns exactly the offline outcome `Fallback` |
| ConversionRates.ExchangeRateStore.constructor | src/utils.ts:71-73 | the store starts with the given rate tables |
| ConversionRates.ExchangeRateStore.GetConversionRate | src/utils.ts:66-142 | the result and the new store are those of `ConversionRate` on the old store and the rate service's answer |
| ConversionRateProperties.IdentityShortCircuit | src/utils.ts:75-79 | same currency: rate 1, "No conversion required", the store unchanged; the store and the service's answer do not affect the result |
| ConversionRateProperties.CacheHit | src/utils.ts:88-93 | a truthy stored rate is returned with "Fetched from cache", without a fetch and with the store unchanged |
| ConversionRateProperties.ZeroRateIsAMiss | src/utils.ts:88-111 | a stored zero rate counts as a miss, so the service is asked |
| ConversionRateProperties.FetchWritesThrough | src/utils.ts:96-111 | on "success" the whole table is stored under the key, no other key changes, and `table[to]` is returned, possibly undefined |
| ConversionRateProperties.FetchFailureFallsBack | src/utils.ts:112-140 | a network error or a non-success answer leaves the store as it was and returns the offline outcome |
| ConversionRateProperties.WriteThroughThenCacheHit | src/utils.ts:88-111 | after a successful fetch, any truthy rate of that table on that date is a cache hit |
| ConversionRateProperties.ScanNextFindsLeast | src/utils.ts:121-130 | on sorted keys the scan returns the smallest candidate key, and returns none exactly when there is no candidate |
| ConversionRateProperties.FallbackOutcome | src/utils.ts:118-140 | the offline branch rejects exactly when no key starts with `from`; it returns "next available date" exactly when a candidate exists, and "last known date" otherwise |
| ConversionRateProperties.FallbackNextAvailable | src/utils.ts:121-130 | with candidates present, the offline branch returns the rate of the smallest one |
| ConversionRateProperties.FallbackLastKnown | src/utils.ts:131-135 | without a candidate, it returns the greatest key's entry for `to`, even an undefined one |
| ConversionRateProperties.LastKeyIsGreatest | src/utils.ts:131-135 | the last key of the sorted list is the greatest key |
| ConversionRateProperties.StoredCurrencyNeverRejected | src/utils.ts:118-140 | once any table for `from` is stored, no lookup from `from` is rejected |
| ConversionRateProperties.FetchedCurrencyNeverRejected | src/utils.ts:96-140 | after one successful fetch for `from`, no later lookup from `from` is rejected, on any date and whatever the service answers |
| ConversionRateProperties.KeyOctober10 | src/utils.ts:81-82 | 10 October 2024 in USD has the key "USD/2024/9/10": the month counts from 0 and nothing is padded |
| ConversionRateProperties.KeyJanuary2 | src/utils.ts:81-82 | 2 January 2024 in USD has the key "USD/2024/0/2" |
| ConversionRateProperties.LexicographicNextAvailable | src/utils.ts:116-130 | offline, with 3 and 8 October stored, a lookup for 10 October returns the 3 October rate as the "next available date", because the keys compare as strings |
| ConversionRateProperties.LastKnownDateScenario | src/utils.ts:131-135 | offline, with only 1 January stored, a lookup for 2 January returns the last known rate |
| ConversionRateProperties.OfflineLookup | src/utils.ts:84-140 | a lookup whose key is not stored, made while the network is down, is decided by the offline branch and leaves the store unchanged |
| ConversionRateProperties.FirstOfTwoKeys | src/utils.ts:121-130 | of two stored keys after the request, the smaller one with a rate wins |
| ConversionRateProperties.OnlyEarlierKey | src/utils.ts:131-135 | a single stored key that is not after the request is the last known date |
| Prices.RateOf | src/utils.ts:148-156 | the lookup's rate exists exactly when the lookup resolved with a rate; a rejection is reported as such |
| Prices.Converted | src/utils.ts:152-157 | a conversion keeps the paid currency and amount, sets the rate and the time stamp, and makes the converted amount the paid amount times the rate |
| Prices.RefreshPrice | src/utils.ts:144-160 | succeeds exactly when the lookup has a rate; on success the status is the lookup's and the price is the paid amount converted at that rate on `now` |
| Prices.RefreshDiscardsOldConversion | src/utils.ts:144-160 | the old rate, converted amount and time stamp have no effect on the refreshed price |
| Prices.RefreshIdempotent | src/utils.ts:144-160 | refreshing a refreshed price with the same lookup and instant changes nothing |
| Prices.RefreshSameCurrency | src/utils.ts:144-160 | a price whose two currencies agree is refreshed at rate 1 to its own paid amount, and the store is unchanged |
| Prices.GeneratePrice | src/utils.ts:162-184 | a truthy given rate is used without a lookup; an empty target currency falls back to the paid currency; a zero converted amount is computed as the paid amount times the rate |
| Prices.GivenRateIgnoresLookup | src/utils.ts:170-172 | with a truthy rate given, every lookup outcome gives the same result |
| Prices.GeneratedPriceIsRefreshed | src/utils.ts:162-184 | with no rate and no converted amount given, the generated price is the refreshed price |
| Prices.RefreshCost | src/utils.ts:255-272 | a fee-split cost is converted into the target currency exactly when its lookup has a rate |
| Prices.GeneratePackageRoute | src/utils.ts:247-296 | succeeds exactly when every awaited lookup has a rate, and fails with a rejection exactly when one is rejected. On success, every cost and the price (when present) are converted into the target currency. The route's other fields are kept, the tracking number is empty, the status is pending, and the shipping dates are as given |
| Prices.PackageRouteKeepsRateCard | src/utils.ts:247-296 | the paid side of a generated package route is the shipper's route, re-stamped |
| GenericHelpers.GetVolume | src/utils.ts:26-28 | non-negative dimensions give a non-negative volume; a zero dimension gives zero |
| GenericHelpers.GetVolumetricWeight | src/utils.ts:30-35 | the volumetric weight times the divisor is the volume |
| GenericHelpers.FindSidebarRouteNameByPath | src/utils.ts:37-51 | the loop with early return and recursion returns exactly the pre-order search `FindRouteName` |
| GenericHelpers.FindAbsent | src/utils.ts:37-51 | a tree with no entry at the path yields undefined |
| GenericHelpers.FindSound | src/utils.ts:37-51 | any name returned belongs to an entry at that path |
| GenericHelpers.FindFirstMatch | src/utils.ts:37-51 | the first entry in pre-order at the path is returned, provided its name is not empty |
| GenericHelpers.IndexBy | src/utils.ts:53-64 | the keys of the index are exactly the items' keys |
| GenericHelpers.IndexByLastWins | src/utils.ts:53-64 | each key maps to the rest of an item that carries it, namely the last such item |
| Sums.SumScale | src/utils.ts:453-463 | scaling every amount scales the reduced total |
| Sums.SumAdd | src/utils.ts:453-463 | pointwise sums of amounts add their totals |
| Sums.SumSwap | src/utils.ts:453-463 | summing the row totals or the column totals of a grid of amounts gives the same grand total |
| Pricing.PricedRoute | src/utils.ts:360-388 | pricing a route leaves it with a price, keeps a route that already has one, and changes nothing but the price |
| Pricing.PriceAll | src/utils.ts:390-407 | pricing every route prices each route where it stands and leaves every route with a price |
| Pricing.ItemShares | src/utils.ts:428-442 | one share per route, in order, each the route's price scaled by the item's ratio |
| Pricing.Package.constructor | src/interfaces/package.ts:22-72 | a package starts with the given fields and routes |
| Pricing.Package.CalculatePackageRoutePrice | src/utils.ts:360-388 | only the indexed route changes, to its priced form, and its price is returned; a route that already has a price is left as it was |
| Pricing.Package.CalculatePackageShippingPrice | src/utils.ts:390-407 | every route ends up priced. The total is the sum of the routes' converted amounts, in the first route's converted currency |
| Pricing.Package.CalculateItemRoutePrice | src/utils.ts:415-443 | undefined, with nothing changed, when the item or the package weighs nothing, whatever the routes are. Otherwise every route is priced and each route's share for the item is returned, by weight share (Actual) or volume share (Volumetric) |
| Pricing.CalculateItemShippingPrice | src/utils.ts:450-464 | the item's shipping total is in the first item route's converted currency, stamped `now` |
| PricingProperties.ItemShippingOfOne | src/utils.ts:453-463 | the `reduce` starts from zero: one item route's total is its converted amount |
| PricingProperties.ItemShippingStep | src/utils.ts:453-463 | each further item route adds its converted amount to the total and keeps the currency |
| Pricing.CalculateItemTotalPrice | src/utils.ts:472-483 | the item's total is in its cost's converted currency, and exceeds the shipping price by exactly the cost's converted amount |
| PricingProperties.TieredPriceFormula | src/utils.ts:364-385 | an unpriced route costs first + (chargeable kg − 1) × continued + misc, in both amounts, with the first cost's currencies and rate |
| PricingProperties.PricedRouteIdempotent | src/utils.ts:362 | a priced route keeps its price on a second call, at any weight and instant |
| PricingProperties.TieredPriceOfCosts | src/utils.ts:364-370 | the tiered price depends on the first-weight, continued-weight and fee costs only |
| PricingProperties.FirstWeightKgIgnored | src/utils.ts:364-370 | the route's `firstWeightKg` has no effect on its price: the first tier is always one kilogram |
| PricingProperties.ExcessNotClamped | src/utils.ts:364-380 | a package under a kilogram costs less than the first cost plus the fee: the excess is not clamped at zero |
| PricingProperties.HeavierCostsMore | src/utils.ts:364-380 | on a route charged by actual weight with a non-negative continued cost, a heavier package never costs less |
| PricingProperties.VolumetricIgnoresWeight | src/utils.ts:364-370 | a volumetric route's price does not depend on the package's weight |
| PricingProperties.PriceAllIdempotent | src/utils.ts:390-407 | pricing every route of a priced list again changes nothing |
| PricingProperties.RatioBasis | src/utils.ts:422-433 | the ratio is taken over one weight or one volume per item |
| PricingProperties.Ratios | src/utils.ts:422-433 | the list of the items' ratios holds, item by item, each item's weight or volume share |
| PricingProperties.RatioIsBasisShare | src/utils.ts:422-433 | an item's ratio is its entry of the basis over the basis's nonzero total |
| PricingProperties.RatioPrefixSum | src/utils.ts:422-433 | the ratios of the first items add up to those items' part of the basis over the total |
| PricingProperties.RatiosAddUpToOne | src/utils.ts:422-439 | the items' ratios for a route add up to one, so the route's price is shared out whole |
| PricingProperties.ConvertedSharesAddUp | src/utils.ts:415-443 | the items' shares of a route's converted amount add up to that amount |
| PricingProperties.PaidSharesAddUp | src/utils.ts:415-443 | the items' shares of a route's paid amount add up to that amount |
| PricingProperties.SharesAddUpToRoutePrice | src/utils.ts:415-443 | the items' shares of a route add up to the route's price, in both amounts |
| PricingProperties.GridColumnsAreRoutePrices | src/utils.ts:415-443 | each route's column of item shares adds up to that route's converted amount |
| PricingProperties.ItemShippingAddsUp | src/utils.ts:415-464 | the items' shipping prices add up to the sum of the routes' converted amounts, and each is in the first route's converted currency |
| PricingProperties.PackageShippingIsSharedOut | src/utils.ts:390-464 | after the routes are priced, the items' shipping prices add up to the package's shipping price |
| PricingProperties.ItemTotalsAddUp | src/utils.ts:472-483 | the items' total prices add up to their converted costs plus the routes' converted amounts |
| FacetedValues.IndexOfKey | src/components/table/utils.ts:40-43 | a found position holds the key; none found means no entry holds it |
| FacetedValues.SetCount | src/components/table/utils.ts:36-46 | `Map.set` keeps the size for a stored key, and appends an entry for a new key |
| FacetedValues.FirstMatch | src/components/table/utils.ts:25-34 | the first stored key, in insertion order, that is equal sans id to the value; none means no key is |
| FacetedValues.CountValue | src/components/table/utils.ts:20-48 | one pass of the inner loop with its `foundMatch` flag and `break` counts the value exactly as `AddValue` does |
| FacetedValues.GetFacetedUniqueValues | src/components/table/utils.ts:8-53 | the nested loops return exactly every row's values counted in order; without a faceted row model the map is empty |
| FacetedValueProperties.AddValueKeepsKeys | src/components/table/utils.ts:24-47 | counting a value keeps every key in place and adds at most one, the value itself, at the end |
| FacetedValueProperties.AddValueWellFormed | src/components/table/utils.ts:24-47 | counting a value keeps the keys distinct and the counts at least 1 |
| FacetedValueProperties.CountedWellFormed | src/components/table/utils.ts:12-49 | the finished map has distinct keys and counts of at least 1 |
| FacetedValueProperties.KeysNeverRemoved | src/components/table/utils.ts:12-49 | counting more values never removes or moves a key |
| FacetedValueProperties.TotalUpdate | src/components/table/utils.ts:30-44 | changing one count changes the total by the difference |
| FacetedValueProperties.AddValueTotal | src/components/table/utils.ts:20-48 | when objects equal themselves sans id, each value processed raises the total count by exactly 1 |
| FacetedValueProperties.CountsAddUpToValues | src/components/table/utils.ts:14-49 | the counts add up to the number of values processed |
| FacetedValueProperties.RowCountsAddUp | src/components/table/utils.ts:8-53 | the counts add up to the number of values across all rows |
| FacetedValueProperties.IndexOfKeySameKeys | src/components/table/utils.ts:40-43 | lists with the same keys in the same places find every key at the same place |
| FacetedValueProperties.CountOfUpdateAt | src/components/table/utils.ts:30-44 | changing one entry's count changes only that key's count |
| FacetedValueProperties.CountOfAppend | src/components/table/utils.ts:36-46 | appending a new key changes only that key's count |
| FacetedValueProperties.AddValuePrimitiveCount | src/components/table/utils.ts:38-47 | counting a value raises a string's count by 1 exactly when the value is that string |
| FacetedValueProperties.PrimitiveCountIsOccurrences | src/components/table/utils.ts:38-47 | when no string key is equal sans id to an object, a string's count is its number of occurrences |
| FacetedValueProperties.ObjectCountedUnderFirstMatch | src/components/table/utils.ts:24-34 | an object equal sans id to a stored key increments only the first such key, and adds no key |
| FacetedValueProperties.UnmatchedObjectAppended | src/components/table/utils.ts:35-37 | an object that matches no stored key is stored at the end with count 1 |
| FacetedFilter.SelectedValues | src/components/table/data-table-faceted-filter.tsx:43-44 | a missing filter value selects nothing |
| FacetedFilter.Selects | src/components/table/data-table-faceted-filter.tsx:47-57 | without a custom test a string option is selected only by an identical string, and an object option never by a string when equality sans id never relates the two kinds |
| FacetedFilter.IsValueSelected | src/components/table/data-table-faceted-filter.tsx:47-57 | nothing is selected by an empty selection; without a custom test a string option is selected exactly when it is included, and an object option exactly when some selected value is equal to it sans id |
| FacetedFilter.GetKey | src/components/table/data-table-faceted-filter.tsx:59-63 | an object option is keyed by its id, a string option by itself |
| FacetedFilter.GetKeyCollisions | src/components/table/data-table-faceted-filter.tsx:59-63 | keys separate object options only by id: two objects with the same id share a key, and so does a string equal to that id |
| FacetedFilter.FacetCount | src/components/table/data-table-faceted-filter.tsx:83-90 | no facets give no count; a string option gets the count stored under it; an object option gets the count of the first facet equal to it sans id, or none |
| FacetedFilter.GetCount | src/components/table/data-table-faceted-filter.tsx:83-90 | the loop with early return gives exactly `FacetCount` |
| FacetedFilter.StringOfferedIffOccurs | src/components/table/data-table-faceted-filter.tsx:150-151 | when no string key matches an object, a string option is offered exactly when its value occurs in the column's rows |
| FacetedFilter.KeepAsWritten | src/components/table/data-table-faceted-filter.tsx:158-163 | deselection keeps exactly the values that fail the custom test (if there is one) and are not identical to the option |
| FacetedFilter.KeepAsWrittenSingle | src/components/table/data-table-faceted-filter.tsx:159-163 | one value survives exactly when it fails the custom test and is not identical to the option |
| FacetedFilter.KeepAsWrittenConcat | src/components/table/data-table-faceted-filter.tsx:159-163 | removal works value by value, so the survivors keep their order and multiplicity |
| FacetedFilter.ToggleAsWritten | src/components/table/data-table-faceted-filter.tsx:157-169 | an unselected option is appended; a selected one leaves exactly the as-written survivors; an empty selection is stored as no filter value |
| FacetedFilter.ObjectCopyNotDeselected | src/components/table/data-table-faceted-filter.tsx:158-163 | an object option selected through a copy that is equal sans id but not identical is not deselected by choosing it |
| FacetedFilter.ToggleAsWrittenAgreesOnStrings | src/components/table/data-table-faceted-filter.tsx:158-163 | without a custom test, removal by identity is the same as removal by the selection test for string options |
| FacetedFilter.Keep | src/components/table/data-table-faceted-filter.tsx:158-163 | corrected deselection: keeps exactly the values that do not select the option |
| FacetedFilter.KeepSingle | src/components/table/data-table-faceted-filter.tsx:158-163 | corrected deselection keeps one value exactly when it does not select the option |
| FacetedFilter.KeepConcat | src/components/table/data-table-faceted-filter.tsx:158-163 | corrected deselection works value by value, so the survivors keep their order and multiplicity |
| FacetedFilter.Toggle | src/components/table/data-table-faceted-filter.tsx:157-169 | corrected toggle: an unselected option is appended; a selected one leaves exactly the values that do not select it; an empty selection is stored as no filter value |
| FacetedFilter.ToggleDeselects | src/components/table/data-table-faceted-filter.tsx:157-169 | with corrected removal, choosing a selected option deselects it |
| FacetedFilter.ToggleSelects | src/components/table/data-table-faceted-filter.tsx:157-169 | choosing an unselected option that passes its own test appends it and selects it |
| RouteColumns.RouteFilterByEndpoint | src/components/table/shipping-routes/columns.tsx:85-89 | the route filter keeps a route exactly when the origin's or the destination's name or country is among the filter values |
| RouteColumns.RouteFilterIgnoresDirection | src/components/table/shipping-routes/columns.tsx:85-89 | swapping origin and destination does not change the filter's verdict |
| RouteColumns.RouteFilterWidens | src/components/table/shipping-routes/columns.tsx:85-89 | adding filter values never hides a route that was shown |
| RouteColumns.FilterRoutes | src/components/table/shipping-routes/columns.tsx:116 | the evaluation-type filter keeps exactly the routes whose type is among the filter values |
| RouteColumns.OneTypeFilter | src/components/table/shipping-routes/columns.tsx:116 | filtering on one type keeps exactly the routes of that type |
| RouteColumns.EvaluationTypeOrderAsWritten | src/components/table/shipping-routes/columns.tsx:117-121 | the comparator is never negative, and is 1 exactly for Actual against Volumetric |
| RouteColumns.EvaluationTypeOrderNotAntisymmetric | src/components/table/shipping-routes/columns.tsx:117-121 | Volumetric against Actual gives 0, but Actual against Volumetric gives 1 |
| RouteColumns.EvaluationTypeOrder | src/components/table/shipping-routes/columns.tsx:117-121 | corrected comparator: 0 exactly on equal types, and negative exactly for Volumetric before Actual |
| RouteColumns.EvaluationTypeOrderAntisymmetric | src/components/table/shipping-routes/columns.tsx:117-121 | the corrected comparator is antisymmetric and agrees with the original wherever the original says "after" |
| RouteColumns.VolumetricDivisorOrder | src/components/table/shipping-routes/columns.tsx:144-148 | the difference is a number exactly when both divisors are present |
| RouteColumns.VolumetricDivisorOrderIsNumeric | src/components/table/shipping-routes/columns.tsx:144-148 | on present divisors the comparator is antisymmetric, zero exactly on equal divisors, and negative exactly when the first is smaller |
| RouteColumns.FeeSplitOrder | src/components/table/shipping-routes/columns.tsx:164-178 | zero exactly on equal scores, and negative exactly when the first score is smaller |
| RouteColumns.FeeSplitOrderConsistent | src/components/table/shipping-routes/columns.tsx:164-178 | the fee-split comparator is antisymmetric, and "not after" is transitive |
| RouteColumns.PriceOrder | src/components/table/shipping-routes/columns.tsx:194-198 | 0 when either price is missing; otherwise ordered by the paid amounts |
| RouteColumns.PriceOrderTies | src/components/table/shipping-routes/columns.tsx:194-198 | antisymmetric on priced routes, but a route without a price ties with both of two different prices |
| ShipperCard.Ids | src/components/shipper-card.tsx:70-94 | the ids of the routes, in order |
| ShipperCard.ReplaceById | src/components/shipper-card.tsx:72-74 | same length, and each route with the submitted id becomes the submitted route while the others stay where they were |
| ShipperCard.WithoutId | src/components/shipper-card.tsx:93 | no kept route has the deleted id, and every kept route was already there |
| ShipperCard.SubmitRoute | src/components/shipper-card.tsx:66-82 | an edit replaces by id and an add appends; no other field of the shipper changes |
| ShipperCard.DeleteRoute | src/components/shipper-card.tsx:90-94 | removes the routes with the route's id; no other field of the shipper changes |
| ShipperCard.CopyOf | src/components/shipper-card.tsx:96-100 | the copy has the fresh id and the name followed by " (Copy)", and is otherwise identical |
| ShipperCard.CopyRoute | src/components/shipper-card.tsx:95-104 | appends the copy; no other field of the shipper changes |
| ShipperCard.SelectDefaultCurrency | src/components/shipper-card.tsx:131-137 | sets the default currency and changes nothing else |
| ShipperCard.SelectBasedIn | src/components/shipper-card.tsx:182-191 | sets the home warehouse to the chosen id with the catalog's name and country, and changes nothing else |
| ShipperCard.ReplaceKeepsIds | src/components/shipper-card.tsx:72-74 | an edit keeps the list of ids exactly as it was |
| ShipperCard.SubmittedEditPresent | src/components/shipper-card.tsx:70-76 | after an edit, the submitted route is in the list exactly when a route with its id was |
| ShipperCard.SubmitEditIdempotent | src/components/shipper-card.tsx:70-76 | submitting the same edit twice equals submitting it once |
| ShipperCard.WithoutAbsentId | src/components/shipper-card.tsx:93 | deleting an id that no route carries changes nothing |
| ShipperCard.DeleteIdempotent | src/components/shipper-card.tsx:90-94 | deleting twice equals deleting once |
| ShipperCard.WithoutKeepsOthers | src/components/shipper-card.tsx:93 | every route with another id is kept |
| ShipperCard.WithoutIdSingle | src/components/shipper-card.tsx:93 | one route is kept exactly when its id is not the deleted one |
| ShipperCard.WithoutIdConcat | src/components/shipper-card.tsx:93 | deleting works route by route, so the remaining routes keep their relative order |
| ShipperCard.AddThenDelete | src/components/shipper-card.tsx:77-94 | adding a route under a fresh id and then deleting it restores the shipper |
| ShipperCard.CopyThenDelete | src/components/shipper-card.tsx:90-104 | copying under a fresh id and then deleting the copy restores the shipper |
| ShipperCard.CopyKeepsOriginal | src/components/shipper-card.tsx:95-104 | the original stays in the list and the list grows by one |

## Left out

- Network and storage I/O are not modelled.
  - `fetch`, the service URL and `localStorage` with its JSON encoding are replaced by the `ExchangeRateStore` object and the `FetchOutcome` parameter.
  - The response body's shape is assumed to be a result string plus a rate table.
- Asynchrony: the promises are awaited in order. The price helpers take the awaited lookup results as parameters.
- `new Date()`, `uuidv4` and `crypto.randomUUID` are parameters (`now`, `date`, `newId`).
  - One `now` stands for every `new Date()` of one operation. The source reads the clock separately for the total and for each route it prices (for example in `calculatePackageShippingPrice`), so its time stamps may differ by moments.
  - Time zones are not modelled. A date is the year, 0-based month and day that the `Date` getters report.
- JavaScript numbers are `real`: no NaN, infinities or rounding.
  - Divisions the source leaves unguarded become preconditions: a zero or absent volumetric divisor on an unpriced Volumetric route (the source computes a NaN price from it), a zero total weight or volume, and an empty route list.
  - A truthy rate is one that is present and non-zero.
- Prices.RefreshPrice: a lookup that resolves without a rate ("last known date" with an undefined entry) gives `Failure(RateUndefined)`. The source instead produces a price with an undefined rate and a NaN converted amount.
- Prices.GeneratePrice: as for `RefreshPrice`, a lookup that resolves without a rate is a failure rather than a NaN price. The outcome's status string is not part of the result.
- Prices.GeneratePackageRoute: the same deviation applies. The returned status string "Package route created successfully!" is left out.
- Pricing.Package.CalculateItemRoutePrice: only zero weights make it return undefined. A missing dimensions object cannot occur in the model.
- Pricing.Package.CalculatePackageRoutePrice: route records are values. The source stores the price into a route object that callers may share (aliasing); the model reassigns the package's route list instead.
- JsStrings.StrLess: compares characters as code points. JavaScript compares UTF-16 code units; the two orders agree on the currency codes and digits that keys are made of.
- JsSort.SortKeys: only the result of `sort()` is modelled, not the engine's sorting algorithm.
- `isEqualSansId` belongs to code that is not part of this model. It is the parameter `sansId`, and the properties that need it reflexive, or never matching a string with an object, say so.
- Column values are strings or objects. `null`, numbers and other primitives are not modelled. An object is identified by its reference.
- The filter's rendering (`renderItem`, `renderCount`, badges) and the shipper card's display of the conversion rate are UI and are not modelled.
- ShipperCard.SelectBasedIn: the warehouse record keeps the id, name and country only. The catalog entries the source spreads into it also carry a `flag`, which is not modelled.
- ShipperCard.SelectBasedIn: the warehouse catalog is a parameter. Its entries are assumed to carry a name and a country but no id of their own. The chosen id must be in the catalog, because the selector offers only catalog keys.
- GenericHelpers.FindSidebarRouteNameByPath: the route tree's type is not part of this model. An entry is taken to have a name, a path and optional children, and missing children are an empty list.
- GenericHelpers.IndexBy: the item with its key removed (`Omit<T, K>`) is given by a function parameter.
- The seed constructors in `src/utils.ts` (`generateShippingRoute`, `generateShipper`, `generateRun`, `generatePackage`, `generateItem`) only assemble records with fresh ids and dates. They are not modelled.

## Findings

| source | as written | input that shows it | evidently intended | confidence | as-written member | corrected member |
|---|---|---|---|---|---|---|
| src/components/table/shipping-routes/columns.tsx:117-121 | the evaluation-type comparator returns 0 when A is Volumetric and B is Actual | A = Volumetric, B = Actual gives 0, while A = Actual, B = Volumetric gives 1 | -1 for Volumetric before Actual, an antisymmetric order | medium, not executed | RouteColumns.EvaluationTypeOrderNotAntisymmetric | RouteColumns.EvaluationTypeOrderAntisymmetric |
| src/components/table/data-table-faceted-filter.tsx:158-163 | without a custom test, an object value is deselected only if identical to the option, though it was selected by equality sans id | selection [object 1 with id "first"], option object 2 with id "second", equal sans id: choosing the option leaves the selection unchanged | remove the values that select the option, with the same test that selected it | medium, not executed | FacetedFilter.ObjectCopyNotDeselected | FacetedFilter.ToggleDeselects |
