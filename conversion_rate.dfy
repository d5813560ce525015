/**
 * `getConversionRate`: the rate from one currency to another on a date,
 * looked up in a store of rate tables keyed by currency and date, fetched
 * from the rate service on a miss, and, when the fetch fails, taken from
 * the stored table of a later date (or else of the last date) for the same
 * currency.
 */
module ConversionRates {
  import opened Wrappers
  import opened JsStrings
  import opened JsSort
  import opened Domain

  /** The rates from one currency, by target currency. */
  type RateTable = map<Currency, real>

  /** The stored `exchangeRates` object: rate tables by key. */
  type RateCache = map<string, RateTable>

  /** What `getFullYear`, `getMonth` (0 for January) and `getDate` report. */
  datatype Date = Date(year: int, month: nat, day: nat)

  /** What the rate service answered: nothing usable, or a body with a result and a rate table. */
  datatype FetchOutcome = NetworkError | Response(result: string, conversionRates: RateTable)

  datatype RateStatus =
    | NoConversionRequired
    | FetchedFromCache
    | FetchedFromApi
    | NextAvailableDate
    | LastKnownDate

  /** A resolved promise with a status and a possibly undefined rate, or the rejection. */
  datatype RateResult = Resolved(status: RateStatus, conversionRate: Option<real>) | Rejected

  /** The status strings the caller sees. */
  function StatusText(r: RateResult): string {
    match r
    case Rejected => "No exchange rate data available"
    case Resolved(status, _) =>
      match status
      case NoConversionRequired => "No conversion required"
      case FetchedFromCache => "Fetched from cache"
      case FetchedFromApi => "Fetched from API"
      case NextAvailableDate => "Fetched from cache (next available date)"
      case LastKnownDate => "Fetched from cache (last known date)"
  }

  /** The store key `${from}/${year}/${month}/${day}`: month counted from 0, nothing padded. */
  function DateKey(from: Currency, date: Date): (key: string)
    ensures StartsWith(key, from + "/")
  {
    var key := from + "/" + IntToString(date.year) + "/" + NatToString(date.month) + "/" + NatToString(date.day);
    assert key[..|from + "/"|] == from + "/";
    key
  }

  /** `table[to]` is truthy: present and not zero. */
  predicate HasRate(table: RateTable, to: Currency) {
    to in table && table[to] != 0.0
  }

  /** `Object.keys(exchangeRates).filter((k) => k.startsWith(from))`, as a set. */
  function KeysStartingWith(cache: RateCache, from: Currency): (keys: set<string>)
    ensures forall k :: k in keys <==> k in cache && StartsWith(k, from)
  {
    set k | k in cache && StartsWith(k, from)
  }

  /** A stored key after the requested one whose table has a truthy rate for `to`. */
  predicate IsNextCandidate(cache: RateCache, k: string, key: string, to: Currency) {
    k in cache && StrLess(key, k) && HasRate(cache[k], to)
  }

  /** The scan of the sorted keys for the first candidate. */
  function ScanNext(cache: RateCache, keys: seq<string>, key: string, to: Currency): (found: Option<string>)
    ensures found.Some? ==> found.value in keys && IsNextCandidate(cache, found.value, key, to)
  {
    if keys == [] then None
    else if IsNextCandidate(cache, keys[0], key, to) then Some(keys[0])
    else ScanNext(cache, keys[1..], key, to)
  }

  /** The offline branch: next available date, else last known date, else rejection. */
  ghost function Fallback(cache: RateCache, from: Currency, to: Currency, key: string): RateResult {
    var keys := SortedKeys(KeysStartingWith(cache, from));
    if |keys| == 0 then Rejected
    else
      match ScanNext(cache, keys, key, to)
      case Some(k) => Resolved(NextAvailableDate, Some(cache[k][to]))
      case None =>
        assert keys[|keys| - 1] in KeysStartingWith(cache, from);
        Resolved(LastKnownDate, Get(cache[keys[|keys| - 1]], to))
  }

  /**
   * One call of `getConversionRate` on the store `cache` when the rate
   * service would answer `fetched`: the result and the store afterwards.
   */
  ghost function ConversionRate(cache: RateCache, from: Currency, to: Currency, date: Date, fetched: FetchOutcome)
    : (RateResult, RateCache)
  {
    if from == to then (Resolved(NoConversionRequired, Some(1.0)), cache)
    else
      var key := DateKey(from, date);
      if key in cache && HasRate(cache[key], to) then
        (Resolved(FetchedFromCache, Some(cache[key][to])), cache)
      else if fetched.Response? && fetched.result == "success" then
        (Resolved(FetchedFromApi, Get(fetched.conversionRates, to)), cache[key := fetched.conversionRates])
      else
        (Fallback(cache, from, to, key), cache)
  }

  /** The offline branch as the source runs it: sort the keys, then scan them with an index. */
  method ScanFallback(cache: RateCache, from: Currency, to: Currency, key: string) returns (r: RateResult)
    ensures r == Fallback(cache, from, to, key)
  {
    var keys := SortKeys(KeysStartingWith(cache, from));
    if |keys| > 0 {
      var i := 0;
      while i < |keys|
        invariant 0 <= i <= |keys|
        invariant ScanNext(cache, keys, key, to) == ScanNext(cache, keys[i..], key, to)
      {
        assert keys[i] in KeysStartingWith(cache, from);
        assert keys[i..][0] == keys[i] && keys[i..][1..] == keys[i + 1..];
        if StrLess(key, keys[i]) && HasRate(cache[keys[i]], to) {
          return Resolved(NextAvailableDate, Some(cache[keys[i]][to]));
        }
        i := i + 1;
      }
      assert keys[|keys| - 1] in KeysStartingWith(cache, from);
      return Resolved(LastKnownDate, Get(cache[keys[|keys| - 1]], to));
    }
    return Rejected;
  }

  /** The browser's store of rate tables. */
  class ExchangeRateStore {
    var rates: RateCache

    constructor (initial: RateCache)
      ensures rates == initial
    {
      rates := initial;
    }

    /** `getConversionRate(from, to, date)`, the rate service answering `fetched` if it is asked. */
    method GetConversionRate(from: Currency, to: Currency, date: Date, fetched: FetchOutcome) returns (r: RateResult)
      modifies this
      ensures (r, rates) == ConversionRate(old(rates), from, to, date, fetched)
    {
      if from == to {
        return Resolved(NoConversionRequired, Some(1.0));
      }
      var key := DateKey(from, date);
      if key in rates && HasRate(rates[key], to) {
        return Resolved(FetchedFromCache, Some(rates[key][to]));
      }
      if fetched.Response? && fetched.result == "success" {
        rates := rates[key := fetched.conversionRates];
        return Resolved(FetchedFromApi, Get(fetched.conversionRates, to));
      }
      r := ScanFallback(rates, from, to, key);
    }
  }
}
