/** What `getConversionRate` guarantees, stated over the model of one call. */
module ConversionRateProperties {
  import opened Wrappers
  import opened JsStrings
  import opened JsSort
  import opened Domain
  import opened ConversionRates

  /** On sorted keys the scan stops at the least candidate, and finds none only if there is none. */
  lemma {:induction false} ScanNextFindsLeast(cache: RateCache, keys: seq<string>, key: string, to: Currency)
    requires StrictlySorted(keys)
    ensures ScanNext(cache, keys, key, to).Some? ==>
      forall k :: k in keys && IsNextCandidate(cache, k, key, to) ==>
        k == ScanNext(cache, keys, key, to).value || StrLess(ScanNext(cache, keys, key, to).value, k)
    ensures ScanNext(cache, keys, key, to).None? <==> forall k :: k in keys ==> !IsNextCandidate(cache, k, key, to)
    decreases |keys|
  {
    if keys != [] {
      var rest := keys[1..];
      assert StrictlySorted(rest) by {
        forall i, j | 0 <= i < j < |rest| ensures StrLess(rest[i], rest[j]) {
          assert rest[i] == keys[i + 1] && rest[j] == keys[j + 1];
        }
      }
      ScanNextFindsLeast(cache, rest, key, to);
      forall k | k in keys && k != keys[0]
        ensures k in rest && StrLess(keys[0], k)
      {
        var j :| 0 <= j < |keys| && keys[j] == k;
        assert rest[j - 1] == k;
      }
    }
  }

  /** The three outcomes of the offline branch and when each occurs. */
  lemma FallbackOutcome(cache: RateCache, from: Currency, to: Currency, key: string)
    ensures Fallback(cache, from, to, key).Rejected? <==> KeysStartingWith(cache, from) == {}
    ensures (Fallback(cache, from, to, key).Resolved? && Fallback(cache, from, to, key).status == NextAvailableDate)
      <==> exists k :: k in KeysStartingWith(cache, from) && IsNextCandidate(cache, k, key, to)
    ensures (Fallback(cache, from, to, key).Resolved? && Fallback(cache, from, to, key).status == LastKnownDate)
      <==> KeysStartingWith(cache, from) != {} && forall k :: k in KeysStartingWith(cache, from) ==> !IsNextCandidate(cache, k, key, to)
  {
    var keys := SortedKeys(KeysStartingWith(cache, from));
    ScanNextFindsLeast(cache, keys, key, to);
    if KeysStartingWith(cache, from) != {} {
      var k0 :| k0 in KeysStartingWith(cache, from);
      assert k0 in keys;
    }
  }

  /** With a candidate, the offline branch returns the rate of the least candidate key. */
  lemma FallbackNextAvailable(cache: RateCache, from: Currency, to: Currency, key: string, k: string)
    requires k in KeysStartingWith(cache, from) && IsNextCandidate(cache, k, key, to)
    requires forall k' :: k' in KeysStartingWith(cache, from) && IsNextCandidate(cache, k', key, to) ==> k' == k || StrLess(k, k')
    ensures Fallback(cache, from, to, key) == Resolved(NextAvailableDate, Some(cache[k][to]))
  {
    var keys := SortedKeys(KeysStartingWith(cache, from));
    ScanNextFindsLeast(cache, keys, key, to);
    assert k in keys;
    var found := ScanNext(cache, keys, key, to).value;
    if found != k {
      StrLessAsymmetric(k, found);
    }
  }

  /** Without a candidate, the offline branch returns the entry of the greatest key, possibly undefined. */
  lemma FallbackLastKnown(cache: RateCache, from: Currency, to: Currency, key: string, g: string)
    requires g in KeysStartingWith(cache, from)
    requires forall k :: k in KeysStartingWith(cache, from) ==> k == g || StrLess(k, g)
    requires forall k :: k in KeysStartingWith(cache, from) ==> !IsNextCandidate(cache, k, key, to)
    ensures Fallback(cache, from, to, key) == Resolved(LastKnownDate, Get(cache[g], to))
  {
    NoCandidateScansToNone(cache, from, to, key);
    GreatestKeyIsLast(cache, from, g);
  }

  lemma NoCandidateScansToNone(cache: RateCache, from: Currency, to: Currency, key: string)
    requires forall k :: k in KeysStartingWith(cache, from) ==> !IsNextCandidate(cache, k, key, to)
    ensures ScanNext(cache, SortedKeys(KeysStartingWith(cache, from)), key, to) == None
  {
    ScanNextFindsLeast(cache, SortedKeys(KeysStartingWith(cache, from)), key, to);
  }

  lemma GreatestKeyIsLast(cache: RateCache, from: Currency, g: string)
    requires g in KeysStartingWith(cache, from)
    requires forall k :: k in KeysStartingWith(cache, from) ==> k == g || StrLess(k, g)
    ensures |SortedKeys(KeysStartingWith(cache, from))| > 0
    ensures SortedKeys(KeysStartingWith(cache, from))[|SortedKeys(KeysStartingWith(cache, from))| - 1] == g
  {
    LastKeyIsGreatest(SortedKeys(KeysStartingWith(cache, from)), g);
  }

  /** In a strictly sorted list, an element no smaller than all others is the last one. */
  lemma LastKeyIsGreatest(keys: seq<string>, g: string)
    requires StrictlySorted(keys) && g in keys
    requires forall k :: k in keys ==> k == g || StrLess(k, g)
    ensures keys[|keys| - 1] == g
  {
    var n := |keys|;
    var last := keys[n - 1];
    if last != g {
      var j :| 0 <= j < n && keys[j] == g;
      assert StrLess(g, last);
      StrLessAsymmetric(g, last);
      assert false;
    }
  }

  /** Same currency: rate 1, the store untouched, whatever the store or the rate service hold. */
  lemma IdentityShortCircuit(cache: RateCache, other: RateCache, from: Currency, date: Date, fetched: FetchOutcome, otherFetch: FetchOutcome)
    ensures ConversionRate(cache, from, from, date, fetched) == (Resolved(NoConversionRequired, Some(1.0)), cache)
    ensures ConversionRate(other, from, from, date, otherFetch).0 == ConversionRate(cache, from, from, date, fetched).0
  {
  }

  /** A truthy stored rate for the key is returned as it is, without a fetch and without a write. */
  lemma CacheHit(cache: RateCache, from: Currency, to: Currency, date: Date, fetched: FetchOutcome)
    requires from != to
    requires DateKey(from, date) in cache && HasRate(cache[DateKey(from, date)], to)
    ensures ConversionRate(cache, from, to, date, fetched)
      == (Resolved(FetchedFromCache, Some(cache[DateKey(from, date)][to])), cache)
  {
  }

  /** A zero stored rate counts as a miss: the rate service is asked. */
  lemma ZeroRateIsAMiss(cache: RateCache, from: Currency, to: Currency, date: Date, table: RateTable)
    requires from != to
    requires DateKey(from, date) in cache && to in cache[DateKey(from, date)] && cache[DateKey(from, date)][to] == 0.0
    ensures ConversionRate(cache, from, to, date, Response("success", table)).0 == Resolved(FetchedFromApi, Get(table, to))
  {
  }

  /** A successful fetch stores the whole table under the key, changes no other key, and returns `table[to]`. */
  lemma FetchWritesThrough(cache: RateCache, from: Currency, to: Currency, date: Date, table: RateTable)
    requires from != to
    requires !(DateKey(from, date) in cache && HasRate(cache[DateKey(from, date)], to))
    ensures ConversionRate(cache, from, to, date, Response("success", table)).0 == Resolved(FetchedFromApi, Get(table, to))
    ensures ConversionRate(cache, from, to, date, Response("success", table)).1 == cache[DateKey(from, date) := table]
    ensures forall k :: k != DateKey(from, date) ==>
      (k in ConversionRate(cache, from, to, date, Response("success", table)).1 <==> k in cache)
  {
  }

  /** A network error or a non-"success" answer leaves the store as it was and falls back to the stored tables. */
  lemma FetchFailureFallsBack(cache: RateCache, from: Currency, to: Currency, date: Date, fetched: FetchOutcome)
    requires from != to
    requires !(DateKey(from, date) in cache && HasRate(cache[DateKey(from, date)], to))
    requires !(fetched.Response? && fetched.result == "success")
    ensures ConversionRate(cache, from, to, date, fetched) == (Fallback(cache, from, to, DateKey(from, date)), cache)
  {
  }

  /** After a successful fetch, asking for any truthy rate of the fetched table on that date is a cache hit. */
  lemma WriteThroughThenCacheHit(cache: RateCache, from: Currency, to: Currency, date: Date, table: RateTable,
                                 other: Currency, fetched: FetchOutcome)
    requires from != to && from != other
    requires !(DateKey(from, date) in cache && HasRate(cache[DateKey(from, date)], to))
    requires HasRate(table, other)
    ensures var after := ConversionRate(cache, from, to, date, Response("success", table)).1;
      ConversionRate(after, from, other, date, fetched) == (Resolved(FetchedFromCache, Some(table[other])), after)
  {
  }

  /** Once a table for a currency is stored, no later lookup from that currency is rejected. */
  lemma {:induction false} StoredCurrencyNeverRejected(cache: RateCache, from: Currency, to: Currency, date: Date, fetched: FetchOutcome)
    requires KeysStartingWith(cache, from) != {}
    ensures ConversionRate(cache, from, to, date, fetched).0 != Rejected
  {
    if from != to {
      FallbackOutcome(cache, from, to, DateKey(from, date));
    }
  }

  /** A successful fetch for `from` keeps every later lookup from `from` from being rejected, on any date. */
  lemma {:induction false} FetchedCurrencyNeverRejected(cache: RateCache, from: Currency, to: Currency, date: Date,
                                                        table: RateTable, other: Currency, laterDate: Date, fetched: FetchOutcome)
    requires from != to
    requires !(DateKey(from, date) in cache && HasRate(cache[DateKey(from, date)], to))
    ensures var after := ConversionRate(cache, from, to, date, Response("success", table)).1;
      ConversionRate(after, from, other, laterDate, fetched).0 != Rejected
  {
    var key := DateKey(from, date);
    var after := cache[key := table];
    assert key[..|from|] == (key[..|from + "/"|])[..|from|];
    assert key in KeysStartingWith(after, from);
    StoredCurrencyNeverRejected(after, from, other, laterDate, fetched);
  }

  lemma {:induction false} Key2024()
    ensures IntToString(2024) == "2024"
  {
    assert NatToString(2) == "2";
    assert NatToString(20) == NatToString(2) + "0";
    assert NatToString(202) == NatToString(20) + "2";
    assert NatToString(2024) == NatToString(202) + "4";
  }

  lemma KeyOctober10()
    ensures DateKey("USD", Date(2024, 9, 10)) == "USD/2024/9/10"
  {
    Key2024();
    assert NatToString(10) == "10";
  }

  lemma KeyJanuary2()
    ensures DateKey("USD", Date(2024, 0, 2)) == "USD/2024/0/2"
  {
    Key2024();
  }

  /**
   * Dates are compared as strings. Asked for 10 October 2024 (key
   * "USD/2024/9/10") while offline, with tables stored for 3 and 8 October,
   * the lookup reports the 3 October rate as the "next available date",
   * since "USD/2024/9/3" sorts after "USD/2024/9/10".
   */
  lemma LexicographicNextAvailable()
    ensures var cache := map["USD/2024/9/3" := map["INR" := 83.0], "USD/2024/9/8" := map["INR" := 84.0]];
      ConversionRate(cache, "USD", "INR", Date(2024, 9, 10), NetworkError) == (Resolved(NextAvailableDate, Some(83.0)), cache)
  {
    var cache := map["USD/2024/9/3" := map["INR" := 83.0], "USD/2024/9/8" := map["INR" := 84.0]];
    KeyOctober10();
    OfflineLookup(cache, "INR", Date(2024, 9, 10), "USD/2024/9/10");
    LexicographicFallback(cache);
  }

  lemma LexicographicFallback(cache: RateCache)
    requires cache == map["USD/2024/9/3" := map["INR" := 83.0], "USD/2024/9/8" := map["INR" := 84.0]]
    ensures Fallback(cache, "USD", "INR", "USD/2024/9/10") == Resolved(NextAvailableDate, Some(83.0))
  {
    OctoberKeyOrder();
    OctoberPrefixes();
    FirstOfTwoKeys(cache, "USD", "INR", "USD/2024/9/10", "USD/2024/9/3", "USD/2024/9/8");
  }

  /** A USD lookup on a date whose key is not stored, with the network down, is decided by the offline branch. */
  lemma OfflineLookup(cache: RateCache, to: Currency, date: Date, key: string)
    requires "USD" != to && DateKey("USD", date) == key && key !in cache
    ensures ConversionRate(cache, "USD", to, date, NetworkError) == (Fallback(cache, "USD", to, key), cache)
  {
    FetchFailureFallsBack(cache, "USD", to, date, NetworkError);
  }

  /** Two stored keys for the currency, both after the request: the smaller one is the next available date. */
  lemma FirstOfTwoKeys(cache: RateCache, from: Currency, to: Currency, key: string, a: string, b: string)
    requires cache.Keys == {a, b}
    requires StartsWith(a, from) && StartsWith(b, from)
    requires StrLess(key, a) && StrLess(a, b) && HasRate(cache[a], to)
    ensures Fallback(cache, from, to, key) == Resolved(NextAvailableDate, Some(cache[a][to]))
  {
    assert KeysStartingWith(cache, from) == {a, b};
    FallbackNextAvailable(cache, from, to, key, a);
  }

  /** One stored key for the currency, not after the request: it is the last known date. */
  lemma OnlyEarlierKey(cache: RateCache, from: Currency, to: Currency, key: string, a: string)
    requires cache.Keys == {a}
    requires StartsWith(a, from) && !StrLess(key, a)
    ensures Fallback(cache, from, to, key) == Resolved(LastKnownDate, Get(cache[a], to))
  {
    assert KeysStartingWith(cache, from) == {a};
    FallbackLastKnown(cache, from, to, key, a);
  }

  /** Asked for 2 January 2024 while offline, with only 1 January stored, the lookup returns the last known rate. */
  lemma LastKnownDateScenario()
    ensures var cache := map["USD/2024/0/1" := map["INR" := 83.0]];
      ConversionRate(cache, "USD", "INR", Date(2024, 0, 2), NetworkError) == (Resolved(LastKnownDate, Some(83.0)), cache)
  {
    var cache := map["USD/2024/0/1" := map["INR" := 83.0]];
    KeyJanuary2();
    OfflineLookup(cache, "INR", Date(2024, 0, 2), "USD/2024/0/2");
    LastKnownFallback(cache);
  }

  lemma LastKnownFallback(cache: RateCache)
    requires cache == map["USD/2024/0/1" := map["INR" := 83.0]]
    ensures Fallback(cache, "USD", "INR", "USD/2024/0/2") == Resolved(LastKnownDate, Some(83.0))
  {
    JanuaryKeyOrder();
    assert StartsWith("USD/2024/0/1", "USD");
    SingleEarlierKey(cache, "USD/2024/0/1", "USD/2024/0/2", 83.0);
  }

  lemma SingleEarlierKey(cache: RateCache, a: string, key: string, rate: real)
    requires cache == map[a := map["INR" := rate]]
    requires StartsWith(a, "USD") && !StrLess(key, a)
    ensures Fallback(cache, "USD", "INR", key) == Resolved(LastKnownDate, Some(rate))
  {
    assert cache.Keys == {a};
    OnlyEarlierKey(cache, "USD", "INR", key, a);
  }

  lemma OctoberKeyOrder()
    ensures StrLess("USD/2024/9/10", "USD/2024/9/3") && StrLess("USD/2024/9/3", "USD/2024/9/8")
  {
    OctoberKeyStep("10", "3");
    OctoberKeyStep("3", "8");
  }

  lemma OctoberKeyStep(a: string, b: string)
    requires StrLess(a, b)
    ensures StrLess("USD/2024/9/" + a, "USD/2024/9/" + b)
  {
    StrLessCommonPrefix("USD/2024/9/", a, b);
  }

  lemma OctoberPrefixes()
    ensures StartsWith("USD/2024/9/3", "USD") && StartsWith("USD/2024/9/8", "USD")
  {
  }

  lemma JanuaryKeyOrder()
    ensures StrLess("USD/2024/0/1", "USD/2024/0/2") && !StrLess("USD/2024/0/2", "USD/2024/0/1")
  {
    var p := "USD/2024/0/";
    assert p + "2" == "USD/2024/0/2" && p + "1" == "USD/2024/0/1";
    StrLessCommonPrefix(p, "1", "2");
    StrLessAsymmetric("USD/2024/0/1", "USD/2024/0/2");
  }
}
