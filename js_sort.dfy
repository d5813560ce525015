/**
 * `Array.prototype.sort()` without a comparator, applied to a list of
 * distinct strings: the result is the unique strictly increasing
 * arrangement of those strings under the JavaScript string order.
 */
module JsSort {
  import opened JsStrings

  /** Strictly increasing under JavaScript's `<` on strings. */
  ghost predicate StrictlySorted(s: seq<string>) {
    forall i, j :: 0 <= i < j < |s| ==> StrLess(s[i], s[j])
  }

  lemma {:induction false} LeastExists(s: set<string>)
    requires s != {}
    ensures exists m :: m in s && forall x :: x in s && x != m ==> StrLess(m, x)
    decreases |s|
  {
    var y :| y in s;
    if s != {y} {
      var rest := s - {y};
      LeastExists(rest);
      var m :| m in rest && forall x :: x in rest && x != m ==> StrLess(m, x);
      StrLessTotal(y, m);
      if StrLess(y, m) {
        forall x | x in s && x != y
          ensures StrLess(y, x)
        {
          if x != m {
            StrLessTransitive(y, m, x);
          }
        }
      } else {
        assert forall x :: x in s && x != m ==> StrLess(m, x);
      }
    }
  }

  /** The smallest string of a non-empty set. */
  ghost function Least(s: set<string>): (m: string)
    requires s != {}
    ensures m in s
    ensures forall x :: x in s && x != m ==> StrLess(m, x)
  {
    LeastExists(s);
    var m :| m in s && forall x :: x in s && x != m ==> StrLess(m, x);
    m
  }

  /** The keys of `s` in the order `sort()` leaves them. */
  ghost function SortedKeys(s: set<string>): (r: seq<string>)
    ensures StrictlySorted(r)
    ensures forall k :: k in r <==> k in s
    ensures |r| == |s|
    decreases |s|
  {
    if s == {} then []
    else
      var m := Least(s);
      var rest := SortedKeys(s - {m});
      assert forall j :: 0 <= j < |rest| ==> rest[j] in s - {m} && StrLess(m, rest[j]);
      [m] + rest
  }

  /** Two strictly sorted lists with the same elements are the same list. */
  lemma {:induction false} SortedUnique(a: seq<string>, b: seq<string>)
    requires StrictlySorted(a) && StrictlySorted(b)
    requires forall k :: k in a <==> k in b
    ensures a == b
    decreases |a|
  {
    if a != [] {
      assert a[0] in b;
    }
    if b != [] {
      assert b[0] in a;
    }
    if a != [] && b != [] {
      if a[0] != b[0] {
        var i :| 0 <= i < |b| && b[i] == a[0];
        var j :| 0 <= j < |a| && a[j] == b[0];
        assert StrLess(a[0], a[j]);
        assert StrLess(b[0], b[i]);
        StrLessAsymmetric(a[0], b[0]);
        assert false;
      }
      forall k
        ensures k in a[1..] <==> k in b[1..]
      {
        if k in a[1..] {
          var i :| 1 <= i < |a| && a[i] == k;
          assert StrLess(a[0], k);
          StrLessIrreflexive(k);
          assert k in b;
        }
        if k in b[1..] {
          var i :| 1 <= i < |b| && b[i] == k;
          assert StrLess(b[0], k);
          StrLessIrreflexive(k);
          assert k in a;
        }
      }
      SortedUnique(a[1..], b[1..]);
      assert a == [a[0]] + a[1..] && b == [b[0]] + b[1..];
    }
  }

  /** Puts `k` at its place in a strictly sorted list. */
  method InsertSorted(s: seq<string>, k: string) returns (r: seq<string>)
    requires StrictlySorted(s) && k !in s
    ensures StrictlySorted(r)
    ensures forall x :: x in r <==> x in s || x == k
    ensures |r| == |s| + 1
  {
    var i := 0;
    while i < |s| && StrLess(s[i], k)
      invariant 0 <= i <= |s|
      invariant forall j :: 0 <= j < i ==> StrLess(s[j], k)
    {
      i := i + 1;
    }
    r := s[..i] + [k] + s[i..];
    forall a, b | 0 <= a < b < |r|
      ensures StrLess(r[a], r[b])
    {
      if b == i {
        assert r[a] == s[a];
      } else if a == i {
        assert r[b] == s[b - 1];
        StrLessTotal(k, s[i]);
        if b - 1 > i {
          StrLessTransitive(k, s[i], s[b - 1]);
        }
      } else if a < i && b > i {
        assert r[a] == s[a] && r[b] == s[b - 1];
      } else if a > i {
        assert r[a] == s[a - 1] && r[b] == s[b - 1];
      }
    }
    assert s == s[..i] + s[i..];
  }

  /** Lists the keys of a set in sorted order, one insertion at a time. */
  method SortKeys(keys: set<string>) returns (sorted: seq<string>)
    ensures sorted == SortedKeys(keys)
  {
    sorted := [];
    var remaining := keys;
    while remaining != {}
      invariant StrictlySorted(sorted)
      invariant remaining <= keys
      invariant forall k :: k in sorted <==> k in keys && k !in remaining
      decreases |remaining|
    {
      var k :| k in remaining;
      sorted := InsertSorted(sorted, k);
      remaining := remaining - {k};
    }
    SortedUnique(sorted, SortedKeys(keys));
  }
}
