/** Sums of amounts, as `reduce((total, x) => total + x, 0)` computes them, and the algebra the totals need. */
module Sums {

  /** The left-to-right sum of `xs`. */
  function Sum(xs: seq<real>): real {
    if |xs| == 0 then 0.0 else Sum(xs[..|xs| - 1]) + xs[|xs| - 1]
  }

  lemma SumSnoc(xs: seq<real>, x: real)
    ensures Sum(xs + [x]) == Sum(xs) + x
  {
    assert (xs + [x])[..|xs|] == xs;
  }

  /** Scaling every amount by `c` scales the sum by `c`. */
  lemma {:induction false} SumScale(xs: seq<real>, ys: seq<real>, c: real)
    requires |ys| == |xs|
    requires forall i :: 0 <= i < |xs| ==> ys[i] == xs[i] * c
    ensures Sum(ys) == Sum(xs) * c
  {
    if |xs| > 0 {
      var n := |xs| - 1;
      SumScale(xs[..n], ys[..n], c);
    }
  }

  /** Fractions over one denominator add up by their numerators. */
  lemma AddOverSame(a: real, b: real, t: real)
    requires t != 0.0
    ensures a / t + b / t == (a + b) / t
  {
  }

  /** A nonzero amount over itself is one. */
  lemma OverItself(t: real)
    requires t != 0.0
    ensures t / t == 1.0
  {
  }

  /** The sum of a prefix one longer adds the next amount. */
  lemma SumPrefixStep(xs: seq<real>, n: nat)
    requires n < |xs|
    ensures Sum(xs[..n + 1]) == Sum(xs[..n]) + xs[n]
  {
    assert xs[..n + 1][..n] == xs[..n];
  }

  /** Adding two lists of amounts pointwise adds their sums. */
  lemma {:induction false} SumAdd(xs: seq<real>, ys: seq<real>, zs: seq<real>)
    requires |ys| == |xs| && |zs| == |xs|
    requires forall i :: 0 <= i < |xs| ==> zs[i] == xs[i] + ys[i]
    ensures Sum(zs) == Sum(xs) + Sum(ys)
  {
    if |xs| > 0 {
      var n := |xs| - 1;
      SumAdd(xs[..n], ys[..n], zs[..n]);
    }
  }

  /** Every row of `m` has `n` entries. */
  ghost predicate Rectangular(m: seq<seq<real>>, n: nat) {
    forall j :: 0 <= j < |m| ==> |m[j]| == n
  }

  /** The sum of each row. */
  function RowSums(m: seq<seq<real>>): (s: seq<real>)
    ensures |s| == |m| && forall j :: 0 <= j < |m| ==> s[j] == Sum(m[j])
  {
    seq(|m|, j requires 0 <= j < |m| => Sum(m[j]))
  }

  /** Column `r` of a rectangular `m`. */
  function Column(m: seq<seq<real>>, n: nat, r: nat): (c: seq<real>)
    requires Rectangular(m, n) && r < n
    ensures |c| == |m| && forall j :: 0 <= j < |m| ==> c[j] == m[j][r]
  {
    seq(|m|, j requires 0 <= j < |m| => m[j][r])
  }

  /** The sum of each column of a rectangular `m`. */
  function ColumnSums(m: seq<seq<real>>, n: nat): (s: seq<real>)
    requires Rectangular(m, n)
    ensures |s| == n && forall r :: 0 <= r < n ==> s[r] == Sum(Column(m, n, r))
  {
    seq(n, r requires 0 <= r < n => Sum(Column(m, n, r)))
  }

  /** The column sums of a grid with no rows are all zero. */
  lemma ColumnSumsOfNoRows(m: seq<seq<real>>, n: nat)
    requires |m| == 0
    ensures Sum(ColumnSums(m, n)) == 0.0
  {
    var zeros := seq(n, r => 0.0);
    SumScale(zeros, ColumnSums(m, n), 0.0);
  }

  /** Adding a row to a grid adds it, entry by entry, to the column sums. */
  lemma ColumnSumsOfLastRow(m: seq<seq<real>>, n: nat)
    requires Rectangular(m, n) && |m| > 0
    ensures Sum(ColumnSums(m, n)) == Sum(ColumnSums(m[..|m| - 1], n)) + Sum(m[|m| - 1])
  {
    var front := m[..|m| - 1];
    var last := m[|m| - 1];
    forall r | 0 <= r < n
      ensures ColumnSums(m, n)[r] == ColumnSums(front, n)[r] + last[r]
    {
      assert Column(m, n, r) == Column(front, n, r) + [last[r]];
      SumSnoc(Column(front, n, r), last[r]);
    }
    SumAdd(ColumnSums(front, n), last, ColumnSums(m, n));
  }

  /** Adding up row totals and adding up column totals give the same grand total. */
  lemma {:induction false} SumSwap(m: seq<seq<real>>, n: nat)
    requires Rectangular(m, n)
    ensures Sum(RowSums(m)) == Sum(ColumnSums(m, n))
  {
    if |m| == 0 {
      ColumnSumsOfNoRows(m, n);
    } else {
      var k := |m| - 1;
      SumSwap(m[..k], n);
      assert RowSums(m) == RowSums(m[..k]) + [Sum(m[k])];
      SumSnoc(RowSums(m[..k]), Sum(m[k]));
      ColumnSumsOfLastRow(m, n);
    }
  }
}
