/**
 * Value-level helpers for the dense grids a BRMatrix stores: a sequence of
 * rows, each a sequence of reals.
 */
module Grids {

  /** `g` has exactly `r` rows of exactly `c` entries. */
  ghost predicate IsGrid(g: seq<seq<real>>, r: nat, c: nat) {
    |g| == r && forall i :: 0 <= i < r ==> |g[i]| == c
  }

  /** All rows of `g` have the same length. */
  ghost predicate Rectangular(g: seq<seq<real>>) {
    forall i, j :: 0 <= i < |g| && 0 <= j < |g| ==> |g[i]| == |g[j]|
  }

  /** std::vector<double>::resize: keeps the common prefix, pads with zeros. */
  function Resize(row: seq<real>, n: nat): (r: seq<real>)
    ensures |r| == n
    ensures forall k :: 0 <= k < n && k < |row| ==> r[k] == row[k]
    ensures forall k :: |row| <= k < n ==> r[k] == 0.0
  {
    if n <= |row| then row[..n] else row + seq(n - |row|, _ => 0.0)
  }

  /** The r-by-c grid of zeros. */
  function Zeros(r: nat, c: nat): (g: seq<seq<real>>)
    ensures IsGrid(g, r, c)
    ensures forall i, j :: 0 <= i < r && 0 <= j < c ==> g[i][j] == 0.0
  {
    seq(r, _ => seq(c, _ => 0.0))
  }

  /** The n-by-n identity grid. */
  function Identity(n: nat): (g: seq<seq<real>>)
    ensures IsGrid(g, n, n)
    ensures forall i, j :: 0 <= i < n && 0 <= j < n ==> g[i][j] == (if i == j then 1.0 else 0.0)
  {
    seq(n, i => seq(n, j => if i == j then 1.0 else 0.0))
  }

  /** Column `c` of a grid whose rows are all long enough. */
  function Column(g: seq<seq<real>>, c: nat): (v: seq<real>)
    requires forall i :: 0 <= i < |g| ==> c < |g[i]|
    ensures |v| == |g| && forall i :: 0 <= i < |g| ==> v[i] == g[i][c]
  {
    seq(|g|, i requires 0 <= i < |g| => g[i][c])
  }

  /** The partial dot product of `r` and `x` over the indices lo..hi-1. */
  function SumProducts(r: seq<real>, x: seq<real>, lo: nat, hi: nat): real
    requires hi <= |r| && hi <= |x|
    decreases hi
  {
    if hi <= lo then 0.0 else SumProducts(r, x, lo, hi - 1) + r[hi - 1] * x[hi - 1]
  }

  /** A dot product splits at any middle index. */
  lemma {:induction false} SumSplit(r: seq<real>, x: seq<real>, lo: nat, mid: nat, hi: nat)
    requires lo <= mid <= hi && hi <= |r| && hi <= |x|
    ensures SumProducts(r, x, lo, hi) == SumProducts(r, x, lo, mid) + SumProducts(r, x, mid, hi)
    decreases hi
  {
    if hi > mid {
      SumSplit(r, x, lo, mid, hi - 1);
    }
  }

  /** Only the entries inside the range matter. */
  lemma {:induction false} SumAgree(r1: seq<real>, r2: seq<real>, x1: seq<real>, x2: seq<real>, lo: nat, hi: nat)
    requires hi <= |r1| && hi <= |x1| && hi <= |r2| && hi <= |x2|
    requires forall k :: lo <= k < hi ==> r1[k] == r2[k] && x1[k] == x2[k]
    ensures SumProducts(r1, x1, lo, hi) == SumProducts(r2, x2, lo, hi)
    decreases hi
  {
    if hi > lo {
      SumAgree(r1, r2, x1, x2, lo, hi - 1);
    }
  }

  /** Zero coefficients give a zero sum, whatever the other factor. */
  lemma {:induction false} SumZeroCoefficients(r: seq<real>, x: seq<real>, lo: nat, hi: nat)
    requires hi <= |r| && hi <= |x|
    requires forall k :: lo <= k < hi ==> r[k] == 0.0
    ensures SumProducts(r, x, lo, hi) == 0.0
    decreases hi
  {
    if hi > lo {
      SumZeroCoefficients(r, x, lo, hi - 1);
    }
  }

  /** Entry (i, j) of the product of `a` and `b`, summed over k < n. */
  function CellSum(a: seq<seq<real>>, b: seq<seq<real>>, i: nat, j: nat, n: nat): real
    requires i < |a| && n <= |a[i]| && n <= |b|
    requires forall k :: 0 <= k < n ==> j < |b[k]|
  {
    if n == 0 then 0.0 else CellSum(a, b, i, j, n - 1) + a[i][n - 1] * b[n - 1][j]
  }
}
