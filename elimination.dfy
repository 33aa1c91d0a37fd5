/**
 * The mathematics of BRMatrix::solve as functions on values: Gaussian
 * elimination with partial pivoting and a fixed singularity tolerance,
 * followed by back substitution. The method in br_matrix.dfy is proved to
 * compute exactly these functions; the lemmas here prove that, over exact
 * arithmetic, a successful run yields a solution of the original system.
 */
module Elimination {
  import opened HostMath
  import opened Grids

  /** A pivot whose magnitude is below this value makes the solve fail. */
  const Tolerance: real := 0.0001

  /**
   * The three buffers the solver works on: the matrix (changed in place),
   * the right-hand side (a private copy) and the first n entries of the
   * caller's output buffer, which also serve as scratch space while rows
   * are swapped. The solver never touches the output buffer beyond them.
   */
  datatype State = State(a: seq<seq<real>>, y: seq<real>, w: seq<real>)

  /** The buffers fit an n-by-n system. */
  ghost predicate Shaped(st: State, n: nat) {
    IsGrid(st.a, n, n) && |st.y| >= n && |st.w| == n
  }

  /** x solves the first n equations of a * x = y. */
  ghost predicate Solves(a: seq<seq<real>>, y: seq<real>, x: seq<real>, n: nat)
    requires IsGrid(a, n, n) && |y| >= n && |x| >= n
  {
    forall r {:trigger SumProducts(a[r], x, 0, n)} :: 0 <= r < n ==> SumProducts(a[r], x, 0, n) == y[r]
  }

  /**
   * The pivot search over rows i..j-1 of column i: the first row whose
   * entry has the largest magnitude.
   */
  function PivotScan(a: seq<seq<real>>, n: nat, i: nat, j: nat): (p: nat)
    requires IsGrid(a, n, n) && i < j <= n
    ensures i <= p < j
    decreases j
  {
    if j == i + 1 then i
    else
      var p := PivotScan(a, n, i, j - 1);
      if Abs(a[p][i]) < Abs(a[j - 1][i]) then j - 1 else p
  }

  /** The pivot has the largest magnitude in its column, and no earlier row ties with it. */
  lemma {:induction false} PivotScanMaximal(a: seq<seq<real>>, n: nat, i: nat, j: nat)
    requires IsGrid(a, n, n) && i < j <= n
    ensures var p := PivotScan(a, n, i, j);
      && (forall k :: i <= k < j ==> Abs(a[k][i]) <= Abs(a[p][i]))
      && (forall k :: i <= k < p ==> Abs(a[k][i]) < Abs(a[p][i]))
    decreases j
  {
    if j > i + 1 {
      PivotScanMaximal(a, n, i, j - 1);
    }
  }

  /** Rows i and p and the entries i and p of y trade places; w keeps the old row p. */
  function SwapRows(st: State, n: nat, i: nat, p: nat): (r: State)
    requires Shaped(st, n) && i < n && p < n
    ensures Shaped(r, n)
  {
    State(st.a[i := st.a[p]][p := st.a[i]], st.y[i := st.y[p]][p := st.y[i]], st.a[p])
  }

  /** Row r minus mult times row q. */
  function SubRow(r: seq<real>, q: seq<real>, mult: real): (s: seq<real>)
    requires |q| >= |r|
    ensures |s| == |r| && forall k :: 0 <= k < |r| ==> s[k] == r[k] - mult * q[k]
  {
    seq(|r|, k requires 0 <= k < |r| => r[k] - mult * q[k])
  }

  /** The multiplier that clears entry (j, i) against the pivot row i. */
  function Multiplier(a: seq<seq<real>>, n: nat, i: nat, j: nat): real
    requires IsGrid(a, n, n) && i < n && j < n && a[i][i] != 0.0
  {
    a[j][i] / a[i][i]
  }

  /** Clears entry (j, i) by subtracting a multiple of row i from row j. */
  function EliminateRow(st: State, n: nat, i: nat, j: nat): (r: State)
    requires Shaped(st, n) && i < j < n && st.a[i][i] != 0.0
    ensures Shaped(r, n)
  {
    var mult := Multiplier(st.a, n, i, j);
    State(st.a[j := SubRow(st.a[j], st.a[i], mult)], st.y[j := st.y[j] - mult * st.y[i]], st.w)
  }

  /** Rows i+1..j-1 have been cleared against row i. */
  function EliminateBelow(st: State, n: nat, i: nat, j: nat): (r: State)
    requires Shaped(st, n) && i < j <= n && st.a[i][i] != 0.0
    ensures Shaped(r, n) && r.a[i] == st.a[i] && r.w == st.w
    decreases j
  {
    if j == i + 1 then st else EliminateRow(EliminateBelow(st, n, i, j - 1), n, i, j - 1)
  }

  /** Either the elimination is still going, or it stopped at a small pivot. */
  datatype Outcome = Running(st: State) | Singular(st: State)

  /** One column of the forward phase: pivot, swap, test, eliminate. */
  function Step(st: State, n: nat, i: nat): (r: Outcome)
    requires Shaped(st, n) && i < n
    ensures Shaped(r.st, n)
  {
    var p := PivotScan(st.a, n, i, n);
    var s := if p != i then SwapRows(st, n, i, p) else st;
    if Abs(s.a[i][i]) < Tolerance then Singular(s) else Running(EliminateBelow(s, n, i, n))
  }

  /** Column i of the forward phase, taken only while it is still running. */
  function Advance(o: Outcome, n: nat, i: nat): (r: Outcome)
    requires Shaped(o.st, n) && i < n
    ensures Shaped(r.st, n)
  {
    if o.Running? then Step(o.st, n, i) else o
  }

  /** Columns i..k-1 of the forward phase, starting from outcome o. */
  function Run(o: Outcome, n: nat, i: nat, k: nat): (r: Outcome)
    requires Shaped(o.st, n) && i <= k <= n
    ensures Shaped(r.st, n)
    decreases k - i
  {
    if i == k then o else Run(Advance(o, n, i), n, i + 1, k)
  }

  /** The forward phase over the first k columns. */
  function Forward(st: State, n: nat, k: nat): (r: Outcome)
    requires Shaped(st, n) && k <= n
    ensures Shaped(r.st, n)
  {
    Run(Running(st), n, 0, k)
  }

  /** Running one column further is advancing the outcome of the shorter run. */
  lemma {:induction false} RunLast(o: Outcome, n: nat, i: nat, k: nat)
    requires Shaped(o.st, n) && i <= k < n
    ensures Run(o, n, i, k + 1) == Advance(Run(o, n, i, k), n, k)
    decreases k - i
  {
    var o' := Advance(o, n, i);
    if i < k {
      RunLast(o', n, i + 1, k);
      assert Run(o, n, i, k) == Run(o', n, i + 1, k);
    } else {
      assert Run(o', n, k + 1, k + 1) == o';
    }
  }

  /** The forward phase over k columns is the one over k-1 columns advanced by column k-1. */
  lemma ForwardUnfold(st: State, n: nat, k: nat)
    requires Shaped(st, n) && 0 < k <= n
    ensures Forward(st, n, k) == Advance(Forward(st, n, k - 1), n, k - 1)
  {
    RunLast(Running(st), n, 0, k - 1);
  }

  /** The forward phase one column further, while it is still running. */
  lemma ForwardNext(st: State, n: nat, i: nat)
    requires Shaped(st, n) && i < n && Forward(st, n, i).Running?
    ensures Forward(st, n, i + 1) == Step(Forward(st, n, i).st, n, i)
  {
    ForwardUnfold(st, n, i + 1);
  }

  /** A step in terms of the state after the optional swap. */
  lemma StepUnfold(st: State, n: nat, i: nat, s: State)
    requires Shaped(st, n) && i < n
    requires var p := PivotScan(st.a, n, i, n);
      s == if p != i then SwapRows(st, n, i, p) else st
    ensures Shaped(s, n)
    ensures Step(st, n, i) == if Abs(s.a[i][i]) < Tolerance then Singular(s)
      else Running(EliminateBelow(s, n, i, n))
  {
  }

  /** Clearing below a pivot changes the matrix in a way that depends on the matrix alone. */
  lemma {:induction false} EliminateBelowMatrixOnly(st1: State, st2: State, n: nat, i: nat, j: nat)
    requires Shaped(st1, n) && Shaped(st2, n) && st1.a == st2.a && i < j <= n && st1.a[i][i] != 0.0
    ensures EliminateBelow(st1, n, i, j).a == EliminateBelow(st2, n, i, j).a
    decreases j
  {
    if j > i + 1 {
      EliminateBelowMatrixOnly(st1, st2, n, i, j - 1);
    }
  }

  /** One forward step's outcome and matrix depend on the matrix alone. */
  lemma StepMatrixOnly(st1: State, st2: State, n: nat, i: nat)
    requires Shaped(st1, n) && Shaped(st2, n) && st1.a == st2.a && i < n
    ensures Step(st1, n, i).Running? == Step(st2, n, i).Running?
    ensures Step(st1, n, i).st.a == Step(st2, n, i).st.a
  {
    var p := PivotScan(st1.a, n, i, n);
    var s1 := if p != i then SwapRows(st1, n, i, p) else st1;
    var s2 := if p != i then SwapRows(st2, n, i, p) else st2;
    StepUnfold(st1, n, i, s1);
    StepUnfold(st2, n, i, s2);
    assert s1.a == s2.a;
    if Abs(s1.a[i][i]) >= Tolerance {
      EliminateBelowMatrixOnly(s1, s2, n, i, n);
    }
  }

  /** One more column keeps two runs of the forward phase with the same matrix in step. */
  lemma AdvanceMatrixOnly(o1: Outcome, o2: Outcome, n: nat, i: nat)
    requires Shaped(o1.st, n) && Shaped(o2.st, n) && i < n
    requires o1.Running? == o2.Running? && o1.st.a == o2.st.a
    ensures Advance(o1, n, i).Running? == Advance(o2, n, i).Running?
    ensures Advance(o1, n, i).st.a == Advance(o2, n, i).st.a
  {
    if o1.Running? {
      StepMatrixOnly(o1.st, o2.st, n, i);
    }
  }

  /**
   * The forward phase's pivot choices and its stop at a small pivot depend
   * on the matrix alone: the right-hand side and the scratch buffer only
   * ride along.
   */
  lemma {:induction false} ForwardMatrixOnly(st1: State, st2: State, n: nat, k: nat)
    requires Shaped(st1, n) && Shaped(st2, n) && st1.a == st2.a && k <= n
    ensures Forward(st1, n, k).Running? == Forward(st2, n, k).Running?
    ensures Forward(st1, n, k).st.a == Forward(st2, n, k).st.a
  {
    if k > 0 {
      ForwardMatrixOnly(st1, st2, n, k - 1);
      var o1, o2 := Forward(st1, n, k - 1), Forward(st2, n, k - 1);
      AdvanceMatrixOnly(o1, o2, n, k - 1);
      ForwardUnfold(st1, n, k);
      ForwardUnfold(st2, n, k);
    }
  }

  /** Elimination of an n-by-n matrix gets through every column without meeting a small pivot. */
  ghost predicate PivotsPass(a: seq<seq<real>>, n: nat)
    requires IsGrid(a, n, n)
  {
    Forward(State(a, seq(n, _ => 0.0), seq(n, _ => 0.0)), n, n).Running?
  }

  /** Back substitution over rows n-1 down to x, writing into w. */
  function BackSubstitute(a: seq<seq<real>>, y: seq<real>, w: seq<real>, n: nat, x: nat): (r: seq<real>)
    requires IsGrid(a, n, n) && |y| >= n && |w| >= n && x <= n
    requires forall t :: 0 <= t < n ==> a[t][t] != 0.0
    ensures |r| == |w|
    decreases n - x
  {
    if x == n then w
    else
      var v := BackSubstitute(a, y, w, n, x + 1);
      v[x := (y[x] - SumProducts(a[x], v, x + 1, n)) / a[x][x]]
  }

  /** A dot product against a row with a multiple of another row subtracted. */
  lemma {:induction false} SumSubRow(rj: seq<real>, ri: seq<real>, mult: real, x: seq<real>, lo: nat, hi: nat)
    requires |ri| >= |rj| && hi <= |rj| && hi <= |x|
    ensures SumProducts(SubRow(rj, ri, mult), x, lo, hi)
         == SumProducts(rj, x, lo, hi) - mult * SumProducts(ri, x, lo, hi)
    decreases hi
  {
    if hi > lo {
      SumSubRow(rj, ri, mult, x, lo, hi - 1);
      var s := SubRow(rj, ri, mult);
      assert s[hi - 1] * x[hi - 1] == rj[hi - 1] * x[hi - 1] - mult * (ri[hi - 1] * x[hi - 1]);
    }
  }

  /** Clearing one entry does not change the solutions of the system. */
  lemma EliminateRowSolutions(st: State, n: nat, i: nat, j: nat, x: seq<real>)
    requires Shaped(st, n) && i < j < n && st.a[i][i] != 0.0 && |x| >= n
    ensures var r := EliminateRow(st, n, i, j);
      Solves(r.a, r.y, x, n) <==> Solves(st.a, st.y, x, n)
  {
    var r := EliminateRow(st, n, i, j);
    var mult := Multiplier(st.a, n, i, j);
    SumSubRow(st.a[j], st.a[i], mult, x, 0, n);
    if Solves(st.a, st.y, x, n) {
      forall t | 0 <= t < n
        ensures SumProducts(r.a[t], x, 0, n) == r.y[t]
      {
      }
    }
    if Solves(r.a, r.y, x, n) {
      forall t | 0 <= t < n
        ensures SumProducts(st.a[t], x, 0, n) == st.y[t]
      {
        if t == j {
          assert SumProducts(r.a[i], x, 0, n) == r.y[i];
          assert SumProducts(r.a[j], x, 0, n) == r.y[j];
        } else {
          assert SumProducts(r.a[t], x, 0, n) == r.y[t];
        }
      }
    }
  }

  /** Swapping two equations does not change the solutions. */
  lemma SwapSolutions(st: State, n: nat, i: nat, p: nat, x: seq<real>)
    requires Shaped(st, n) && i < n && p < n && |x| >= n
    ensures var r := SwapRows(st, n, i, p);
      Solves(r.a, r.y, x, n) <==> Solves(st.a, st.y, x, n)
  {
    var r := SwapRows(st, n, i, p);
    if Solves(r.a, r.y, x, n) {
      forall t | 0 <= t < n
        ensures SumProducts(st.a[t], x, 0, n) == st.y[t]
      {
        var u := if t == i then p else if t == p then i else t;
        assert SumProducts(r.a[u], x, 0, n) == r.y[u];
      }
    }
    if Solves(st.a, st.y, x, n) {
      forall t | 0 <= t < n
        ensures SumProducts(r.a[t], x, 0, n) == r.y[t]
      {
        var u := if t == i then p else if t == p then i else t;
        assert SumProducts(st.a[u], x, 0, n) == st.y[u];
      }
    }
  }

  /** Clearing a whole column below the pivot does not change the solutions. */
  lemma {:induction false} EliminateBelowSolutions(st: State, n: nat, i: nat, j: nat, x: seq<real>)
    requires Shaped(st, n) && i < j <= n && st.a[i][i] != 0.0 && |x| >= n
    ensures var r := EliminateBelow(st, n, i, j);
      Solves(r.a, r.y, x, n) <==> Solves(st.a, st.y, x, n)
    decreases j
  {
    if j > i + 1 {
      EliminateBelowSolutions(st, n, i, j - 1, x);
      EliminateRowSolutions(EliminateBelow(st, n, i, j - 1), n, i, j - 1, x);
    }
  }

  /** Which rows EliminateBelow touches, and what it leaves in them. */
  lemma {:induction false} EliminateBelowRows(st: State, n: nat, i: nat, j: nat)
    requires Shaped(st, n) && i < j <= n && st.a[i][i] != 0.0
    ensures var r := EliminateBelow(st, n, i, j);
      && (forall t :: 0 <= t < n && (t <= i || t >= j) ==> r.a[t] == st.a[t])
      && (forall t :: i < t < j ==> r.a[t] == SubRow(st.a[t], st.a[i], Multiplier(st.a, n, i, t)))
    decreases j
  {
    if j > i + 1 {
      EliminateBelowRows(st, n, i, j - 1);
    }
  }

  /** The entries left of and on column k-1 below the diagonal are zero. */
  ghost predicate ClearedBelow(a: seq<seq<real>>, n: nat, k: nat)
    requires IsGrid(a, n, n) && k <= n
  {
    forall r, c :: 0 <= c < k && c < r < n ==> a[r][c] == 0.0
  }

  /** The first k pivots are at least the tolerance in magnitude. */
  ghost predicate LargePivots(a: seq<seq<real>>, n: nat, k: nat)
    requires IsGrid(a, n, n) && k <= n
  {
    forall r :: 0 <= r < k ==> Abs(a[r][r]) >= Tolerance
  }

  /** Swapping row i with a row below it keeps the columns left of i cleared. */
  lemma SwapKeepsTriangle(st: State, n: nat, i: nat, p: nat)
    requires Shaped(st, n) && i <= p < n
    requires ClearedBelow(st.a, n, i) && LargePivots(st.a, n, i)
    ensures var s := SwapRows(st, n, i, p);
      ClearedBelow(s.a, n, i) && LargePivots(s.a, n, i)
  {
    var s := SwapRows(st, n, i, p);
    forall r, c | 0 <= c < i && c < r < n
      ensures s.a[r][c] == 0.0
    {
      var u := if r == i then p else if r == p then i else r;
      assert s.a[r] == st.a[u];
    }
    forall r | 0 <= r < i
      ensures Abs(s.a[r][r]) >= Tolerance
    {
      assert s.a[r] == st.a[r];
    }
  }

  /** One entry left of or on column i in a row cleared against row i. */
  lemma EliminatedCell(s: State, n: nat, i: nat, r: nat, c: nat)
    requires Shaped(s, n) && i < r < n && c <= i && s.a[i][i] != 0.0
    requires c < i ==> s.a[i][c] == 0.0 && s.a[r][c] == 0.0
    ensures EliminateBelow(s, n, i, n).a[r][c] == 0.0
  {
    var e := EliminateBelow(s, n, i, n);
    var mult := Multiplier(s.a, n, i, r);
    EliminateBelowRows(s, n, i, n);
    assert e.a[r] == SubRow(s.a[r], s.a[i], mult);
    assert e.a[r][c] == s.a[r][c] - mult * s.a[i][c];
    if c == i {
      DivCancel(s.a[i][i], s.a[r][i], mult);
    }
  }

  /** Clearing column i below a nonzero pivot extends the triangle by one column. */
  lemma EliminateExtendsTriangle(s: State, n: nat, i: nat)
    requires Shaped(s, n) && i < n && Abs(s.a[i][i]) >= Tolerance
    requires ClearedBelow(s.a, n, i) && LargePivots(s.a, n, i)
    ensures var e := EliminateBelow(s, n, i, n);
      ClearedBelow(e.a, n, i + 1) && LargePivots(e.a, n, i + 1)
  {
    var e := EliminateBelow(s, n, i, n);
    forall r, c | 0 <= c < i + 1 && c < r < n
      ensures e.a[r][c] == 0.0
    {
      if r > i {
        EliminatedCell(s, n, i, r, c);
      } else {
        EliminateBelowRows(s, n, i, n);
        assert e.a[r] == s.a[r];
      }
    }
    EliminateBelowRows(s, n, i, n);
    forall r | 0 <= r < i + 1
      ensures Abs(e.a[r][r]) >= Tolerance
    {
      assert e.a[r] == s.a[r];
    }
  }

  /** Multiplying a quotient back by its nonzero divisor. */
  lemma DivCancel(a: real, b: real, c: real)
    requires a != 0.0 && c == b / a
    ensures c * a == b && a * c == b
  {
  }

  /** One running step extends the triangular shape by one column. */
  lemma StepTriangular(st: State, n: nat, i: nat)
    requires Shaped(st, n) && i < n
    requires ClearedBelow(st.a, n, i) && LargePivots(st.a, n, i)
    requires Step(st, n, i).Running?
    ensures ClearedBelow(Step(st, n, i).st.a, n, i + 1) && LargePivots(Step(st, n, i).st.a, n, i + 1)
  {
    var p := PivotScan(st.a, n, i, n);
    var s := if p != i then SwapRows(st, n, i, p) else st;
    if p != i {
      SwapKeepsTriangle(st, n, i, p);
    }
    EliminateExtendsTriangle(s, n, i);
  }

  /** A running column of the forward phase extends the triangular shape by one column. */
  lemma AdvanceTriangular(o: Outcome, n: nat, i: nat)
    requires Shaped(o.st, n) && i < n && o.Running?
    requires ClearedBelow(o.st.a, n, i) && LargePivots(o.st.a, n, i)
    requires Advance(o, n, i).Running?
    ensures ClearedBelow(Advance(o, n, i).st.a, n, i + 1) && LargePivots(Advance(o, n, i).st.a, n, i + 1)
  {
    StepTriangular(o.st, n, i);
  }

  /** A successful forward phase leaves an upper triangle with large pivots. */
  lemma {:induction false} ForwardTriangular(st: State, n: nat, k: nat)
    requires Shaped(st, n) && k <= n
    requires Forward(st, n, k).Running?
    ensures ClearedBelow(Forward(st, n, k).st.a, n, k) && LargePivots(Forward(st, n, k).st.a, n, k)
  {
    if k > 0 {
      var prev := Forward(st, n, k - 1);
      ForwardUnfold(st, n, k);
      ForwardTriangular(st, n, k - 1);
      AdvanceTriangular(prev, n, k - 1);
    }
  }

  /** One column of the forward phase, including a swap before a failing test, keeps the solutions. */
  lemma AdvanceSolutions(o: Outcome, n: nat, i: nat, x: seq<real>)
    requires Shaped(o.st, n) && i < n && |x| >= n
    ensures var r := Advance(o, n, i).st;
      Solves(r.a, r.y, x, n) <==> Solves(o.st.a, o.st.y, x, n)
  {
    if o.Running? {
      var s0 := o.st;
      var p := PivotScan(s0.a, n, i, n);
      var s := if p != i then SwapRows(s0, n, i, p) else s0;
      StepUnfold(s0, n, i, s);
      if p != i {
        SwapSolutions(s0, n, i, p, x);
      }
      if Abs(s.a[i][i]) >= Tolerance {
        EliminateBelowSolutions(s, n, i, n, x);
      }
    }
  }

  /** The forward phase, including a swap before a failing test, keeps the solutions. */
  lemma {:induction false} ForwardSolutions(st: State, n: nat, k: nat, x: seq<real>)
    requires Shaped(st, n) && k <= n && |x| >= n
    ensures var r := Forward(st, n, k).st;
      Solves(r.a, r.y, x, n) <==> Solves(st.a, st.y, x, n)
  {
    if k > 0 {
      ForwardSolutions(st, n, k - 1, x);
      var prev := Forward(st, n, k - 1);
      AdvanceSolutions(prev, n, k - 1, x);
      ForwardUnfold(st, n, k);
    }
  }

  /** Once the forward phase stops, later columns change nothing. */
  lemma {:induction false} SingularPersists(st: State, n: nat, k: nat, k': nat)
    requires Shaped(st, n) && k <= k' <= n
    requires Forward(st, n, k).Singular?
    ensures Forward(st, n, k') == Forward(st, n, k)
    decreases k'
  {
    if k' > k {
      SingularPersists(st, n, k, k' - 1);
      ForwardUnfold(st, n, k');
    }
  }

  /** A failed solve failed at a column whose pivot, after the swap, was below the tolerance. */
  lemma {:induction false} SingularWitness(st: State, n: nat, k: nat) returns (i: nat)
    requires Shaped(st, n) && k <= n
    requires Forward(st, n, k).Singular?
    ensures i < k && Forward(st, n, i).Running? && Advance(Forward(st, n, i), n, i) == Forward(st, n, k)
    ensures Abs(Forward(st, n, k).st.a[i][i]) < Tolerance
    ensures LargePivots(Forward(st, n, k).st.a, n, i)
  {
    var prev := Forward(st, n, k - 1);
    ForwardUnfold(st, n, k);
    if prev.Singular? {
      i := SingularWitness(st, n, k - 1);
    } else {
      i := k - 1;
      ForwardTriangular(st, n, i);
      AdvanceSingular(prev, n, i);
    }
  }

  /** A column that stops the forward phase has a small pivot after the swap, and the earlier pivots stay large. */
  lemma AdvanceSingular(o: Outcome, n: nat, i: nat)
    requires Shaped(o.st, n) && i < n && o.Running?
    requires ClearedBelow(o.st.a, n, i) && LargePivots(o.st.a, n, i)
    requires Advance(o, n, i).Singular?
    ensures Abs(Advance(o, n, i).st.a[i][i]) < Tolerance
    ensures LargePivots(Advance(o, n, i).st.a, n, i)
  {
    var s0 := o.st;
    var p := PivotScan(s0.a, n, i, n);
    var s := if p != i then SwapRows(s0, n, i, p) else s0;
    StepUnfold(s0, n, i, s);
    if p != i {
      SwapKeepsTriangle(s0, n, i, p);
    }
  }

  /** Back substitution only writes entries at and after the starting row. */
  lemma {:induction false} BackSubstituteStable(a: seq<seq<real>>, y: seq<real>, w: seq<real>, n: nat, x: nat, x': nat)
    requires IsGrid(a, n, n) && |y| >= n && |w| >= n && x <= x' <= n
    requires forall t :: 0 <= t < n ==> a[t][t] != 0.0
    ensures forall t :: x' <= t < |w| ==> BackSubstitute(a, y, w, n, x)[t] == BackSubstitute(a, y, w, n, x')[t]
    decreases x' - x
  {
    if x < x' {
      BackSubstituteStable(a, y, w, n, x + 1, x');
    }
  }

  /** Entry t of the result satisfies equation t restricted to the columns from t on. */
  lemma BackSubstituteAt(a: seq<seq<real>>, y: seq<real>, w: seq<real>, n: nat, t: nat)
    requires IsGrid(a, n, n) && |y| >= n && |w| >= n && t < n
    requires forall u :: 0 <= u < n ==> a[u][u] != 0.0
    ensures SumProducts(a[t], BackSubstitute(a, y, w, n, 0), t, n) == y[t]
  {
    var sol := BackSubstitute(a, y, w, n, 0);
    var v := BackSubstitute(a, y, w, n, t + 1);
    BackSubstituteStable(a, y, w, n, 0, t);
    BackSubstituteStable(a, y, w, n, 0, t + 1);
    BackSubstituteEntry(a, y, w, n, t);
    SumAgree(a[t], a[t], sol, v, t + 1, n);
    SumSplit(a[t], sol, t, t + 1, n);
    SumSingle(a[t], sol, t);
  }

  /** The entry written for row t solves that row given the entries after it. */
  lemma BackSubstituteEntry(a: seq<seq<real>>, y: seq<real>, w: seq<real>, n: nat, t: nat)
    requires IsGrid(a, n, n) && |y| >= n && |w| >= n && t < n
    requires forall u :: 0 <= u < n ==> a[u][u] != 0.0
    ensures a[t][t] * BackSubstitute(a, y, w, n, t)[t] + SumProducts(a[t], BackSubstitute(a, y, w, n, t + 1), t + 1, n) == y[t]
  {
    var v := BackSubstitute(a, y, w, n, t + 1);
    DivCancel(a[t][t], y[t] - SumProducts(a[t], v, t + 1, n), BackSubstitute(a, y, w, n, t)[t]);
  }

  /** A dot product over a single index. */
  lemma SumSingle(r: seq<real>, x: seq<real>, t: nat)
    requires t < |r| && t < |x|
    ensures SumProducts(r, x, t, t + 1) == r[t] * x[t]
  {
  }

  /** Zero coefficients before t do not contribute to a dot product. */
  lemma LeadingZeros(r: seq<real>, x: seq<real>, n: nat, t: nat)
    requires t <= n <= |r| && n <= |x|
    requires forall c :: 0 <= c < t ==> r[c] == 0.0
    ensures SumProducts(r, x, 0, n) == SumProducts(r, x, t, n)
  {
    SumSplit(r, x, 0, t, n);
    SumZeroCoefficients(r, x, 0, t);
  }

  /** Row t of the system holds for the result of back substitution. */
  lemma BackSubstituteRow(a: seq<seq<real>>, y: seq<real>, w: seq<real>, n: nat, t: nat)
    requires IsGrid(a, n, n) && |y| >= n && |w| >= n && t < n
    requires forall u :: 0 <= u < n ==> a[u][u] != 0.0
    requires forall c :: 0 <= c < t ==> a[t][c] == 0.0
    ensures SumProducts(a[t], BackSubstitute(a, y, w, n, 0), 0, n) == y[t]
  {
    BackSubstituteAt(a, y, w, n, t);
    LeadingZeros(a[t], BackSubstitute(a, y, w, n, 0), n, t);
  }

  /** Back substitution solves an upper triangular system with nonzero pivots. */
  lemma BackSubstituteSolves(a: seq<seq<real>>, y: seq<real>, w: seq<real>, n: nat)
    requires IsGrid(a, n, n) && |y| >= n && |w| >= n
    requires forall t :: 0 <= t < n ==> a[t][t] != 0.0
    requires forall r, c :: 0 <= c < r < n ==> a[r][c] == 0.0
    ensures Solves(a, y, BackSubstitute(a, y, w, n, 0), n)
  {
    forall t | 0 <= t < n
      ensures SumProducts(a[t], BackSubstitute(a, y, w, n, 0), 0, n) == y[t]
    {
      BackSubstituteRow(a, y, w, n, t);
    }
  }

  /**
   * The correctness of the solver: when every pivot passes the tolerance
   * test, back substitution on the reduced system solves the original one.
   */
  lemma GaussianElimination(st: State, n: nat)
    requires Shaped(st, n)
    requires Forward(st, n, n).Running?
    ensures var s := Forward(st, n, n).st;
      && (forall t :: 0 <= t < n ==> s.a[t][t] != 0.0)
      && Solves(st.a, st.y, BackSubstitute(s.a, s.y, s.w, n, 0), n)
  {
    var s := Forward(st, n, n).st;
    ForwardTriangular(st, n, n);
    BackSubstituteSolves(s.a, s.y, s.w, n);
    ForwardSolutions(st, n, n, BackSubstitute(s.a, s.y, s.w, n, 0));
  }
}
