/**
 * BRMatrix: a dense matrix of doubles stored as a vector of row vectors,
 * with its row and column counts kept beside the storage. The operations
 * mirror the C++ class one for one, including the row-vector and
 * column-vector extraction, assignment, product, transpose and the
 * pivoting linear solver.
 */
module Matrices {
  import opened HostMath
  import opened Grids
  import opened Elimination

  /** The storage after mat.resize(r) followed by resizing every row to c. */
  function Resized(g: seq<seq<real>>, r: nat, c: nat): (h: seq<seq<real>>)
    ensures IsGrid(h, r, c)
    ensures forall i, j :: 0 <= i < r && 0 <= j < c ==>
      h[i][j] == (if i < |g| && j < |g[i]| then g[i][j] else 0.0)
  {
    var h := seq(r, i requires 0 <= i < r => Resize(if i < |g| then g[i] else [], c));
    assert forall i :: 0 <= i < r ==> h[i] == Resize(if i < |g| then g[i] else [], c) && |h[i]| == c;
    h
  }

  /** The grid with entry (i, j) taken from entry (j, i); defined when no index leaves g. */
  function Transposed(g: seq<seq<real>>, r: nat, c: nat): (h: seq<seq<real>>)
    requires IsGrid(g, r, c) && (r == c || r == 0 || c == 0)
    ensures IsGrid(h, r, c)
    ensures forall i, j :: 0 <= i < r && 0 <= j < c ==> h[i][j] == g[j][i]
  {
    seq(r, i requires 0 <= i < r => seq(c, j requires 0 <= j < c => g[j][i]))
  }

  /** Transposing a square grid twice gives it back. */
  lemma TransposeInvolution(g: seq<seq<real>>, n: nat)
    requires IsGrid(g, n, n)
    ensures Transposed(Transposed(g, n, n), n, n) == g
  {
    var h := Transposed(Transposed(g, n, n), n, n);
    forall i | 0 <= i < n
      ensures h[i] == g[i]
    {
      assert forall j :: 0 <= j < n ==> h[i][j] == g[i][j];
    }
  }

  /** Multiplying by the identity from the left keeps every entry. */
  lemma {:induction false} IdentityProduct(b: seq<seq<real>>, n: nat, m: nat, i: nat, j: nat, k: nat)
    requires IsGrid(b, n, m) && i < n && j < m && k <= n
    ensures CellSum(Identity(n), b, i, j, k) == if i < k then b[i][j] else 0.0
  {
    if k > 0 {
      IdentityProduct(b, n, m, i, j, k - 1);
    }
  }

  class BRMatrix {
    var mat: seq<seq<real>>
    var rows: nat
    var cols: nat

    /** The storage has exactly `rows` rows of `cols` entries. */
    ghost predicate Valid()
      reads this
    {
      IsGrid(mat, rows, cols)
    }

    /** An empty 0 x 0 matrix. */
    constructor()
      ensures Valid() && mat == [] && rows == 0 && cols == 0
    {
      mat := [];
      rows := 0;
      cols := 0;
    }

    /** The copy constructor: storage and sizes are copied as they are. */
    constructor Copy(inMat: BRMatrix)
      ensures mat == inMat.mat && rows == inMat.rows && cols == inMat.cols
    {
      mat := inMat.mat;
      rows := inMat.rows;
      cols := inMat.cols;
    }

    function GetRowSize(): nat
      reads this
    {
      rows
    }

    function GetColSize(): nat
      reads this
    {
      cols
    }

    /** operator(): entry (row, col). */
    function Get(row: nat, col: nat): real
      reads this
      requires Valid() && row < rows && col < cols
    {
      mat[row][col]
    }

    /** Writing entry (row, col) through operator(). */
    method Set(row: nat, col: nat, v: real)
      requires Valid() && row < rows && col < cols
      modifies this
      ensures Valid() && rows == old(rows) && cols == old(cols)
      ensures mat == old(mat)[row := old(mat)[row][col := v]]
    {
      mat := mat[row := mat[row][col := v]];
    }

    /** Resizes to r x c: entries inside both shapes are kept, new ones are zero. */
    method SetSize(r: nat, c: nat)
      modifies this
      ensures Valid() && rows == r && cols == c
      ensures mat == Resized(old(mat), r, c)
    {
      mat := if r <= |mat| then mat[..r] else mat + seq(r - |mat|, _ => []);
      var i := 0;
      while i < r
        invariant 0 <= i <= r && |mat| == r
        invariant forall k :: 0 <= k < i ==> mat[k] == Resized(old(mat), r, c)[k]
        invariant forall k :: i <= k < r ==> mat[k] == if k < |old(mat)| then old(mat)[k] else []
      {
        mat := mat[i := Resize(mat[i], c)];
        i := i + 1;
      }
      rows := r;
      cols := c;
    }

    /** Row `row` as a vector of `cols` entries. */
    method GetRowVector(row: nat) returns (vec: seq<real>)
      requires Valid() && (cols == 0 || row < rows)
      ensures |vec| == cols
      ensures forall i :: 0 <= i < cols ==> vec[i] == mat[row][i]
      ensures row < rows ==> vec == mat[row]
    {
      vec := seq(cols, _ => 0.0);
      var i := 0;
      while i < cols
        invariant 0 <= i <= cols && |vec| == cols
        invariant forall k :: 0 <= k < i ==> vec[k] == mat[row][k]
      {
        vec := vec[i := mat[row][i]];
        i := i + 1;
      }
    }

    /** Column `col` as a vector of `rows` entries. */
    method GetColumnVector(col: nat) returns (vec: seq<real>)
      requires Valid() && (rows == 0 || col < cols)
      ensures |vec| == rows
      ensures forall i :: 0 <= i < rows ==> vec[i] == mat[i][col]
    {
      vec := seq(rows, _ => 0.0);
      var i := 0;
      while i < rows
        invariant 0 <= i <= rows && |vec| == rows
        invariant forall k :: 0 <= k < i ==> vec[k] == mat[k][col]
      {
        vec := vec[i := mat[i][col]];
        i := i + 1;
      }
    }

    /**
     * The overload that fills a caller's buffer with column `col` and
     * returns that same buffer; entries past `rows` are left alone.
     */
    method GetColumnInto(vec: array<real>, col: int) returns (r: array<real>)
      requires Valid() && vec.Length >= rows && (rows == 0 || 0 <= col < cols)
      modifies vec
      ensures r == vec
      ensures forall i :: 0 <= i < rows ==> vec[i] == mat[i][col]
      ensures forall i :: rows <= i < vec.Length ==> vec[i] == old(vec[i])
    {
      var i := 0;
      while i < rows
        invariant 0 <= i <= rows
        invariant forall k :: 0 <= k < i ==> vec[k] == mat[k][col]
        invariant forall k :: i <= k < vec.Length ==> vec[k] == old(vec[k])
      {
        vec[i] := mat[i][col];
        i := i + 1;
      }
      r := vec;
    }

    /** operator=: self-assignment changes nothing; otherwise a copy of inMat. */
    method Assign(inMat: BRMatrix)
      requires inMat.Valid()
      modifies this
      ensures Valid()
      ensures mat == old(inMat.mat) && rows == old(inMat.rows) && cols == old(inMat.cols)
    {
      if inMat == this {
        return;
      }
      var rowSize := inMat.rows;
      var colSize := inMat.cols;
      SetSize(rowSize, colSize);
      var i := 0;
      while i < rowSize
        invariant 0 <= i <= rowSize
        invariant Valid() && rows == rowSize && cols == colSize
        invariant forall k :: 0 <= k < i ==> mat[k] == inMat.mat[k]
      {
        var j := 0;
        while j < colSize
          invariant 0 <= j <= colSize
          invariant Valid() && rows == rowSize && cols == colSize
          invariant forall k :: 0 <= k < i ==> mat[k] == inMat.mat[k]
          invariant forall t :: 0 <= t < j ==> mat[i][t] == inMat.mat[i][t]
        {
          Set(i, j, inMat.Get(i, j));
          j := j + 1;
        }
        assert mat[i] == inMat.mat[i];
        i := i + 1;
      }
    }

    /**
     * operator*: the result has the right operand's shape, and entry (i, j)
     * sums mat[i][k] * inMat(k, j) over the right operand's rows k.
     */
    method Multiply(inMat: BRMatrix) returns (result: BRMatrix)
      requires Valid() && inMat.Valid()
      requires inMat.cols == 0 || (inMat.rows <= rows && inMat.rows <= cols)
      ensures fresh(result) && result.Valid()
      ensures result.rows == inMat.rows && result.cols == inMat.cols
      ensures forall i, j :: 0 <= i < inMat.rows && 0 <= j < inMat.cols ==>
        result.mat[i][j] == CellSum(mat, inMat.mat, i, j, inMat.rows)
    {
      var rowSize := inMat.rows;
      var colSize := inMat.cols;
      result := new BRMatrix();
      result.SetSize(rowSize, colSize);
      var i := 0;
      while i < rowSize
        invariant 0 <= i <= rowSize
        invariant result.Valid() && result.rows == rowSize && result.cols == colSize
        invariant forall r, c :: 0 <= r < i && 0 <= c < colSize ==> result.mat[r][c] == CellSum(mat, inMat.mat, r, c, rowSize)
        invariant forall r, c :: i <= r < rowSize && 0 <= c < colSize ==> result.mat[r][c] == 0.0
      {
        var j := 0;
        while j < colSize
          invariant 0 <= j <= colSize
          invariant result.Valid() && result.rows == rowSize && result.cols == colSize
          invariant forall r, c :: 0 <= r < i && 0 <= c < colSize ==> result.mat[r][c] == CellSum(mat, inMat.mat, r, c, rowSize)
          invariant forall c :: 0 <= c < j ==> result.mat[i][c] == CellSum(mat, inMat.mat, i, c, rowSize)
          invariant forall r, c :: i <= r < rowSize && 0 <= c < colSize && (r > i || c >= j) ==> result.mat[r][c] == 0.0
        {
          AddCellProducts(result, inMat, i, j);
          j := j + 1;
        }
        i := i + 1;
      }
    }

    /** The innermost loop of operator*: adds the products for entry (i, j) of the result. */
    method AddCellProducts(result: BRMatrix, inMat: BRMatrix, i: nat, j: nat)
      requires Valid() && inMat.Valid() && result.Valid() && result != this && result != inMat
      requires i < result.rows && j < result.cols && j < inMat.cols && i < rows && inMat.rows <= cols
      modifies result
      ensures result.Valid() && result.rows == old(result.rows) && result.cols == old(result.cols)
      ensures result.mat == old(result.mat)[i := old(result.mat)[i][j := old(result.mat)[i][j] + CellSum(mat, inMat.mat, i, j, inMat.rows)]]
    {
      ghost var before := result.mat;
      assert before[i][j := before[i][j] + CellSum(mat, inMat.mat, i, j, 0)] == before[i];
      assert before[i := before[i]] == before;
      var k := 0;
      while k < inMat.rows
        invariant 0 <= k <= inMat.rows
        invariant result.Valid() && result.rows == old(result.rows) && result.cols == old(result.cols)
        invariant result.mat == before[i := before[i][j := before[i][j] + CellSum(mat, inMat.mat, i, j, k)]]
      {
        ghost var x := before[i][j] + CellSum(mat, inMat.mat, i, j, k);
        var product := mat[i][k] * inMat.Get(k, j);
        ghost var row := before[i][j := x + product];
        assert before[i][j := x][j := x + product] == row;
        assert before[i := before[i][j := x]][i := row] == before[i := row];
        result.Set(i, j, result.Get(i, j) + product);
        assert CellSum(mat, inMat.mat, i, j, k + 1) == CellSum(mat, inMat.mat, i, j, k) + product;
        k := k + 1;
      }
    }

    /** operator*=: replaces the matrix by the product above. */
    method MultiplyAssign(inMat: BRMatrix)
      requires Valid() && inMat.Valid()
      requires inMat.cols == 0 || (inMat.rows <= rows && inMat.rows <= cols)
      modifies this
      ensures Valid() && rows == old(inMat.rows) && cols == old(inMat.cols)
      ensures forall i, j :: 0 <= i < rows && 0 <= j < cols ==>
        mat[i][j] == CellSum(old(mat), old(inMat.mat), i, j, rows)
    {
      var result := Multiply(inMat);
      Assign(result);
    }

    /**
     * transpose: the result keeps the shape rows x cols and reads mat[j][i],
     * which stays inside the storage only for square or empty matrices.
     */
    method Transpose() returns (result: BRMatrix)
      requires Valid() && (rows == cols || rows == 0 || cols == 0)
      ensures fresh(result) && result.Valid()
      ensures result.rows == rows && result.cols == cols
      ensures result.mat == Transposed(mat, rows, cols)
    {
      result := new BRMatrix();
      result.SetSize(rows, cols);
      var i := 0;
      while i < rows
        invariant 0 <= i <= rows
        invariant result.Valid() && result.rows == rows && result.cols == cols
        invariant forall r, c :: 0 <= r < i && 0 <= c < cols ==> result.mat[r][c] == mat[c][r]
      {
        var j := 0;
        while j < cols
          invariant 0 <= j <= cols
          invariant result.Valid() && result.rows == rows && result.cols == cols
          invariant forall r, c :: 0 <= r < i && 0 <= c < cols ==> result.mat[r][c] == mat[c][r]
          invariant forall c :: 0 <= c < j ==> result.mat[i][c] == mat[c][i]
        {
          result.Set(i, j, mat[j][i]);
          j := j + 1;
        }
        i := i + 1;
      }
      assert forall r :: 0 <= r < rows ==> result.mat[r] == Transposed(mat, rows, cols)[r];
    }

    /** The pivot search of solve for column i. */
    method FindPivot(i: nat) returns (pivot: nat, swap: bool)
      requires Valid() && rows == cols && i < rows
      ensures pivot == PivotScan(mat, rows, i, rows)
      ensures swap == (pivot != i)
    {
      var maxVal := mat[i][i];
      pivot := i;
      swap := false;
      var j := i + 1;
      while j < rows
        invariant i + 1 <= j <= rows
        invariant pivot == PivotScan(mat, rows, i, j)
        invariant maxVal == mat[pivot][i]
        invariant swap == (pivot != i)
      {
        if Abs(maxVal) < Abs(mat[j][i]) {
          maxVal := mat[j][i];
          pivot := j;
          swap := true;
        }
        j := j + 1;
      }
    }

    /** The row interchange of solve, done entry by entry through the buffer w. */
    method SwapWithPivot(i: nat, pivot: nat, y: seq<real>, w: array<real>) returns (y': seq<real>)
      requires Valid() && rows == cols && i < pivot < rows && |y| >= rows && w.Length >= rows
      modifies this, w
      ensures Valid() && rows == old(rows) && cols == old(cols)
      ensures State(mat, y', w[..rows]) == SwapRows(State(old(mat), y, old(w[..rows])), rows, i, pivot)
      ensures w[rows..] == old(w[rows..])
    {
      var n := rows;
      var j := 0;
      while j < n
        invariant 0 <= j <= n
        invariant rows == n && cols == n && |mat| == n
        invariant forall r :: 0 <= r < n ==> |mat[r]| == n
        invariant forall r :: 0 <= r < n && r != i && r != pivot ==> mat[r] == old(mat)[r]
        invariant forall k :: 0 <= k < j ==> mat[pivot][k] == old(mat)[i][k] && mat[i][k] == old(mat)[pivot][k]
        invariant forall k :: 0 <= k < j ==> w[k] == old(mat)[pivot][k]
        invariant forall k :: j <= k < n ==> mat[pivot][k] == old(mat)[pivot][k] && mat[i][k] == old(mat)[i][k]
        invariant forall k :: j <= k < w.Length ==> w[k] == old(w[k])
      {
        w[j] := mat[pivot][j];
        mat := mat[pivot := mat[pivot][j := mat[i][j]]];
        mat := mat[i := mat[i][j := w[j]]];
        j := j + 1;
      }
      var value := y[pivot];
      y' := y[pivot := y[i]];
      y' := y'[i := value];
      assert mat[i] == old(mat)[pivot] && mat[pivot] == old(mat)[i];
      assert mat == old(mat)[i := old(mat)[pivot]][pivot := old(mat)[i]];
      assert w[..n] == old(mat)[pivot];
    }

    /** Clears entry (j, i): row j minus a multiple of row i, entry by entry, and the same on y. */
    method EliminateRowAt(i: nat, j: nat, y: seq<real>, ghost w: seq<real>) returns (y': seq<real>)
      requires Valid() && rows == cols && i < j < rows && |y| >= rows && |w| == rows
      requires mat[i][i] != 0.0
      modifies this
      ensures Valid() && rows == old(rows) && cols == old(cols)
      ensures State(mat, y', w) == EliminateRow(State(old(mat), y, w), rows, i, j)
    {
      var n := rows;
      var mult := Multiplier(mat, n, i, j);
      ghost var before := mat;
      ghost var target := SubRow(mat[j], mat[i], mult);
      var k := 0;
      while k < n
        invariant 0 <= k <= n
        invariant rows == n && cols == n && IsGrid(before, n, n)
        invariant |mat| == n && |mat[j]| == n && mat == before[j := mat[j]]
        invariant forall t :: 0 <= t < k ==> mat[j][t] == target[t]
        invariant forall t :: k <= t < n ==> mat[j][t] == before[j][t]
      {
        mat := mat[j := mat[j][k := mat[j][k] - mult * mat[i][k]]];
        k := k + 1;
      }
      assert mat[j] == target;
      assert mat == before[j := target];
      y' := y[j := y[j] - mult * y[i]];
      ghost var e := EliminateRow(State(before, y, w), n, i, j);
      assert |e.y| == |y'|;
      assert e.y[j] == y'[j];
      assert forall t :: 0 <= t < |y| && t != j ==> e.y[t] == y'[t];
      assert e.y == y';
      assert e.a == mat;
    }

    /** The forward elimination of solve below the pivot in column i. */
    method EliminateColumn(i: nat, y: seq<real>, ghost w: seq<real>) returns (y': seq<real>)
      requires Valid() && rows == cols && i < rows && |y| >= rows && |w| == rows
      requires Abs(mat[i][i]) >= Tolerance
      modifies this
      ensures Valid() && rows == old(rows) && cols == old(cols)
      ensures State(mat, y', w) == EliminateBelow(State(old(mat), y, w), rows, i, rows)
    {
      var n := rows;
      y' := y;
      var j := i + 1;
      while j < n
        invariant i + 1 <= j <= n
        invariant Valid() && rows == n && cols == n && |y'| == |y|
        invariant State(mat, y', w) == EliminateBelow(State(old(mat), y, w), n, i, j)
      {
        y' := EliminateRowAt(i, j, y', w);
        j := j + 1;
      }
    }

    /** The back substitution of solve, writing the solution into w. */
    method BackSubstitution(y: seq<real>, w: array<real>)
      requires Valid() && rows == cols && |y| >= rows && w.Length >= rows
      requires forall t :: 0 <= t < rows ==> mat[t][t] != 0.0
      modifies w
      ensures w[..rows] == BackSubstitute(mat, y, old(w[..rows]), rows, 0)
      ensures w[rows..] == old(w[rows..])
    {
      var n := rows;
      var x: int := (n as int) - 1;
      while x >= 0
        invariant -1 <= x < n
        invariant w[..n] == BackSubstitute(mat, y, old(w[..n]), n, x + 1)
        invariant w[n..] == old(w[n..])
      {
        var sum := 0.0;
        var j := x + 1;
        while j < n
          invariant x + 1 <= j <= n
          invariant sum == SumProducts(mat[x], w[..n], x + 1, j)
        {
          sum := sum + mat[x][j] * w[j];
          j := j + 1;
        }
        w[x] := (y[x] - sum) / mat[x][x];
        x := x - 1;
      }
    }

    /** One column of the forward phase of solve: pivot search, swap, tolerance test, elimination. */
    method ForwardStep(i: nat, y: seq<real>, w: array<real>) returns (y': seq<real>, running: bool)
      requires Valid() && rows == cols && i < rows && |y| >= rows && w.Length >= rows
      modifies this, w
      ensures Valid() && rows == old(rows) && cols == old(cols)
      ensures var o := Step(State(old(mat), y, old(w[..rows])), rows, i);
        running == o.Running? && State(mat, y', w[..rows]) == o.st
      ensures w[rows..] == old(w[rows..])
    {
      ghost var cur := State(mat, y, w[..rows]);
      var pivot, swap := FindPivot(i);
      y' := y;
      if swap {
        y' := SwapWithPivot(i, pivot, y', w);
      }
      StepUnfold(cur, rows, i, State(mat, y', w[..rows]));
      if Abs(mat[i][i]) < Tolerance {
        return y', false;
      }
      y' := EliminateColumn(i, y', w[..rows]);
      running := true;
    }

    /** The forward phase of solve over every column, stopping at the first small pivot. */
    method ForwardPhase(y: seq<real>, w: array<real>) returns (y': seq<real>, running: bool)
      requires Valid() && rows == cols && |y| >= rows && w.Length >= rows
      modifies this, w
      ensures Valid() && rows == old(rows) && cols == old(cols)
      ensures var o := Forward(State(old(mat), y, old(w[..rows])), rows, rows);
        running == o.Running? && State(mat, y', w[..rows]) == o.st
      ensures w[rows..] == old(w[rows..])
    {
      var n := rows;
      ghost var init := State(mat, y, w[..rows]);
      y' := y;
      var i := 0;
      while i < n
        invariant 0 <= i <= n
        invariant Valid() && rows == n && cols == n
        invariant Forward(init, n, i) == Running(State(mat, y', w[..n]))
        invariant w[n..] == old(w[n..])
      {
        ForwardNext(init, n, i);
        var r;
        y', r := ForwardStep(i, y', w);
        if !r {
          SingularPersists(init, n, i + 1, n);
          return y', false;
        }
        i := i + 1;
      }
      running := true;
    }

    /**
     * solve: Gaussian elimination with partial pivoting on the matrix
     * itself, then back substitution into w. A non-square matrix is
     * refused untouched. A pivot below the tolerance (after the swap)
     * stops the solve with false, leaving the partly reduced matrix and
     * the swap scratch in w. On success w solves the original system.
     */
    method Solve(y: seq<real>, w: array<real>) returns (ok: bool)
      requires Valid()
      requires rows == cols ==> |y| >= rows && w.Length >= rows
      modifies this, w
      ensures Valid() && rows == old(rows) && cols == old(cols)
      ensures old(rows) != old(cols) ==> !ok && mat == old(mat) && w[..] == old(w[..])
      ensures ok ==> old(rows) == old(cols)
      ensures old(rows) == old(cols) ==>
        var o := Forward(State(old(mat), y, old(w[..rows])), rows, rows);
        && ok == o.Running?
        && mat == o.st.a
        && w[rows..] == old(w[rows..])
        && (!ok ==> w[..rows] == o.st.w)
        && (ok ==> ((forall t :: 0 <= t < rows ==> o.st.a[t][t] != 0.0)
                    && w[..rows] == BackSubstitute(o.st.a, o.st.y, o.st.w, rows, 0)))
      ensures ok ==> forall t :: 0 <= t < rows ==> Abs(mat[t][t]) >= Tolerance
      ensures ok ==> forall r, c :: 0 <= c < r < rows ==> mat[r][c] == 0.0
      ensures ok ==> Solves(old(mat), y, w[..rows], rows)
    {
      if rows != cols {
        return false;
      }
      ghost var init := State(mat, y, w[..rows]);
      var yy;
      yy, ok := ForwardPhase(y, w);
      if !ok {
        return;
      }
      ForwardTriangular(init, rows, rows);
      GaussianElimination(init, rows);
      BackSubstitution(yy, w);
    }
  }
}
