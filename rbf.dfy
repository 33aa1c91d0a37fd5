/**
 * The radial basis function machinery of the weight driver: distances
 * between pose vectors, the kernel, the distance and activation matrices,
 * the weighted sum that turns a driver vector into output weights, and the
 * scalar shaping applied to every output weight (negative clamp, bias,
 * interpolation curve, scale).
 */
module Rbf {
  import opened HostMath
  import opened Grids
  import opened Elimination
  import opened Matrices

  // ------------------------------------------------------------------
  // distances
  // ------------------------------------------------------------------

  /** Sum of squared differences over the first n components. */
  function SquaredSum(v1: seq<real>, v2: seq<real>, n: nat): (s: real)
    requires n <= |v1| && n <= |v2|
    ensures s >= 0.0
  {
    if n == 0 then 0.0
    else
      var d := v1[n - 1] - v2[n - 1];
      SquaredSum(v1, v2, n - 1) + d * d
  }

  /** The Euclidean distance over the components of v1 (v2 may be longer). */
  function Radius(v1: seq<real>, v2: seq<real>, m: Maths): real
    requires |v1| <= |v2|
  {
    m.sqrt(SquaredSum(v1, v2, |v1|))
  }

  /** The angle between the first three components of each vector. */
  function Angle(v1: seq<real>, v2: seq<real>, m: Maths): real
    requires |v1| >= 3 && |v2| >= 3
  {
    m.angle(v1[..3], v2[..3])
  }

  /**
   * The distance used between a driver and a pose: Euclidean for distance
   * type 0, otherwise the angle when both vectors have three components.
   */
  function PoseDelta(v1: seq<real>, v2: seq<real>, distType: int, m: Maths): (d: real)
    requires |v1| <= |v2|
    ensures distType == 0 || |v1| != 3 || |v2| != 3 ==> d == Radius(v1, v2, m)
    ensures distType != 0 && |v1| == 3 && |v2| == 3 ==> d == Angle(v1, v2, m)
  {
    if distType == 0 then Radius(v1, v2, m)
    else if |v1| == 3 && |v2| == 3 then Angle(v1, v2, m)
    else Radius(v1, v2, m)
  }

  /** getRadius: the loop that sums the squared component differences. */
  method GetRadius(v1: seq<real>, v2: seq<real>, m: Maths) returns (d: real)
    requires |v1| <= |v2|
    ensures d == Radius(v1, v2, m)
  {
    var count := |v1|;
    var sum := 0.0;
    var i := 0;
    while i < count
      invariant 0 <= i <= count
      invariant sum == SquaredSum(v1, v2, i)
    {
      sum := sum + (v1[i] - v2[i]) * (v1[i] - v2[i]);
      i := i + 1;
    }
    d := m.sqrt(sum);
  }

  /** getPoseDelta, with getRadius as the loop above. */
  method GetPoseDelta(v1: seq<real>, v2: seq<real>, distType: int, m: Maths) returns (d: real)
    requires |v1| <= |v2|
    ensures d == PoseDelta(v1, v2, distType, m)
  {
    if distType == 0 {
      d := GetRadius(v1, v2, m);
    } else if |v1| == 3 && |v2| == 3 {
      d := Angle(v1, v2, m);
    } else {
      d := GetRadius(v1, v2, m);
    }
  }

  lemma {:induction false} SquaredSumSymmetric(v1: seq<real>, v2: seq<real>, n: nat)
    requires n <= |v1| && n <= |v2|
    ensures SquaredSum(v1, v2, n) == SquaredSum(v2, v1, n)
  {
    if n > 0 {
      SquaredSumSymmetric(v1, v2, n - 1);
      assert (v1[n - 1] - v2[n - 1]) * (v1[n - 1] - v2[n - 1]) == (v2[n - 1] - v1[n - 1]) * (v2[n - 1] - v1[n - 1]);
    }
  }

  lemma {:induction false} SquaredSumSelf(v: seq<real>, n: nat)
    requires n <= |v|
    ensures SquaredSum(v, v, n) == 0.0
  {
    if n > 0 {
      SquaredSumSelf(v, n - 1);
    }
  }

  /** The pose distance is non-negative and symmetric, and zero from a vector to itself when Euclidean. */
  lemma PoseDeltaMetric(v1: seq<real>, v2: seq<real>, distType: int, m: Maths)
    requires Lawful(m) && |v1| == |v2|
    ensures PoseDelta(v1, v2, distType, m) >= 0.0
    ensures PoseDelta(v1, v2, distType, m) == PoseDelta(v2, v1, distType, m)
    ensures distType == 0 || |v1| != 3 ==> PoseDelta(v1, v1, distType, m) == 0.0
  {
    SquaredSumSymmetric(v1, v2, |v1|);
    SquaredSumSelf(v1, |v1|);
  }

  /** Componentwise difference, as used for the rest offset. */
  function Minus(v: seq<real>, rest: seq<real>): (r: seq<real>)
    requires |rest| >= |v|
    ensures |r| == |v| && forall i :: 0 <= i < |v| ==> r[i] == v[i] - rest[i]
  {
    seq(|v|, i requires 0 <= i < |v| => v[i] - rest[i])
  }

  /** Subtracting the same rest vector from both sides leaves the Euclidean distance unchanged. */
  lemma {:induction false} RestOffsetCancels(v1: seq<real>, v2: seq<real>, rest: seq<real>, n: nat)
    requires n <= |v1| && n <= |v2| && |rest| >= |v1| && |rest| >= |v2|
    ensures SquaredSum(Minus(v1, rest), Minus(v2, rest), n) == SquaredSum(v1, v2, n)
  {
    if n > 0 {
      RestOffsetCancels(v1, v2, rest, n - 1);
      assert Minus(v1, rest)[n - 1] - Minus(v2, rest)[n - 1] == v1[n - 1] - v2[n - 1];
    }
  }

  // ------------------------------------------------------------------
  // kernel and weight shaping
  // ------------------------------------------------------------------

  /**
   * interpolateRbf: kernel 0 is the Gaussian exp(-(1/w)^2 * value) with a
   * zero width read as 1, kernel 1 is linear, anything else gives 0.
   */
  function InterpolateRbf(value: real, width: real, kernelType: int, m: Maths): (r: real)
    ensures kernelType == 1 ==> r == value
    ensures kernelType != 0 && kernelType != 1 ==> r == 0.0
    ensures kernelType == 0 && value == 0.0 && Lawful(m) ==> r == 1.0
    ensures kernelType == 0 && width == 0.0 ==> r == InterpolateRbfGaussian(value, 1.0, m)
  {
    if kernelType == 0 then InterpolateRbfGaussian(value, if width == 0.0 then 1.0 else width, m)
    else if kernelType == 1 then value
    else 0.0
  }

  /** The Gaussian kernel for a nonzero width. */
  function InterpolateRbfGaussian(value: real, width: real, m: Maths): real
    requires width != 0.0
  {
    var w := 1.0 / width;
    var sigma := -(w * w);
    m.exp(sigma * value)
  }

  /**
   * rbfWeightBias: a non-negative bias raises |value| to the power 1 + bias;
   * a negative bias pushes towards 1 and maps |value| == 1 exactly to 1.
   */
  function RbfWeightBias(value: real, bias: real, m: Maths): (r: real)
    ensures bias >= 0.0 && Lawful(m) ==> r >= 0.0
    ensures bias == 0.0 && Lawful(m) ==> r == Abs(value)
    ensures bias < 0.0 && Abs(1.0 - Abs(value)) <= DoubleEpsilon ==> r == 1.0
    ensures bias < 0.0 && value == 0.0 && Lawful(m) ==> r == 0.0
  {
    if bias >= 0.0 then
      var magnitude := Abs(value);
      var raised := m.pow(magnitude, bias);
      ProductNonNegative(magnitude, if Lawful(m) then raised else 0.0);
      magnitude * raised
    else
      var base := 1.0 - Abs(value);
      if Abs(base) > DoubleEpsilon then 1.0 - m.pow(base, 1.0 + Abs(bias)) else 1.0
  }

  lemma ProductNonNegative(a: real, b: real)
    requires a >= 0.0 && b >= 0.0
    ensures a * b >= 0.0
  {
  }

  /**
   * interpolateWeight: 1 slow, 2 fast, 3 smoothstep, 4 smootherstep,
   * 5 the user ramp; every other type leaves the value alone.
   */
  function InterpolateWeight(value: real, interpolation: int, m: Maths, curve: real -> real): (r: real)
    ensures (interpolation < 1 || interpolation > 5) ==> r == value
    ensures interpolation == 5 ==> r == curve(value)
    ensures 1 <= interpolation <= 4 && Lawful(m) && (value == 0.0 || value == 1.0) ==> r == value
  {
    if interpolation == 1 then 1.0 - (1.0 - value) * (1.0 - value)
    else if interpolation == 2 then 1.0 - m.pow(1.0 - value, 0.5)
    else if interpolation == 3 then value * value * (3.0 - 2.0 * value)
    else if interpolation == 4 then value * value * value * (value * (value * 6.0 - 15.0) + 10.0)
    else if interpolation == 5 then curve(value)
    else value
  }

  /** The slow curve keeps weights in [0, 1] inside [0, 1]. */
  lemma SlowCurveBounded(value: real, m: Maths, curve: real -> real)
    requires 0.0 <= value <= 1.0
    ensures 0.0 <= InterpolateWeight(value, 1, m, curve) <= 1.0
  {
    var u := 1.0 - value;
    assert 0.0 <= u * u <= u by {
      ProductNonNegative(u, u);
      ProductNonNegative(u, 1.0 - u);
    }
  }

  /** Smoothstep keeps weights in [0, 1] inside [0, 1]. */
  lemma SmoothstepBounded(value: real, m: Maths, curve: real -> real)
    requires 0.0 <= value <= 1.0
    ensures 0.0 <= InterpolateWeight(value, 3, m, curve) <= 1.0
  {
    var u := 1.0 - value;
    ProductNonNegative(value, value);
    ProductNonNegative(value * value, 3.0 - 2.0 * value);
    ProductNonNegative(u, u);
    ProductNonNegative(u * u, 1.0 + 2.0 * value);
    assert 1.0 - value * value * (3.0 - 2.0 * value) == u * u * (1.0 + 2.0 * value);
  }

  /** Smootherstep keeps weights in [0, 1] inside [0, 1]. */
  lemma SmootherstepBounded(value: real, m: Maths, curve: real -> real)
    requires 0.0 <= value <= 1.0
    ensures 0.0 <= InterpolateWeight(value, 4, m, curve) <= 1.0
  {
    var u := 1.0 - value;
    var shift := 1.25 - value;
    ProductNonNegative(shift, shift);
    assert value * (value * 6.0 - 15.0) + 10.0 == 6.0 * (shift * shift) + 0.625;
    ProductNonNegative(value, value);
    ProductNonNegative(value * value, value);
    ProductNonNegative(value * value * value, value * (value * 6.0 - 15.0) + 10.0);
    ProductNonNegative(u, u);
    ProductNonNegative(u * u, u);
    ProductNonNegative(value, 6.0 * value + 3.0);
    ProductNonNegative(u * u * u, value * (6.0 * value + 3.0) + 1.0);
    assert 1.0 - value * value * value * (value * (value * 6.0 - 15.0) + 10.0)
        == u * u * u * (value * (6.0 * value + 3.0) + 1.0);
  }

  /** The shaping compute applies to each raw RBF weight before it is written. */
  function PostProcess(value: real, allowNegative: bool, bias: real, useInterpolation: bool,
                       interpolation: int, scale: real, m: Maths, curve: real -> real): (r: real)
    ensures !allowNegative && value < 0.0 && bias >= 0.0 && !useInterpolation ==> r == 0.0
    ensures !allowNegative && bias >= 0.0 && !useInterpolation && scale >= 0.0 && Lawful(m) ==> r >= 0.0
    ensures bias == 0.0 && !useInterpolation && (allowNegative || value >= 0.0) ==> r == value * scale
  {
    var clamped := if value < 0.0 && !allowNegative then 0.0 else value;
    ShapeWeight(clamped, bias, useInterpolation, interpolation, scale, m, curve)
  }

  /** The part of the shaping after negative weights are clamped: bias, interpolation, scale. */
  function ShapeWeight(value: real, bias: real, useInterpolation: bool,
                       interpolation: int, scale: real, m: Maths, curve: real -> real): real
  {
    var biased := if bias != 0.0 then RbfWeightBias(value, bias, m) else value;
    var shaped := if useInterpolation then InterpolateWeight(biased, interpolation, m, curve) else biased;
    shaped * scale
  }

  /** With negatives disallowed, every negative raw weight is shaped exactly like 0. */
  lemma NegativeWeightsShapeAsZero(value: real, bias: real, useInterpolation: bool,
                                   interpolation: int, scale: real, m: Maths, curve: real -> real)
    requires value < 0.0
    ensures PostProcess(value, false, bias, useInterpolation, interpolation, scale, m, curve)
         == PostProcess(0.0, false, bias, useInterpolation, interpolation, scale, m, curve)
  {
  }

  /** getTwistAngle: twice the atan2 of the chosen axis component (x by default) and w. */
  function GetTwistAngle(q: Quaternion, axis: int, m: Maths): (r: real)
    ensures Lawful(m) && q.w > 0.0 && (if axis == 1 then q.y else if axis == 2 then q.z else q.x) == 0.0 ==> r == 0.0
  {
    var component := if axis == 1 then q.y else if axis == 2 then q.z else q.x;
    2.0 * m.atan2(component, q.w)
  }

  // ------------------------------------------------------------------
  // distance and activation matrices
  // ------------------------------------------------------------------

  /** Entry (i, j) is the pose distance between rows i and j. */
  function DistanceGrid(poses: seq<seq<real>>, distType: int, m: Maths): (d: seq<seq<real>>)
    requires Rectangular(poses)
    ensures IsGrid(d, |poses|, |poses|)
  {
    seq(|poses|, i requires 0 <= i < |poses| => DistanceRow(poses, i, distType, m))
  }

  /** Row i of the distance matrix: the distance from pose row i to every pose row. */
  function DistanceRow(poses: seq<seq<real>>, i: nat, distType: int, m: Maths): (r: seq<real>)
    requires Rectangular(poses) && i < |poses|
    ensures |r| == |poses|
  {
    seq(|poses|, j requires 0 <= j < |poses| => PoseDelta(poses[i], poses[j], distType, m))
  }

  /** The distance matrix is symmetric, non-negative, and has a zero diagonal when Euclidean. */
  lemma DistanceGridMetric(poses: seq<seq<real>>, distType: int, m: Maths)
    requires Rectangular(poses) && Lawful(m)
    ensures var d := DistanceGrid(poses, distType, m);
      && (forall i, j :: 0 <= i < |poses| && 0 <= j < |poses| ==> d[i][j] == d[j][i] && d[i][j] >= 0.0)
      && (forall i :: 0 <= i < |poses| && (distType == 0 || |poses[i]| != 3) ==> d[i][i] == 0.0)
  {
    forall i, j | 0 <= i < |poses| && 0 <= j < |poses|
      ensures PoseDelta(poses[i], poses[j], distType, m) == PoseDelta(poses[j], poses[i], distType, m)
      ensures PoseDelta(poses[i], poses[j], distType, m) >= 0.0
      ensures (distType == 0 || |poses[i]| != 3) ==> PoseDelta(poses[i], poses[i], distType, m) == 0.0
    {
      PoseDeltaMetric(poses[i], poses[j], distType, m);
    }
  }

  /** Sum of the first k entries of a row. */
  function RowSum(r: seq<real>, k: nat): real
    requires k <= |r|
  {
    if k == 0 then 0.0 else RowSum(r, k - 1) + r[k - 1]
  }

  /** Sum of all entries of the first k rows. */
  function GridSum(g: seq<seq<real>>, k: nat): real
    requires k <= |g|
  {
    if k == 0 then 0.0 else GridSum(g, k - 1) + RowTotal(g[k - 1])
  }

  /** Sum of all entries of a row. */
  function RowTotal(r: seq<real>): real {
    RowSum(r, |r|)
  }

  lemma GridSumNext(g: seq<seq<real>>, k: nat)
    requires k < |g|
    ensures GridSum(g, k + 1) == GridSum(g, k) + RowTotal(g[k])
  {
  }

  /** The mean over all n * n entries of a square grid. */
  function MeanEntry(g: seq<seq<real>>): real
    requires |g| > 0
  {
    GridSum(g, |g|) / ((|g| * |g|) as real)
  }

  lemma {:induction false} RowSumNonNegative(r: seq<real>, k: nat)
    requires k <= |r| && forall t :: 0 <= t < |r| ==> r[t] >= 0.0
    ensures RowSum(r, k) >= 0.0
  {
    if k > 0 {
      RowSumNonNegative(r, k - 1);
    }
  }

  lemma {:induction false} GridSumNonNegative(g: seq<seq<real>>, k: nat)
    requires k <= |g| && forall i, t :: 0 <= i < |g| && 0 <= t < |g[i]| ==> g[i][t] >= 0.0
    ensures GridSum(g, k) >= 0.0
  {
    if k > 0 {
      GridSumNonNegative(g, k - 1);
      RowSumNonNegative(g[k - 1], |g[k - 1]|);
      assert RowTotal(g[k - 1]) >= 0.0;
    }
  }

  /** The mean distance, which becomes the Gaussian width, is never negative. */
  lemma MeanDistanceNonNegative(poses: seq<seq<real>>, distType: int, m: Maths)
    requires Rectangular(poses) && |poses| > 0 && Lawful(m)
    ensures MeanEntry(DistanceGrid(poses, distType, m)) >= 0.0
  {
    var d := DistanceGrid(poses, distType, m);
    DistanceGridMetric(poses, distType, m);
    GridSumNonNegative(d, |d|);
  }

  lemma SquarePositive(n: nat)
    requires n > 0
    ensures n * n > 0
  {
  }

  /**
   * getDistances: the distance matrix of the pose rows and the mean of all
   * its entries. The source divides 0 by 0 for an empty matrix; here at
   * least one pose row is required.
   */
  method GetDistances(poseMat: BRMatrix, distType: int, m: Maths) returns (distMat: BRMatrix, meanDist: real)
    requires poseMat.Valid() && poseMat.rows > 0
    ensures fresh(distMat) && distMat.Valid()
    ensures distMat.rows == poseMat.rows && distMat.cols == poseMat.rows
    ensures distMat.mat == DistanceGrid(poseMat.mat, distType, m)
    ensures meanDist == MeanEntry(distMat.mat)
  {
    var count := poseMat.rows;
    ghost var target := DistanceGrid(poseMat.mat, distType, m);
    distMat := new BRMatrix();
    distMat.SetSize(count, count);
    var sum := 0.0;
    var i := 0;
    while i < count
      invariant 0 <= i <= count
      invariant distMat.Valid() && distMat.rows == count && distMat.cols == count
      invariant forall r :: 0 <= r < i ==> distMat.mat[r] == target[r]
      invariant sum == GridSum(target, i)
    {
      var rowSum := FillDistanceRow(distMat, poseMat, i, distType, m);
      GridSumNext(target, i);
      sum := sum + rowSum;
      i := i + 1;
    }
    assert distMat.mat == target;
    SquarePositive(count);
    var cells := count * count;
    meanDist := sum / (cells as real);
  }

  /** One row of getDistances: entry (i, j) for every pose j, and the sum of that row. */
  method FillDistanceRow(distMat: BRMatrix, poseMat: BRMatrix, i: nat, distType: int, m: Maths) returns (rowSum: real)
    requires poseMat.Valid() && distMat.Valid() && distMat != poseMat
    requires distMat.rows == poseMat.rows && distMat.cols == poseMat.rows && i < poseMat.rows
    modifies distMat
    ensures distMat.Valid() && distMat.rows == old(distMat.rows) && distMat.cols == old(distMat.cols)
    ensures distMat.mat == old(distMat.mat)[i := DistanceGrid(poseMat.mat, distType, m)[i]]
    ensures rowSum == RowTotal(DistanceGrid(poseMat.mat, distType, m)[i])
  {
    var count := poseMat.rows;
    ghost var target := DistanceRow(poseMat.mat, i, distType, m);
    ghost var before := distMat.mat;
    rowSum := 0.0;
    var j := 0;
    while j < count
      invariant 0 <= j <= count
      invariant distMat.Valid() && distMat.rows == count && distMat.cols == count
      invariant distMat.mat == before[i := distMat.mat[i]]
      invariant forall c :: 0 <= c < count ==> distMat.mat[i][c] == if c < j then target[c] else before[i][c]
      invariant rowSum == RowSum(target, j)
    {
      var v1 := poseMat.GetRowVector(i);
      var v2 := poseMat.GetRowVector(j);
      var dist := GetPoseDelta(v1, v2, distType, m);
      distMat.Set(i, j, dist);
      rowSum := rowSum + dist;
      j := j + 1;
    }
    assert distMat.mat[i] == target;
  }

  /** Every entry (i, j) with j below the row count passed through the kernel. */
  function ActivationGrid(g: seq<seq<real>>, width: real, kernelType: int, m: Maths): (a: seq<seq<real>>)
    ensures |a| == |g| && forall i :: 0 <= i < |g| ==> |a[i]| == |g[i]|
    ensures forall i, j :: 0 <= i < |g| && 0 <= j < |g[i]| ==>
      a[i][j] == if j < |g| then InterpolateRbf(g[i][j], width, kernelType, m) else g[i][j]
  {
    seq(|g|, i requires 0 <= i < |g| =>
      seq(|g[i]|, j requires 0 <= j < |g[i]| => if j < |g| then InterpolateRbf(g[i][j], width, kernelType, m) else g[i][j]))
  }

  /** With the Gaussian kernel on Euclidean distances every pose fully activates itself. */
  lemma ActivationDiagonal(poses: seq<seq<real>>, width: real, m: Maths)
    requires Rectangular(poses) && Lawful(m)
    ensures var a := ActivationGrid(DistanceGrid(poses, 0, m), width, 0, m);
      forall i :: 0 <= i < |poses| ==> a[i][i] == 1.0
  {
    DistanceGridMetric(poses, 0, m);
  }

  /** getActivations: every entry of the square part replaced by its kernel value, in place. */
  method GetActivations(mat: BRMatrix, width: real, kernelType: int, m: Maths)
    requires mat.Valid() && mat.rows <= mat.cols
    modifies mat
    ensures mat.Valid() && mat.rows == old(mat.rows) && mat.cols == old(mat.cols)
    ensures mat.mat == ActivationGrid(old(mat.mat), width, kernelType, m)
  {
    var count := mat.rows;
    ghost var target := ActivationGrid(mat.mat, width, kernelType, m);
    var i := 0;
    while i < count
      invariant 0 <= i <= count
      invariant mat.Valid() && mat.rows == count && mat.cols == old(mat.cols)
      invariant forall r :: 0 <= r < i ==> mat.mat[r] == target[r]
      invariant forall r :: i <= r < count ==> mat.mat[r] == old(mat.mat)[r]
    {
      var j := 0;
      while j < count
        invariant 0 <= j <= count
        invariant mat.Valid() && mat.rows == count && mat.cols == old(mat.cols)
        invariant forall r :: 0 <= r < count && r != i ==> mat.mat[r] == if r < i then target[r] else old(mat.mat)[r]
        invariant forall c :: 0 <= c < mat.cols ==> mat.mat[i][c] == if c < j then target[i][c] else old(mat.mat)[i][c]
      {
        mat.Set(i, j, InterpolateRbf(mat.Get(i, j), width, kernelType, m));
        j := j + 1;
      }
      assert mat.mat[i] == target[i];
      i := i + 1;
    }
    assert mat.mat == target;
  }

  // ------------------------------------------------------------------
  // weights for a driver
  // ------------------------------------------------------------------

  /** Pose mode 1 drops the twist entry of the driver, mode 2 its vector entries. */
  function PoseGate(driver: seq<real>, mode: int): (dv: seq<real>)
    requires mode == 1 ==> |driver| >= 4
    requires mode == 2 ==> |driver| >= 3
    ensures |dv| == |driver|
    ensures forall k :: 0 <= k < |driver| ==>
      dv[k] == if (mode == 1 && k == 3) || (mode == 2 && k < 3) then 0.0 else driver[k]
  {
    if mode == 1 then driver[3 := 0.0]
    else if mode == 2 then driver[0 := 0.0][1 := 0.0][2 := 0.0]
    else driver
  }

  /** Under pose mode 1 the driver's twist entry has no influence on the distance. */
  lemma TwistIgnoredInRotationMode(d1: seq<real>, d2: seq<real>, pose: seq<real>, distType: int, m: Maths)
    requires |d1| == |d2| >= 4 && |pose| >= |d1|
    requires forall k :: 0 <= k < |d1| && k != 3 ==> d1[k] == d2[k]
    ensures PoseDelta(PoseGate(d1, 1), pose, distType, m) == PoseDelta(PoseGate(d2, 1), pose, distType, m)
  {
    assert PoseGate(d1, 1) == PoseGate(d2, 1);
  }

  /** Under pose mode 2 the driver's vector entries have no influence on the distance. */
  lemma VectorIgnoredInTwistMode(d1: seq<real>, d2: seq<real>, pose: seq<real>, distType: int, m: Maths)
    requires |d1| == |d2| >= 3 && |pose| >= |d1|
    requires forall k :: 3 <= k < |d1| ==> d1[k] == d2[k]
    ensures PoseDelta(PoseGate(d1, 2), pose, distType, m) == PoseDelta(PoseGate(d2, 2), pose, distType, m)
  {
    assert PoseGate(d1, 2) == PoseGate(d2, 2);
  }

  /** The driver, the pose rows and the modes fit together for every pose row. */
  predicate InferenceDefined(poses: seq<seq<real>>, driver: seq<real>, modes: seq<int>)
  {
    && |modes| >= |poses|
    && (forall i :: 0 <= i < |poses| ==> |poses[i]| >= |driver|)
    && (forall i :: 0 <= i < |poses| ==> (modes[i] == 1 ==> |driver| >= 4) && (modes[i] == 2 ==> |driver| >= 3))
  }

  /** The kernel value of the driver's distance to every pose row. */
  function PoseActivations(poses: seq<seq<real>>, driver: seq<real>, modes: seq<int>,
                           avgDist: real, distType: int, kernelType: int, m: Maths): (acts: seq<real>)
    requires InferenceDefined(poses, driver, modes)
    ensures |acts| == |poses|
  {
    seq(|poses|, i requires 0 <= i < |poses| =>
      InterpolateRbf(PoseDelta(PoseGate(driver, modes[i]), poses[i], distType, m), avgDist, kernelType, m))
  }

  /** Entry i of the activations: the kernel of the gated driver's distance to pose row i. */
  lemma PoseActivationEntry(poses: seq<seq<real>>, driver: seq<real>, modes: seq<int>,
                            avgDist: real, distType: int, kernelType: int, m: Maths, i: nat)
    requires InferenceDefined(poses, driver, modes) && i < |poses|
    ensures PoseActivations(poses, driver, modes, avgDist, distType, kernelType, m)[i]
         == InterpolateRbf(PoseDelta(PoseGate(driver, modes[i]), poses[i], distType, m), avgDist, kernelType, m)
  {
  }

  /** Output j: the activations weighted by column j of the weight matrix, over the first k poses. */
  function Blend(wm: seq<seq<real>>, acts: seq<real>, j: nat, k: nat): real
    requires k <= |wm| && k <= |acts| && forall i :: 0 <= i < k ==> j < |wm[i]|
  {
    if k == 0 then 0.0 else Blend(wm, acts, j, k - 1) + wm[k - 1][j] * acts[k - 1]
  }

  /** Every output j of `init` raised by its blend over the first k poses. */
  function Accumulated(init: seq<real>, wm: seq<seq<real>>, acts: seq<real>, k: nat): (r: seq<real>)
    requires k <= |wm| && k <= |acts| && forall i :: 0 <= i < |wm| ==> |wm[i]| == |init|
    ensures |r| == |init|
  {
    seq(|init|, j requires 0 <= j < |init| => init[j] + Blend(wm, acts, j, k))
  }

  /** Every entry of `v` raised by the matching entry of `row` times `a`. */
  function AddScaled(v: seq<real>, row: seq<real>, a: real): (r: seq<real>)
    requires |row| == |v|
    ensures |r| == |v|
  {
    seq(|v|, j requires 0 <= j < |v| => v[j] + row[j] * a)
  }

  /** Adding pose k's weighted activation extends every blend by one pose. */
  lemma AccumulateStep(init: seq<real>, wm: seq<seq<real>>, acts: seq<real>, k: nat)
    requires k < |wm| && k < |acts| && forall i :: 0 <= i < |wm| ==> |wm[i]| == |init|
    ensures AddScaled(Accumulated(init, wm, acts, k), wm[k], acts[k]) == Accumulated(init, wm, acts, k + 1)
  {
    var before := Accumulated(init, wm, acts, k);
    var after := Accumulated(init, wm, acts, k + 1);
    forall j | 0 <= j < |init|
      ensures AddScaled(before, wm[k], acts[k])[j] == after[j]
    {
      assert Blend(wm, acts, j, k + 1) == Blend(wm, acts, j, k) + wm[k][j] * acts[k];
    }
  }

  /** The blend is the dot product of the activations with a weight column. */
  lemma {:induction false} BlendIsDotProduct(wm: seq<seq<real>>, acts: seq<real>, j: nat, k: nat)
    requires k <= |wm| && k <= |acts| && forall i :: 0 <= i < |wm| ==> j < |wm[i]|
    ensures Blend(wm, acts, j, k) == SumProducts(acts, Column(wm, j), 0, k)
  {
    if k > 0 {
      BlendIsDotProduct(wm, acts, j, k - 1);
    }
  }

  /**
   * The defining property of the RBF network: when every weight column
   * solves the activation system for the matching value column, a driver
   * sitting exactly on training pose i reproduces that pose's values.
   */
  lemma InterpolatesTrainingPoses(poses: seq<seq<real>>, modes: seq<int>, wm: seq<seq<real>>, values: seq<seq<real>>,
                                  avgDist: real, distType: int, kernelType: int, m: Maths, i: nat, c: nat)
    requires Rectangular(poses) && i < |poses|
    requires InferenceDefined(poses, poses[i], modes)
    requires forall k :: 0 <= k < |poses| ==> PoseGate(poses[i], modes[k]) == poses[i]
    requires |wm| == |poses| && forall k :: 0 <= k < |wm| ==> c < |wm[k]|
    requires |values| >= |poses| && forall k :: 0 <= k < |values| ==> c < |values[k]|
    requires Solves(ActivationGrid(DistanceGrid(poses, distType, m), avgDist, kernelType, m),
                    Column(values, c), Column(wm, c), |poses|)
    ensures Blend(wm, PoseActivations(poses, poses[i], modes, avgDist, distType, kernelType, m), c, |poses|) == values[i][c]
  {
    var n := |poses|;
    var a := ActivationGrid(DistanceGrid(poses, distType, m), avgDist, kernelType, m);
    var acts := PoseActivations(poses, poses[i], modes, avgDist, distType, kernelType, m);
    assert acts == a[i];
    BlendIsDotProduct(wm, acts, c, n);
    assert SumProducts(a[i], Column(wm, c), 0, n) == Column(values, c)[i];
  }

  /**
   * getPoseWeights: when the weight matrix matches the pose rows and the
   * output length, adds each pose's weighted kernel value to every output;
   * otherwise leaves the outputs untouched.
   */
  method GetPoseWeights(out: array<real>, poses: BRMatrix, driver: seq<real>, modes: seq<int>,
                        weightMat: BRMatrix, avgDist: real, distType: int, kernelType: int, m: Maths)
    requires poses.Valid() && weightMat.Valid()
    requires weightMat.rows == poses.rows && weightMat.cols == out.Length ==> InferenceDefined(poses.mat, driver, modes)
    modifies out
    ensures weightMat.rows != poses.rows || weightMat.cols != out.Length ==> out[..] == old(out[..])
    ensures weightMat.rows == poses.rows && weightMat.cols == out.Length ==>
      forall j :: 0 <= j < out.Length ==>
        out[j] == old(out[j]) + Blend(weightMat.mat, PoseActivations(poses.mat, driver, modes, avgDist, distType, kernelType, m), j, poses.rows)
  {
    var poseCount := poses.rows;
    var valueCount := out.Length;
    if weightMat.rows != poseCount || weightMat.cols != valueCount {
      return;
    }
    ghost var acts := PoseActivations(poses.mat, driver, modes, avgDist, distType, kernelType, m);
    ghost var wm := weightMat.mat;
    ghost var init := out[..];
    var i := 0;
    while i < poseCount
      invariant 0 <= i <= poseCount
      invariant out[..] == Accumulated(init, wm, acts, i)
    {
      AccumulateStep(init, wm, acts, i);
      AddPoseWeight(out, poses, driver, modes, weightMat, avgDist, distType, kernelType, m, i);
      i := i + 1;
    }
    assert forall j :: 0 <= j < out.Length ==> out[j] == out[..][j] == init[j] + Blend(wm, acts, j, poseCount);
  }

  /** One pass of the outer loop of getPoseWeights: pose i's kernel value, weighted into every output. */
  method AddPoseWeight(out: array<real>, poses: BRMatrix, driver: seq<real>, modes: seq<int>,
                       weightMat: BRMatrix, avgDist: real, distType: int, kernelType: int, m: Maths, i: nat)
    requires poses.Valid() && weightMat.Valid() && i < poses.rows
    requires weightMat.rows == poses.rows && weightMat.cols == out.Length && InferenceDefined(poses.mat, driver, modes)
    modifies out
    ensures out[..] == AddScaled(old(out[..]), weightMat.mat[i],
      PoseActivations(poses.mat, driver, modes, avgDist, distType, kernelType, m)[i])
  {
    var dv := PoseGate(driver, modes[i]);
    var ps := poses.GetRowVector(i);
    var dist := GetPoseDelta(dv, ps, distType, m);
    PoseActivationEntry(poses.mat, driver, modes, avgDist, distType, kernelType, m, i);
    AddWeightedActivation(out, weightMat, i, InterpolateRbf(dist, avgDist, kernelType, m));
  }

  /** The inner loop of getPoseWeights: adds row i of the weight matrix, scaled by one pose's activation. */
  method AddWeightedActivation(out: array<real>, weightMat: BRMatrix, i: nat, activation: real)
    requires weightMat.Valid() && i < weightMat.rows && weightMat.cols == out.Length
    modifies out
    ensures out[..] == AddScaled(old(out[..]), weightMat.mat[i], activation)
  {
    ghost var before := out[..];
    ghost var target := AddScaled(before, weightMat.mat[i], activation);
    var j := 0;
    while j < out.Length
      invariant 0 <= j <= out.Length
      invariant forall t :: 0 <= t < out.Length ==> out[t] == if t < j then target[t] else before[t]
    {
      out[j] := out[j] + weightMat.Get(i, j) * activation;
      j := j + 1;
    }
    assert out[..] == target;
  }

  /**
   * The outputs getPoseWeights leaves in a zeroed output array of length
   * valueCount: each output's blend when the weight matrix has one row per
   * pose row and valueCount columns, zeros otherwise.
   */
  function PoseWeights(poses: seq<seq<real>>, wm: seq<seq<real>>, wCols: nat, valueCount: nat, driver: seq<real>,
                       modes: seq<int>, avgDist: real, distType: int, kernelType: int, m: Maths): (r: seq<real>)
    requires IsGrid(wm, |wm|, wCols)
    requires |wm| == |poses| && wCols == valueCount ==> InferenceDefined(poses, driver, modes)
    ensures |r| == valueCount
    ensures |wm| != |poses| || wCols != valueCount ==> forall j :: 0 <= j < valueCount ==> r[j] == 0.0
    ensures |wm| == |poses| && wCols == valueCount ==> forall j :: 0 <= j < valueCount ==>
      r[j] == SumProducts(PoseActivations(poses, driver, modes, avgDist, distType, kernelType, m), Column(wm, j), 0, |poses|)
  {
    if |wm| == |poses| && wCols == valueCount then
      var acts := PoseActivations(poses, driver, modes, avgDist, distType, kernelType, m);
      assert forall j :: 0 <= j < valueCount ==> Blend(wm, acts, j, |poses|) == SumProducts(acts, Column(wm, j), 0, |poses|) by {
        forall j | 0 <= j < valueCount {
          BlendIsDotProduct(wm, acts, j, |poses|);
        }
      }
      seq(valueCount, j requires 0 <= j < valueCount => Blend(wm, acts, j, |poses|))
    else
      seq(valueCount, _ => 0.0)
  }

  /**
   * The whole output vector at a training pose: when every weight column
   * solves the activation system, a driver on pose i yields pose i's values
   * before shaping.
   */
  lemma PoseWeightsAtTrainingPose(poses: seq<seq<real>>, modes: seq<int>, wm: seq<seq<real>>, values: seq<seq<real>>,
                                  valueCount: nat, avgDist: real, distType: int, kernelType: int, m: Maths, i: nat)
    requires Rectangular(poses) && i < |poses|
    requires InferenceDefined(poses, poses[i], modes)
    requires forall k :: 0 <= k < |poses| ==> PoseGate(poses[i], modes[k]) == poses[i]
    requires IsGrid(wm, |poses|, valueCount) && IsGrid(values, |poses|, valueCount)
    requires forall c :: 0 <= c < valueCount ==>
      Solves(ActivationGrid(DistanceGrid(poses, distType, m), avgDist, kernelType, m), Column(values, c), Column(wm, c), |poses|)
    ensures PoseWeights(poses, wm, valueCount, valueCount, poses[i], modes, avgDist, distType, kernelType, m) == values[i]
  {
    var r := PoseWeights(poses, wm, valueCount, valueCount, poses[i], modes, avgDist, distType, kernelType, m);
    var acts := PoseActivations(poses, poses[i], modes, avgDist, distType, kernelType, m);
    forall c | 0 <= c < valueCount
      ensures r[c] == values[i][c]
    {
      InterpolatesTrainingPoses(poses, modes, wm, values, avgDist, distType, kernelType, m, i, c);
      BlendIsDotProduct(wm, acts, c, |poses|);
    }
  }

  /** Every raw weight passed through the shaping of compute's final loop. */
  function ShapedWeights(raw: seq<real>, allowNegative: bool, bias: real, useInterpolation: bool,
                         interpolation: int, scale: real, m: Maths, curve: real -> real): (r: seq<real>)
    ensures |r| == |raw|
    ensures !allowNegative && bias >= 0.0 && !useInterpolation && scale >= 0.0 && Lawful(m) ==>
      forall j :: 0 <= j < |r| ==> r[j] >= 0.0
    ensures bias == 0.0 && !useInterpolation && allowNegative ==> forall j :: 0 <= j < |r| ==> r[j] == raw[j] * scale
  {
    seq(|raw|, j requires 0 <= j < |raw| => PostProcess(raw[j], allowNegative, bias, useInterpolation, interpolation, scale, m, curve))
  }

  /** The final loop of compute's RBF branch: every weight shaped in place. */
  method ShapeWeights(out: array<real>, allowNegative: bool, bias: real, useInterpolation: bool,
                      interpolation: int, scale: real, m: Maths, curve: real -> real)
    modifies out
    ensures out[..] == ShapedWeights(old(out[..]), allowNegative, bias, useInterpolation, interpolation, scale, m, curve)
  {
    ghost var before := out[..];
    ghost var target := ShapedWeights(before, allowNegative, bias, useInterpolation, interpolation, scale, m, curve);
    var i := 0;
    while i < out.Length
      invariant 0 <= i <= out.Length
      invariant forall t :: 0 <= t < out.Length ==> out[t] == if t < i then target[t] else before[t]
    {
      var clamped := if out[i] < 0.0 && !allowNegative then 0.0 else out[i];
      assert target[i] == PostProcess(before[i], allowNegative, bias, useInterpolation, interpolation, scale, m, curve);
      out[i] := ShapeWeight(clamped, bias, useInterpolation, interpolation, scale, m, curve);
      i := i + 1;
    }
    assert out[..] == target;
  }
}
