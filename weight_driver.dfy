/**
 * The RBF side of the weightDriver node: gathering the pose data in
 * generic mode (plain numeric inputs) and in matrix mode (transform
 * drivers), training the RBF weight matrix, computing the output weights
 * for the current driver, and writing them to the output array.
 *
 * The host's dependency graph is replaced by a value of type `Plugs` that
 * holds everything the node reads from its attributes during one
 * evaluation; the node's member variables that survive between
 * evaluations are the fields of the class `WeightDriver`.
 */
module RbfNode {
  import opened HostMath
  import opened Grids
  import opened Elimination
  import opened Matrices
  import opened Rbf

  // ------------------------------------------------------------------
  // what one evaluation reads from the node's attributes
  // ------------------------------------------------------------------

  /**
   * One element of the generic pose array, listed in physical order:
   * its logical index and the sparse input and value arrays, keyed by
   * their logical indices.
   */
  datatype GenericPose = GenericPose(id: nat, inputs: map<nat, real>, values: map<nat, real>)

  /**
   * One pose of a matrix-mode driver, listed in physical order: its logical
   * index, the pose's direction vector and rotation relative to the
   * driver's parent (the matrix algebra that produces them is the host's),
   * and its pose mode (0 rotation and twist, 1 rotation only, 2 twist only).
   */
  datatype MatrixPose = MatrixPose(id: nat, vector: Vector3, rotation: Quaternion, mode: int)

  /**
   * One element of the driver list: whether its input matrix is connected,
   * the driver's direction vector and rotation relative to its parent, and
   * its poses.
   */
  datatype DriverInput = DriverInput(connected: bool, vector: Vector3, rotation: Quaternion, poses: seq<MatrixPose>)

  /** The attribute values compute reads. */
  datatype Plugs = Plugs(
    active: bool,
    hasNoEffect: bool,
    evaluate: bool,
    allowNegative: bool,
    bias: real,
    distanceType: int,
    kernel: int,
    interpolation: int,
    useInterpolation: bool,
    scale: real,
    twistAxis: int,
    inputs: seq<real>,
    restInputs: seq<real>,
    poses: seq<GenericPose>,
    posesConnected: bool,
    outputIds: seq<nat>,
    drivers: seq<DriverInput>)

  /**
   * The result of one evaluation. `UndefinedBehaviour` marks the runs in
   * which the source would read outside a matrix or a vector.
   */
  datatype Status = Success | Failure | UndefinedBehaviour

  // ------------------------------------------------------------------
  // generic mode
  // ------------------------------------------------------------------

  /**
   * The pose count getPoseData settles on: one more when the first pose
   * index is not 0, one less when the last pose element has no inputs.
   */
  function GenericPoseCount(poses: seq<GenericPose>): (count: nat)
    requires |poses| > 0
    ensures count == |poses| + (if poses[0].id != 0 then 1 else 0) - (if |poses[|poses| - 1].inputs| == 0 then 1 else 0)
  {
    var withFirst := |poses| + if poses[0].id != 0 then 1 else 0;
    if |poses[|poses| - 1].inputs| == 0 then withFirst - 1 else withFirst
  }

  /** The rest vector: the rest inputs under a non-Euclidean distance type, zero otherwise. */
  function GenericRest(inputs: seq<real>, restInputs: seq<real>, distType: int): (rest: seq<real>)
    ensures |rest| == |inputs|
    ensures forall i :: 0 <= i < |inputs| ==> rest[i] == if distType != 0 && i < |restInputs| then restInputs[i] else 0.0
  {
    seq(|inputs|, i requires 0 <= i < |inputs| => if distType != 0 && i < |restInputs| then restInputs[i] else 0.0)
  }

  /**
   * Row i of the pose matrix: the inputs of the i-th pose element minus the
   * rest vector, with a missing element or input read as 0.
   */
  function GenericPoseRow(poses: seq<GenericPose>, i: nat, rest: seq<real>): (row: seq<real>)
    ensures |row| == |rest|
  {
    seq(|rest|, j requires 0 <= j < |rest| =>
      if i < |poses| && j in poses[i].inputs then poses[i].inputs[j] - rest[j] else 0.0 - rest[j])
  }

  /** Row i of the value matrix: the values of the i-th pose element, missing ones read as 0. */
  function GenericValueRow(poses: seq<GenericPose>, i: nat, solveCount: nat): (row: seq<real>)
    ensures |row| == solveCount
  {
    seq(solveCount, j requires 0 <= j < solveCount =>
      if i < |poses| && j in poses[i].values then poses[i].values[j] else 0.0)
  }

  function GenericPoseGrid(poses: seq<GenericPose>, count: nat, rest: seq<real>): (g: seq<seq<real>>)
    ensures IsGrid(g, count, |rest|)
  {
    seq(count, i requires 0 <= i < count => GenericPoseRow(poses, i, rest))
  }

  function GenericValueGrid(poses: seq<GenericPose>, count: nat, solveCount: nat): (g: seq<seq<real>>)
    ensures IsGrid(g, count, solveCount)
  {
    seq(count, i requires 0 <= i < count => GenericValueRow(poses, i, solveCount))
  }

  /** A pose element's inputs as a dense vector of length n, missing ones read as 0. */
  function RawPose(p: GenericPose, n: nat): (v: seq<real>)
    ensures |v| == n
  {
    seq(n, j requires 0 <= j < n => if j in p.inputs then p.inputs[j] else 0.0)
  }

  /**
   * The rest inputs shift the driver and every stored pose alike, so the
   * Euclidean distance between the driver and a stored pose is the distance
   * between the raw inputs and the raw pose inputs.
   */
  lemma GenericDistanceIgnoresRest(inputs: seq<real>, restInputs: seq<real>, distType: int,
                                   poses: seq<GenericPose>, i: nat)
    requires i < |poses|
    ensures var rest := GenericRest(inputs, restInputs, distType);
      SquaredSum(Minus(inputs, rest), GenericPoseRow(poses, i, rest), |inputs|)
        == SquaredSum(inputs, RawPose(poses[i], |inputs|), |inputs|)
  {
    var rest := GenericRest(inputs, restInputs, distType);
    PoseRowIsShiftedRaw(poses, i, rest);
    RestOffsetCancels(inputs, RawPose(poses[i], |inputs|), rest, |inputs|);
  }

  /** A stored pose row is the raw pose inputs minus the rest vector. */
  lemma PoseRowIsShiftedRaw(poses: seq<GenericPose>, i: nat, rest: seq<real>)
    requires i < |poses|
    ensures GenericPoseRow(poses, i, rest) == Minus(RawPose(poses[i], |rest|), rest)
  {
    var raw := RawPose(poses[i], |rest|);
    var row := GenericPoseRow(poses, i, rest);
    forall j | 0 <= j < |rest|
      ensures row[j] == Minus(raw, rest)[j]
    {
    }
  }

  /** Writes row i of the generic pose matrix, as the two loops of getPoseData do. */
  method FillGenericPoseRow(poseData: BRMatrix, poses: seq<GenericPose>, i: nat, rest: seq<real>)
    requires poseData.Valid() && i < poseData.rows && poseData.cols == |rest|
    modifies poseData
    ensures poseData.Valid() && poseData.rows == old(poseData.rows) && poseData.cols == old(poseData.cols)
    ensures poseData.mat == old(poseData.mat)[i := GenericPoseRow(poses, i, rest)]
  {
    var inDim := |rest|;
    ghost var target := GenericPoseRow(poses, i, rest);
    var j := 0;
    while j < inDim
      invariant 0 <= j <= inDim
      invariant poseData.Valid() && poseData.rows == old(poseData.rows) && poseData.cols == inDim
      invariant forall r :: 0 <= r < poseData.rows && r != i ==> poseData.mat[r] == old(poseData.mat)[r]
      invariant forall c :: 0 <= c < inDim ==> poseData.mat[i][c] == if c < j then 0.0 - rest[c] else old(poseData.mat)[i][c]
    {
      poseData.Set(i, j, 0.0 - rest[j]);
      j := j + 1;
    }
    if i < |poses| {
      var inputs := poses[i].inputs;
      j := 0;
      while j < inDim
        invariant 0 <= j <= inDim
        invariant poseData.Valid() && poseData.rows == old(poseData.rows) && poseData.cols == inDim
        invariant forall r :: 0 <= r < poseData.rows && r != i ==> poseData.mat[r] == old(poseData.mat)[r]
        invariant forall c :: 0 <= c < inDim ==> poseData.mat[i][c] == if c < j then target[c] else 0.0 - rest[c]
      {
        if |inputs| != 0 && j in inputs {
          poseData.Set(i, j, inputs[j] - rest[j]);
        }
        j := j + 1;
      }
    }
    assert poseData.mat[i] == target;
    assert poseData.mat == old(poseData.mat)[i := target];
  }

  /** Writes row i of the generic value matrix, as the two loops of getPoseData do. */
  method FillGenericValueRow(poseVals: BRMatrix, poses: seq<GenericPose>, i: nat, solveCount: nat)
    requires poseVals.Valid() && i < poseVals.rows && poseVals.cols == solveCount
    modifies poseVals
    ensures poseVals.Valid() && poseVals.rows == old(poseVals.rows) && poseVals.cols == old(poseVals.cols)
    ensures poseVals.mat == old(poseVals.mat)[i := GenericValueRow(poses, i, solveCount)]
  {
    ghost var target := GenericValueRow(poses, i, solveCount);
    var j := 0;
    while j < solveCount
      invariant 0 <= j <= solveCount
      invariant poseVals.Valid() && poseVals.rows == old(poseVals.rows) && poseVals.cols == solveCount
      invariant forall r :: 0 <= r < poseVals.rows && r != i ==> poseVals.mat[r] == old(poseVals.mat)[r]
      invariant forall c :: 0 <= c < solveCount ==> poseVals.mat[i][c] == if c < j then 0.0 else old(poseVals.mat)[i][c]
    {
      poseVals.Set(i, j, 0.0);
      j := j + 1;
    }
    if i < |poses| {
      var values := poses[i].values;
      j := 0;
      while j < solveCount
        invariant 0 <= j <= solveCount
        invariant poseVals.Valid() && poseVals.rows == old(poseVals.rows) && poseVals.cols == solveCount
        invariant forall r :: 0 <= r < poseVals.rows && r != i ==> poseVals.mat[r] == old(poseVals.mat)[r]
        invariant forall c :: 0 <= c < solveCount ==> poseVals.mat[i][c] == if c < j then target[c] else 0.0
      {
        if |values| != 0 && j in values {
          poseVals.Set(i, j, values[j]);
        }
        j := j + 1;
      }
    }
    assert poseVals.mat[i] == target;
    assert poseVals.mat == old(poseVals.mat)[i := target];
  }

  // ------------------------------------------------------------------
  // matrix mode
  // ------------------------------------------------------------------

  /** The number of leading drivers whose input is connected; gathering stops at the first other one. */
  function Leading(drivers: seq<DriverInput>): (k: nat)
    ensures k <= |drivers|
    ensures forall e :: 0 <= e < k ==> drivers[e].connected
    ensures k < |drivers| ==> !drivers[k].connected
  {
    if |drivers| == 0 || !drivers[0].connected then 0
    else
      var rest := Leading(drivers[1..]);
      assert forall e :: 1 <= e <= rest ==> drivers[e] == drivers[1..][e - 1];
      1 + rest
  }

  /** Drivers up to d all connected: gathering reads past d. */
  lemma LeadingCovers(drivers: seq<DriverInput>, d: nat)
    requires d < |drivers| && forall e :: 0 <= e <= d ==> drivers[e].connected
    ensures d < Leading(drivers)
  {
  }

  /** Gathering stops at d when the drivers before d are connected and d is the end or not connected. */
  lemma LeadingStops(drivers: seq<DriverInput>, d: nat)
    requires d <= |drivers| && forall e :: 0 <= e < d ==> drivers[e].connected
    requires d == |drivers| || !drivers[d].connected
    ensures Leading(drivers) == d
  {
  }

  /** The four driver entries of one driver: its direction vector and its twist angle. */
  function DriverBlock(dr: DriverInput, axis: int, m: Maths): (b: seq<real>)
    ensures |b| == 4
  {
    [dr.vector.x, dr.vector.y, dr.vector.z, GetTwistAngle(dr.rotation, axis, m)]
  }

  /**
   * The four pose entries stored for one pose: its direction vector unless
   * the pose is twist-only (mode 2), its twist angle unless it is
   * rotation-only (mode 1); the skipped entries stay 0.
   */
  function PoseBlock(p: MatrixPose, axis: int, m: Maths): (b: seq<real>)
    ensures |b| == 4
    ensures p.mode == 2 ==> b[0] == 0.0 && b[1] == 0.0 && b[2] == 0.0
    ensures p.mode == 1 ==> b[3] == 0.0
  {
    [if p.mode != 2 then p.vector.x else 0.0,
     if p.mode != 2 then p.vector.y else 0.0,
     if p.mode != 2 then p.vector.z else 0.0,
     if p.mode != 1 then GetTwistAngle(p.rotation, axis, m) else 0.0]
  }

  /** Entry c belongs to block c / 4, at offset c % 4. */
  lemma BlockIndex(c: nat, d: nat)
    ensures (c / 4 == d) == (4 * d <= c < 4 * d + 4)
    ensures 4 * d <= c < 4 * d + 4 ==> c % 4 == c - 4 * d
  {
  }

  /** The driver vector once the first k drivers are written: four entries per driver, zeros after. */
  function MatrixDriver(drivers: seq<DriverInput>, k: nat, axis: int, m: Maths): (v: seq<real>)
    requires k <= |drivers|
    ensures |v| == 4 * |drivers|
  {
    seq(4 * |drivers|, c requires 0 <= c < 4 * |drivers| =>
      if c / 4 < k then DriverBlock(drivers[c / 4], axis, m)[c % 4] else 0.0)
  }

  /** Every one of the first k drivers has at least count poses. */
  ghost predicate PosesCover(drivers: seq<DriverInput>, k: nat, count: nat)
    requires k <= |drivers|
  {
    forall e :: 0 <= e < k ==> count <= |drivers[e].poses|
  }

  /** Row i of the pose matrix once the first k drivers are stored. */
  function MatrixPoseRow(drivers: seq<DriverInput>, k: nat, i: nat, axis: int, m: Maths): (row: seq<real>)
    requires k <= |drivers| && forall e :: 0 <= e < k ==> i < |drivers[e].poses|
    ensures |row| == 4 * |drivers|
  {
    seq(4 * |drivers|, c requires 0 <= c < 4 * |drivers| =>
      if c / 4 < k then PoseBlock(drivers[c / 4].poses[i], axis, m)[c % 4] else 0.0)
  }

  function MatrixPoseGrid(drivers: seq<DriverInput>, k: nat, count: nat, axis: int, m: Maths): (g: seq<seq<real>>)
    requires k <= |drivers| && PosesCover(drivers, k, count)
    ensures IsGrid(g, count, 4 * |drivers|)
    ensures forall i :: 0 <= i < count ==> g[i] == MatrixPoseRow(drivers, k, i, axis, m)
  {
    seq(count, i requires 0 <= i < count => MatrixPoseRow(drivers, k, i, axis, m))
  }

  /** The logical indices of a driver's poses. */
  function PoseIds(poses: seq<MatrixPose>): (ids: seq<nat>)
    ensures |ids| == |poses| && forall i :: 0 <= i < |poses| ==> ids[i] == poses[i].id
  {
    seq(|poses|, i requires 0 <= i < |poses| => poses[i].id)
  }

  /** The modes of a driver's first count poses. */
  function PoseModes(poses: seq<MatrixPose>, count: nat): (modes: seq<int>)
    requires count <= |poses|
    ensures |modes| == count && forall i :: 0 <= i < count ==> modes[i] == poses[i].mode
  {
    seq(count, i requires 0 <= i < count => poses[i].mode)
  }

  /**
   * The modes getPoseVectors leaves for a driver whose pose loop runs to
   * count or stops at the driver's last pose: each pose's own mode, 0 past
   * the last pose.
   */
  function PartialModes(poses: seq<MatrixPose>, count: nat): (modes: seq<int>)
    ensures |modes| == count
    ensures forall i :: 0 <= i < count && i < |poses| ==> modes[i] == poses[i].mode
    ensures forall i :: |poses| <= i < count ==> modes[i] == 0
    ensures count <= |poses| ==> modes == PoseModes(poses, count)
  {
    seq(count, i requires 0 <= i < count => if i < |poses| then poses[i].mode else 0)
  }

  /** Pose i of driver d has a mode other than the one recorded before it (when one was recorded). */
  ghost predicate ModeChangedAt(drivers: seq<DriverInput>, prev: seq<int>, d: nat, i: nat)
    requires d < |drivers| && i < |drivers[d].poses|
  {
    |prev| != 0 && i < |prev| && drivers[d].poses[i].mode != prev[i]
  }

  /** The modes recorded before driver d is read: the node's previous modes, then each driver's in turn. */
  function PrevModes(drivers: seq<DriverInput>, oldModes: seq<int>, d: nat, count: nat): seq<int>
    requires d < |drivers| && (d > 0 ==> count <= |drivers[d - 1].poses|)
  {
    if d == 0 then oldModes else PoseModes(drivers[d - 1].poses, count)
  }

  /** Some pose of the first k drivers changed its mode. */
  ghost predicate ModesChanged(drivers: seq<DriverInput>, oldModes: seq<int>, k: nat, count: nat)
    requires k <= |drivers| && PosesCover(drivers, k, count)
  {
    exists d, i :: 0 <= d < k && 0 <= i < count && ModeChangedAt(drivers, PrevModes(drivers, oldModes, d, count), d, i)
  }

  /** Reading driver d adds its poses' mode changes to those of the drivers before it. */
  lemma ModesChangedStep(drivers: seq<DriverInput>, oldModes: seq<int>, d: nat, count: nat, prev: seq<int>)
    requires d < |drivers| && PosesCover(drivers, d + 1, count)
    requires prev == PrevModes(drivers, oldModes, d, count)
    ensures ModesChanged(drivers, oldModes, d + 1, count) ==
      ((d > 0 && ModesChanged(drivers, oldModes, d, count)) || exists i :: 0 <= i < count && ModeChangedAt(drivers, prev, d, i))
  {
    if ModesChanged(drivers, oldModes, d + 1, count) {
      var e, i :| 0 <= e < d + 1 && 0 <= i < count && ModeChangedAt(drivers, PrevModes(drivers, oldModes, e, count), e, i);
      if e < d {
        assert ModesChanged(drivers, oldModes, d, count);
      }
    }
  }

  /** Writing driver d's block turns the driver vector for d drivers into the one for d + 1. */
  lemma DriverStep(drivers: seq<DriverInput>, d: nat, axis: int, m: Maths)
    requires d < |drivers|
    ensures var b := DriverBlock(drivers[d], axis, m);
      MatrixDriver(drivers, d, axis, m)[4 * d := b[0]][4 * d + 1 := b[1]][4 * d + 2 := b[2]][4 * d + 3 := b[3]]
        == MatrixDriver(drivers, d + 1, axis, m)
  {
    var b := DriverBlock(drivers[d], axis, m);
    var before := MatrixDriver(drivers, d, axis, m);
    var after := before[4 * d := b[0]][4 * d + 1 := b[1]][4 * d + 2 := b[2]][4 * d + 3 := b[3]];
    forall c | 0 <= c < 4 * |drivers|
      ensures after[c] == MatrixDriver(drivers, d + 1, axis, m)[c]
    {
      BlockIndex(c, d);
    }
  }

  /** Writing pose i's block of driver d turns row i for d drivers into the row for d + 1. */
  lemma PoseRowStep(drivers: seq<DriverInput>, d: nat, i: nat, axis: int, m: Maths, before: seq<real>, after: seq<real>)
    requires d < |drivers| && forall e :: 0 <= e <= d ==> i < |drivers[e].poses|
    requires before == MatrixPoseRow(drivers, d, i, axis, m) && |after| == |before|
    requires forall c :: 0 <= c < |after| ==> (after[c] ==
      if 4 * d <= c < 4 * d + 4 && !(drivers[d].poses[i].mode == 2 && c < 4 * d + 3)
      then PoseBlock(drivers[d].poses[i], axis, m)[c - 4 * d] else before[c])
    ensures after == MatrixPoseRow(drivers, d + 1, i, axis, m)
  {
    forall c | 0 <= c < |after|
      ensures after[c] == MatrixPoseRow(drivers, d + 1, i, axis, m)[c]
    {
      BlockIndex(c, d);
    }
  }

  /**
   * The cell writes of one pose of getPoseVectors: the vector entries unless
   * the pose is twist-only, then the twist entry as 0 and, unless the pose is
   * rotation-only, as the twist angle.
   */
  method WritePoseBlock(poseData: BRMatrix, i: nat, d: nat, p: MatrixPose, axis: int, m: Maths)
    requires poseData.Valid() && i < poseData.rows && 4 * d + 4 <= poseData.cols
    modifies poseData
    ensures poseData.Valid() && poseData.rows == old(poseData.rows) && poseData.cols == old(poseData.cols)
    ensures forall r :: 0 <= r < poseData.rows && r != i ==> poseData.mat[r] == old(poseData.mat[r])
    ensures forall c :: 0 <= c < poseData.cols ==> (poseData.mat[i][c] ==
      if 4 * d <= c < 4 * d + 4 && !(p.mode == 2 && c < 4 * d + 3)
      then PoseBlock(p, axis, m)[c - 4 * d] else old(poseData.mat[i][c]))
  {
    if p.mode != 2 {
      poseData.Set(i, 4 * d, p.vector.x);
      poseData.Set(i, 4 * d + 1, p.vector.y);
      poseData.Set(i, 4 * d + 2, p.vector.z);
    }
    poseData.Set(i, 4 * d + 3, 0.0);
    if p.mode != 1 {
      poseData.Set(i, 4 * d + 3, GetTwistAngle(p.rotation, axis, m));
    }
  }

  /** Row i of the value matrix becomes row i of the identity, as the first driver's pose loop writes it. */
  method WriteIdentityRow(poseVals: BRMatrix, i: nat)
    requires poseVals.Valid() && i < poseVals.rows && poseVals.rows == poseVals.cols
    modifies poseVals
    ensures poseVals.Valid() && poseVals.rows == old(poseVals.rows) && poseVals.cols == old(poseVals.cols)
    ensures poseVals.mat == old(poseVals.mat)[i := Identity(poseVals.rows)[i]]
  {
    var count := poseVals.rows;
    ghost var target := Identity(count)[i];
    var p := 0;
    while p < count
      invariant 0 <= p <= count
      invariant poseVals.Valid() && poseVals.rows == count && poseVals.cols == count
      invariant forall r :: 0 <= r < count && r != i ==> poseVals.mat[r] == old(poseVals.mat[r])
      invariant forall c :: 0 <= c < count ==> poseVals.mat[i][c] == if c < p then target[c] else old(poseVals.mat[i][c])
    {
      poseVals.Set(i, p, 0.0);
      if i == p {
        poseVals.Set(i, p, 1.0);
      }
      p := p + 1;
    }
    assert poseVals.mat[i] == target;
    assert poseVals.mat == old(poseVals.mat)[i := target];
  }

  // ------------------------------------------------------------------
  // output indices
  // ------------------------------------------------------------------

  /**
   * The output indices setOutputValues writes: 0..n-1 in generic mode, the
   * existing output indices in generic mode when inactive, and the pose
   * indices of the first driver in matrix mode.
   */
  function OutputIds(generic: bool, inactive: bool, weightCount: nat, existing: seq<nat>, matrixIds: seq<nat>): (ids: seq<nat>)
    ensures generic && !inactive ==> |ids| == weightCount && forall i :: 0 <= i < weightCount ==> ids[i] == i
    ensures generic && inactive ==> ids == existing
    ensures !generic ==> ids == matrixIds
  {
    if generic then (if !inactive then Range(weightCount) else existing)
    else matrixIds
  }

  /**
   * The value written at position i: 0 when inactive, 0 past the first
   * output when there is a single weight, the weight itself otherwise.
   */
  function OutputValue(weights: seq<real>, inactive: bool, i: nat): real
    requires inactive || (|weights| == 1 && i > 0) || i < |weights|
  {
    if inactive || (|weights| == 1 && i > 0) then 0.0 else weights[i]
  }

  /** The indices 0..n-1 in order. */
  function Range(n: nat): (r: seq<nat>)
    ensures |r| == n && forall i :: 0 <= i < n ==> r[i] == i
  {
    seq(n, i requires 0 <= i < n => i)
  }

  /** n pose modes of 0. */
  function ZeroModes(n: nat): (r: seq<int>)
    ensures |r| == n && forall i :: 0 <= i < n ==> r[i] == 0
  {
    seq(n, _ => 0)
  }

  /** Every position below n has a value to write. */
  predicate Writable(weights: seq<real>, inactive: bool, n: nat) {
    inactive || |weights| == 1 || n <= |weights|
  }

  /** The output array after writing positions 0..n-1 in order. */
  function WriteAll(ids: seq<nat>, weights: seq<real>, inactive: bool, n: nat): map<nat, real>
    requires n <= |ids| && Writable(weights, inactive, n)
  {
    if n == 0 then map[]
    else WriteAll(ids, weights, inactive, n - 1)[ids[n - 1] := OutputValue(weights, inactive, n - 1)]
  }

  /** The written indices are exactly the listed ones. */
  lemma {:induction false} WriteAllKeys(ids: seq<nat>, weights: seq<real>, inactive: bool, n: nat)
    requires n <= |ids| && Writable(weights, inactive, n)
    ensures WriteAll(ids, weights, inactive, n).Keys == set k | 0 <= k < n :: ids[k]
  {
    if n > 0 {
      WriteAllKeys(ids, weights, inactive, n - 1);
      assert (set k | 0 <= k < n :: ids[k]) == (set k | 0 <= k < n - 1 :: ids[k]) + {ids[n - 1]};
    }
  }

  /** An index that is not repeated later holds the value of its position. */
  lemma {:induction false} WriteAllValue(ids: seq<nat>, weights: seq<real>, inactive: bool, n: nat, i: nat)
    requires n <= |ids| && Writable(weights, inactive, n) && i < n
    requires forall k :: i < k < n ==> ids[k] != ids[i]
    ensures ids[i] in WriteAll(ids, weights, inactive, n)
    ensures WriteAll(ids, weights, inactive, n)[ids[i]] == OutputValue(weights, inactive, i)
  {
    if i < n - 1 {
      WriteAllValue(ids, weights, inactive, n - 1, i);
    }
  }

  /** When inactive every written value is 0. */
  lemma {:induction false} WriteAllInactive(ids: seq<nat>, weights: seq<real>, n: nat)
    requires n <= |ids|
    ensures forall k :: k in WriteAll(ids, weights, true, n) ==> WriteAll(ids, weights, true, n)[k] == 0.0
  {
    if n > 0 {
      WriteAllInactive(ids, weights, n - 1);
    }
  }

  /** With the generic output indices 0..n-1 no index repeats. */
  lemma GenericIdsDistinct(n: nat, existing: seq<nat>, matrixIds: seq<nat>, i: nat, k: nat)
    requires i < k < n
    ensures OutputIds(true, false, n, existing, matrixIds)[k] != OutputIds(true, false, n, existing, matrixIds)[i]
  {
  }

  /**
   * The pose count of getPoseData. Looking up the last pose element fails
   * for an empty pose array, which ends the evaluation.
   */
  method CountGenericPoses(poses: seq<GenericPose>) returns (ok: bool, poseCount: nat)
    ensures ok == (|poses| != 0)
    ensures ok ==> poseCount == GenericPoseCount(poses)
  {
    poseCount := |poses|;
    var poseCountOriginal := poseCount;
    if poseCount != 0 && poses[0].id != 0 {
      poseCount := poseCount + 1;
    }
    if poseCountOriginal == 0 {
      return false, poseCount;
    }
    if |poses[poseCountOriginal - 1].inputs| == 0 {
      poseCount := poseCount - 1;
    }
    ok := true;
  }

  /** The driver and rest loop of getPoseData. */
  method DriverAndRest(inputs: seq<real>, restInputs: seq<real>, distType: int) returns (driver: seq<real>, rest: seq<real>)
    ensures rest == GenericRest(inputs, restInputs, distType)
    ensures driver == Minus(inputs, rest)
  {
    var inDim := |inputs|;
    var restDim := |restInputs|;
    ghost var restSpec := GenericRest(inputs, restInputs, distType);
    driver := seq(inDim, _ => 0.0);
    rest := seq(inDim, _ => 0.0);
    var i := 0;
    while i < inDim
      invariant 0 <= i <= inDim && |driver| == inDim && |rest| == inDim
      invariant forall k :: 0 <= k < i ==> rest[k] == restSpec[k] && driver[k] == inputs[k] - restSpec[k]
    {
      driver := driver[i := inputs[i]];
      if i < restDim {
        rest := rest[i := restInputs[i]];
      } else {
        rest := rest[i := 0.0];
      }
      if distType != 0 {
        driver := driver[i := driver[i] - rest[i]];
      } else {
        rest := rest[i := 0.0];
      }
      i := i + 1;
    }
  }

  /**
   * The pose loop of getPoseData: fresh pose and value matrices with one
   * row per pose, each row filled from the pose element at that position.
   */
  method GenericMatrices(poses: seq<GenericPose>, poseCount: nat, rest: seq<real>, solveCount: nat)
    returns (poseData: BRMatrix, poseVals: BRMatrix)
    ensures fresh(poseData) && fresh(poseVals) && poseData.Valid() && poseVals.Valid()
    ensures poseData.rows == poseCount && poseData.cols == |rest| && poseData.mat == GenericPoseGrid(poses, poseCount, rest)
    ensures poseVals.rows == poseCount && poseVals.cols == solveCount && poseVals.mat == GenericValueGrid(poses, poseCount, solveCount)
  {
    poseData := new BRMatrix();
    poseData.SetSize(poseCount, |rest|);
    poseVals := new BRMatrix();
    poseVals.SetSize(poseCount, solveCount);
    var i := 0;
    while i < poseCount
      invariant 0 <= i <= poseCount
      invariant poseData.Valid() && poseData.rows == poseCount && poseData.cols == |rest|
      invariant poseVals.Valid() && poseVals.rows == poseCount && poseVals.cols == solveCount
      invariant forall r :: 0 <= r < i ==> poseData.mat[r] == GenericPoseRow(poses, r, rest)
      invariant forall r :: 0 <= r < i ==> poseVals.mat[r] == GenericValueRow(poses, r, solveCount)
    {
      FillGenericPoseRow(poseData, poses, i, rest);
      FillGenericValueRow(poseVals, poses, i, solveCount);
      i := i + 1;
    }
    assert poseData.mat == GenericPoseGrid(poses, poseCount, rest);
    assert poseVals.mat == GenericValueGrid(poses, poseCount, solveCount);
  }

  /**
   * The pose loop of getPoseVectors for driver d, on the two matrices: the
   * new modes, whether one differs from the previous modes `prev`, and the
   * pose blocks and (first driver only) identity rows written.
   */
  method FillDriverPoses(poseData: BRMatrix, poseVals: BRMatrix, drivers: seq<DriverInput>, d: nat, count: nat,
                         axis: int, m: Maths, prev: seq<int>) returns (ok: bool, modes: seq<int>, changed: bool)
    requires d < |drivers| && PosesCover(drivers, d, count) && poseData != poseVals
    requires poseData.Valid() && poseData.rows == count && poseData.cols == 4 * |drivers|
    requires poseVals.Valid() && poseVals.rows == count && poseVals.cols == count
    requires poseData.mat == MatrixPoseGrid(drivers, d, count, axis, m)
    requires poseVals.mat == (if d == 0 then Zeros(count, count) else Identity(count))
    modifies poseData, poseVals
    ensures poseData.Valid() && poseData.rows == count && poseData.cols == 4 * |drivers|
    ensures poseVals.Valid() && poseVals.rows == count && poseVals.cols == count && |modes| == count
    ensures ok == (count <= |drivers[d].poses|)
    ensures modes == PartialModes(drivers[d].poses, count)
    ensures ok ==>
      && poseData.mat == MatrixPoseGrid(drivers, d + 1, count, axis, m) && poseVals.mat == Identity(count)
      && modes == PoseModes(drivers[d].poses, count)
      && changed == exists i :: 0 <= i < count && ModeChangedAt(drivers, prev, d, i)
    ensures !ok ==>
      var n := |drivers[d].poses|;
      && poseData.mat == StoredRows(drivers, d, n, count, axis, m)
      && poseVals.mat == (if d > 0 then Identity(count) else IdentityRows(count, n))
      && changed == exists i :: 0 <= i < n && ModeChangedAt(drivers, prev, d, i)
  {
    modes := ZeroModes(count);
    changed := false;
    var i := 0;
    while i < count
      invariant 0 <= i <= count && i <= |drivers[d].poses|
      invariant poseData.Valid() && poseData.rows == count && poseData.cols == 4 * |drivers|
      invariant poseVals.Valid() && poseVals.rows == count && poseVals.cols == count
      invariant |modes| == count && forall r :: 0 <= r < i ==> modes[r] == drivers[d].poses[r].mode
      invariant forall r :: i <= r < count ==> modes[r] == 0
      invariant poseData.mat == StoredRows(drivers, d, i, count, axis, m)
      invariant poseVals.mat == (if d > 0 then Identity(count) else IdentityRows(count, i))
      invariant changed == exists r :: 0 <= r < i && ModeChangedAt(drivers, prev, d, r)
    {
      if i >= |drivers[d].poses| {
        assert modes == PartialModes(drivers[d].poses, count);
        return false, modes, changed;
      }
      var p := drivers[d].poses[i];
      modes := modes[i := p.mode];
      if |prev| != 0 && i < |prev| && p.mode != prev[i] {
        changed := true;
      }
      assert changed == exists r :: 0 <= r < i + 1 && ModeChangedAt(drivers, prev, d, r) by {
        if ModeChangedAt(drivers, prev, d, i) {
          assert changed;
        }
      }
      StoredRowsStep(drivers, d, i, count, axis, m);
      IdentityRowsStep(count, i);
      StorePose(poseData, poseVals, drivers, d, i, axis, m);
      i := i + 1;
    }
    StoredRowsEnds(drivers, d, count, axis, m);
    IdentityRowsEnds(count);
    assert modes == PartialModes(drivers[d].poses, count);
    ok := true;
  }

  /** The pose matrix part way through driver d: rows before i hold driver d's block, the others not yet. */
  function StoredRows(drivers: seq<DriverInput>, d: nat, i: nat, count: nat, axis: int, m: Maths): (g: seq<seq<real>>)
    requires d < |drivers| && PosesCover(drivers, d, count) && i <= count && i <= |drivers[d].poses|
    ensures |g| == count
  {
    seq(count, r requires 0 <= r < count =>
      if r < i then MatrixPoseRow(drivers, d + 1, r, axis, m) else MatrixPoseRow(drivers, d, r, axis, m))
  }

  lemma StoredRowsStep(drivers: seq<DriverInput>, d: nat, i: nat, count: nat, axis: int, m: Maths)
    requires d < |drivers| && PosesCover(drivers, d, count) && i < count && i < |drivers[d].poses|
    ensures StoredRows(drivers, d, i, count, axis, m)[i := MatrixPoseRow(drivers, d + 1, i, axis, m)]
         == StoredRows(drivers, d, i + 1, count, axis, m)
    ensures StoredRows(drivers, d, i, count, axis, m)[i] == MatrixPoseRow(drivers, d, i, axis, m)
  {
  }

  lemma StoredRowsEnds(drivers: seq<DriverInput>, d: nat, count: nat, axis: int, m: Maths)
    requires d < |drivers| && PosesCover(drivers, d, count) && count <= |drivers[d].poses|
    ensures StoredRows(drivers, d, 0, count, axis, m) == MatrixPoseGrid(drivers, d, count, axis, m)
    ensures StoredRows(drivers, d, count, count, axis, m) == MatrixPoseGrid(drivers, d + 1, count, axis, m)
  {
  }

  /** The value matrix part way through the first driver: identity rows before i, zero rows after. */
  function IdentityRows(count: nat, i: nat): (g: seq<seq<real>>)
    requires i <= count
    ensures |g| == count
  {
    seq(count, r requires 0 <= r < count => if r < i then Identity(count)[r] else Zeros(count, count)[r])
  }

  lemma IdentityRowsStep(count: nat, i: nat)
    requires i < count
    ensures IdentityRows(count, i)[i := Identity(count)[i]] == IdentityRows(count, i + 1)
  {
  }

  lemma IdentityRowsEnds(count: nat)
    ensures IdentityRows(count, 0) == Zeros(count, count)
    ensures IdentityRows(count, count) == Identity(count)
  {
  }

  /** The driver loop's write of driver d's direction and twist angle into the driver vector. */
  method WriteDriverBlock(driver: seq<real>, drivers: seq<DriverInput>, d: nat, axis: int, m: Maths) returns (next: seq<real>)
    requires d < |drivers| && driver == MatrixDriver(drivers, d, axis, m)
    ensures next == MatrixDriver(drivers, d + 1, axis, m)
  {
    var dr := drivers[d];
    var twist := GetTwistAngle(dr.rotation, axis, m);
    DriverStep(drivers, d, axis, m);
    next := driver[4 * d := dr.vector.x][4 * d + 1 := dr.vector.y][4 * d + 2 := dr.vector.z][4 * d + 3 := twist];
  }

  /** One pass of the pose loop of getPoseVectors: pose i's block of driver d and, for the first driver, its identity row. */
  method StorePose(poseData: BRMatrix, poseVals: BRMatrix, drivers: seq<DriverInput>, d: nat, i: nat,
                   axis: int, m: Maths)
    requires d < |drivers| && forall e :: 0 <= e <= d ==> i < |drivers[e].poses|
    requires poseData.Valid() && i < poseData.rows && poseData.cols == 4 * |drivers| && poseData != poseVals
    requires poseVals.Valid() && poseVals.rows == poseData.rows && poseVals.cols == poseData.rows
    requires poseData.mat[i] == MatrixPoseRow(drivers, d, i, axis, m)
    modifies poseData, poseVals
    ensures poseData.Valid() && poseData.rows == old(poseData.rows) && poseData.cols == old(poseData.cols)
    ensures poseVals.Valid() && poseVals.rows == old(poseVals.rows) && poseVals.cols == old(poseVals.cols)
    ensures poseData.mat == old(poseData.mat)[i := MatrixPoseRow(drivers, d + 1, i, axis, m)]
    ensures poseVals.mat == if d == 0 then old(poseVals.mat)[i := Identity(poseVals.rows)[i]] else old(poseVals.mat)
  {
    ghost var before := poseData.mat[i];
    WritePoseBlock(poseData, i, d, drivers[d].poses[i], axis, m);
    PoseRowStep(drivers, d, i, axis, m, before, poseData.mat[i]);
    assert poseData.mat == old(poseData.mat)[i := MatrixPoseRow(drivers, d + 1, i, axis, m)];
    if d == 0 {
      WriteIdentityRow(poseVals, i);
    }
  }

  /** Before any driver is stored every pose row is zero. */
  lemma EmptyPoseGrid(drivers: seq<DriverInput>, count: nat, axis: int, m: Maths)
    ensures MatrixPoseGrid(drivers, 0, count, axis, m) == Zeros(count, 4 * |drivers|)
  {
    var g := MatrixPoseGrid(drivers, 0, count, axis, m);
    forall i | 0 <= i < count
      ensures g[i] == Zeros(count, 4 * |drivers|)[i]
    {
    }
  }

  /** `BRMatrix()` followed by `setSize(r, c)`: a fresh matrix of zeros. */
  method ClearedMatrix(r: nat, c: nat) returns (g: BRMatrix)
    ensures fresh(g) && g.Valid() && g.rows == r && g.cols == c && g.mat == Zeros(r, c)
  {
    g := new BRMatrix();
    g.SetSize(r, c);
    forall i | 0 <= i < r
      ensures g.mat[i] == Zeros(r, c)[i]
    {
    }
  }

  /** The copy loop after a solve in compute: column c of g takes the solution, the other columns stay. */
  method StoreColumn(g: BRMatrix, c: nat, w: array<real>)
    requires g.Valid() && c < g.cols && g.rows <= w.Length
    modifies g
    ensures g.Valid() && g.rows == old(g.rows) && g.cols == old(g.cols)
    ensures Column(g.mat, c) == w[..g.rows]
    ensures forall k :: 0 <= k < g.cols && k != c ==> Column(g.mat, k) == Column(old(g.mat), k)
  {
    var n := g.rows;
    var i := 0;
    while i < n
      invariant 0 <= i <= n
      invariant g.Valid() && g.rows == n && g.cols == old(g.cols)
      invariant forall r :: 0 <= r < n ==> g.mat[r] == if r < i then old(g.mat)[r][c := w[r]] else old(g.mat)[r]
    {
      g.Set(i, c, w[i]);
      i := i + 1;
    }
  }

  /**
   * One pass of compute's solve loop: column c of the value matrix solved
   * against a copy of the activation matrix and, on success, stored as
   * column c of the weight matrix. Succeeds exactly when the activation
   * matrix passes every pivot test.
   */
  method SolveColumn(linMat: BRMatrix, values: BRMatrix, weights: BRMatrix, c: nat) returns (ok: bool)
    requires linMat.Valid() && values.Valid() && weights.Valid() && weights != linMat && weights != values
    requires linMat.cols == linMat.rows && values.rows == linMat.rows && weights.rows == linMat.rows
    requires c < values.cols && c < weights.cols
    modifies weights
    ensures weights.Valid() && weights.rows == old(weights.rows) && weights.cols == old(weights.cols)
    ensures ok == PivotsPass(linMat.mat, linMat.rows)
    ensures ok ==> Solves(linMat.mat, Column(values.mat, c), Column(weights.mat, c), linMat.rows)
    ensures !ok ==> weights.mat == old(weights.mat)
    ensures forall k :: 0 <= k < weights.cols && k != c ==> Column(weights.mat, k) == Column(old(weights.mat), k)
  {
    var n := linMat.rows;
    var y := values.GetColumnVector(c);
    assert y == Column(values.mat, c);
    var solveMat := new BRMatrix.Copy(linMat);
    var w := new real[n];
    ghost var w0 := w[..];
    ok := solveMat.Solve(y, w);
    assert w0[..n] == w0;
    ForwardMatrixOnly(State(linMat.mat, y, w0), State(linMat.mat, seq(n, _ => 0.0), seq(n, _ => 0.0)), n, n);
    if ok {
      StoreColumn(weights, c, w);
    }
  }

  /** getDistances followed by getActivations: the activation matrix of the poses and their mean distance. */
  method ActivationMatrix(poses: BRMatrix, distType: int, kernel: int, m: Maths) returns (linMat: BRMatrix, mean: real)
    requires poses.Valid() && poses.rows > 0
    ensures fresh(linMat) && linMat.Valid() && linMat.rows == poses.rows && linMat.cols == poses.rows
    ensures mean == MeanEntry(DistanceGrid(poses.mat, distType, m))
    ensures linMat.mat == ActivationGrid(DistanceGrid(poses.mat, distType, m), mean, kernel, m)
  {
    linMat, mean := GetDistances(poses, distType, m);
    GetActivations(linMat, mean, kernel, m);
  }

  /**
   * The solve loop of compute: every column of the value matrix solved in
   * turn into the weight matrix, stopping at the first failure. Succeeds
   * exactly when there is no column or the activation matrix passes every
   * pivot test.
   */
  method SolveColumns(linMat: BRMatrix, values: BRMatrix, weights: BRMatrix) returns (ok: bool)
    requires linMat.Valid() && values.Valid() && weights.Valid() && weights != linMat && weights != values
    requires linMat.cols == linMat.rows && values.rows == linMat.rows && weights.rows == linMat.rows
    requires weights.cols <= values.cols
    modifies weights
    ensures weights.Valid() && weights.rows == old(weights.rows) && weights.cols == old(weights.cols)
    ensures ok == (weights.cols == 0 || PivotsPass(linMat.mat, linMat.rows))
    ensures ok ==> forall c :: 0 <= c < weights.cols ==>
      Solves(linMat.mat, Column(values.mat, c), Column(weights.mat, c), linMat.rows)
    ensures !ok ==> weights.mat == old(weights.mat)
  {
    var solveCount := weights.cols;
    var c := 0;
    while c < solveCount
      invariant 0 <= c <= solveCount
      invariant weights.Valid() && weights.rows == linMat.rows && weights.cols == solveCount
      invariant c > 0 ==> PivotsPass(linMat.mat, linMat.rows)
      invariant c == 0 ==> weights.mat == old(weights.mat)
      invariant forall k :: 0 <= k < c ==> Solves(linMat.mat, Column(values.mat, k), Column(weights.mat, k), linMat.rows)
    {
      ok := SolveColumn(linMat, values, weights, c);
      if !ok {
        return;
      }
      c := c + 1;
    }
    ok := true;
  }

  /** The number of value columns an evaluation solves: one per output in generic mode, one per pose in matrix mode. */
  function SolveCountOf(plugs: Plugs, poseCount: nat): nat
  {
    if |plugs.inputs| != 0 then |plugs.outputIds| else poseCount
  }

  // ------------------------------------------------------------------
  // the node
  // ------------------------------------------------------------------

  /** The member variables of the node that persist from one evaluation to the next. */
  class WeightDriver {
    var distanceTypeVal: int
    var evalInput: bool
    var genericMode: bool
    var globalPoseCount: nat
    var poseMatrixIds: seq<nat>
    var matPoses: BRMatrix
    var matValues: BRMatrix
    var meanDist: real
    var poseModes: seq<int>
    var wMat: BRMatrix

    /**
     * The pose and value matrices have one row per pose of the last
     * gathering, and the pose modes, once set, one entry per pose.
     */
    ghost predicate Valid()
      reads this, matPoses, matValues, wMat
    {
      && matPoses.Valid() && matValues.Valid() && wMat.Valid()
      && matPoses.rows == globalPoseCount && matValues.rows == globalPoseCount
      && (globalPoseCount == 0 || |poseModes| == globalPoseCount)
    }

    /** A fresh node: empty matrices and no poses. */
    constructor()
      ensures Valid() && fresh(matPoses) && fresh(matValues) && fresh(wMat)
      ensures globalPoseCount == 0 && poseMatrixIds == [] && poseModes == [] && !evalInput && !genericMode
      ensures matPoses.mat == [] && matValues.mat == [] && wMat.mat == [] && meanDist == 0.0 && distanceTypeVal == 0
    {
      distanceTypeVal := 0;
      evalInput := false;
      genericMode := false;
      globalPoseCount := 0;
      poseMatrixIds := [];
      matPoses := new BRMatrix();
      matValues := new BRMatrix();
      meanDist := 0.0;
      poseModes := [];
      wMat := new BRMatrix();
    }

    /** The pose and value matrices hold poseCount poses and at least solveCount value columns. */
    predicate TrainingDefined(poseCount: nat, solveCount: nat)
      reads this, matValues
    {
      globalPoseCount == poseCount && solveCount <= matValues.cols
    }

    /**
     * The evaluating part of compute's RBF branch: the distance matrix and
     * its mean, the activation matrix, and one solve per output column into
     * a fresh poseCount x solveCount weight matrix. Fails exactly when
     * there is an output column and the activation matrix fails a pivot test.
     */
    method SolveStage(poseCount: nat, solveCount: nat, kernel: int, m: Maths) returns (ok: bool)
      requires Valid() && poseCount > 0 && TrainingDefined(poseCount, solveCount)
      modifies this
      ensures Valid() && fresh(wMat) && wMat.rows == poseCount && wMat.cols == solveCount
      ensures distanceTypeVal == old(distanceTypeVal) && evalInput == old(evalInput) && genericMode == old(genericMode)
      ensures globalPoseCount == old(globalPoseCount) && poseMatrixIds == old(poseMatrixIds) && poseModes == old(poseModes)
      ensures matPoses == old(matPoses) && matValues == old(matValues)
      ensures meanDist == MeanEntry(DistanceGrid(matPoses.mat, distanceTypeVal, m))
      ensures var a := ActivationGrid(DistanceGrid(matPoses.mat, distanceTypeVal, m), meanDist, kernel, m);
        && ok == (solveCount == 0 || PivotsPass(a, poseCount))
        && (ok ==> forall c :: 0 <= c < solveCount ==> Solves(a, Column(matValues.mat, c), Column(wMat.mat, c), poseCount))
      ensures !ok ==> wMat.mat == Zeros(poseCount, solveCount)
    {
      var linMat, mean := ActivationMatrix(matPoses, distanceTypeVal, kernel, m);
      meanDist := mean;
      wMat := ClearedMatrix(poseCount, solveCount);
      ok := SolveColumns(linMat, matValues, wMat);
    }

    /**
     * The final weight calculation of compute's RBF branch: getPoseWeights
     * into solveCount zeros, then the shaping of every weight. Undefined
     * exactly when the weight matrix has the pose matrix's shape while a
     * pose row is shorter than the driver or a pose lacks a mode.
     */
    method InferStage(solveCount: nat, driver: seq<real>, plugs: Plugs, m: Maths, curve: real -> real)
      returns (status: Status, weights: seq<real>)
      requires Valid()
      ensures status != Failure
      ensures status == UndefinedBehaviour <==>
        wMat.rows == matPoses.rows && wMat.cols == solveCount && !InferenceDefined(matPoses.mat, driver, poseModes)
      ensures status == Success ==>
        weights == ShapedWeights(PoseWeights(matPoses.mat, wMat.mat, wMat.cols, solveCount, driver, poseModes,
                                             meanDist, distanceTypeVal, plugs.kernel, m),
                                 plugs.allowNegative, plugs.bias, plugs.useInterpolation, plugs.interpolation, plugs.scale, m, curve)
    {
      if wMat.rows == matPoses.rows && wMat.cols == solveCount && !InferenceDefined(matPoses.mat, driver, poseModes) {
        return UndefinedBehaviour, [];
      }
      var out := new real[solveCount](_ => 0.0);
      GetPoseWeights(out, matPoses, driver, poseModes, wMat, meanDist, distanceTypeVal, plugs.kernel, m);
      assert out[..] == PoseWeights(matPoses.mat, wMat.mat, wMat.cols, solveCount, driver, poseModes,
                                    meanDist, distanceTypeVal, plugs.kernel, m);
      ShapeWeights(out, plugs.allowNegative, plugs.bias, plugs.useInterpolation, plugs.interpolation, plugs.scale, m, curve);
      weights := out[..];
      status := Success;
    }

    /**
     * compute's RBF branch once poses are found: the solve when the data
     * is to be evaluated, then the final weight calculation. Undefined when
     * the solve would read past the pose count or the value columns.
     */
    method RbfStage(poseCount: nat, solveCount: nat, driver: seq<real>, plugs: Plugs, m: Maths, curve: real -> real)
      returns (status: Status, weights: seq<real>)
      requires Valid() && poseCount > 0
      modifies this
      ensures Valid()
      ensures distanceTypeVal == old(distanceTypeVal) && evalInput == old(evalInput) && genericMode == old(genericMode)
      ensures globalPoseCount == old(globalPoseCount) && poseMatrixIds == old(poseMatrixIds) && poseModes == old(poseModes)
      ensures matPoses == old(matPoses) && matValues == old(matValues)
      ensures !(evalInput && TrainingDefined(poseCount, solveCount)) ==> wMat == old(wMat) && meanDist == old(meanDist)
      ensures evalInput && !TrainingDefined(poseCount, solveCount) ==> status == UndefinedBehaviour
      ensures status == Failure ==> evalInput && TrainingDefined(poseCount, solveCount)
      ensures evalInput && TrainingDefined(poseCount, solveCount) ==>
        && fresh(wMat) && wMat.rows == poseCount && wMat.cols == solveCount
        && meanDist == MeanEntry(DistanceGrid(matPoses.mat, distanceTypeVal, m))
        && var a := ActivationGrid(DistanceGrid(matPoses.mat, distanceTypeVal, m), meanDist, plugs.kernel, m);
          && (status == Failure <==> solveCount > 0 && !PivotsPass(a, poseCount))
          && (status == Failure ==> wMat.mat == Zeros(poseCount, solveCount))
          && (status != Failure ==> forall c :: 0 <= c < solveCount ==>
                Solves(a, Column(matValues.mat, c), Column(wMat.mat, c), poseCount))
      ensures (!evalInput || TrainingDefined(poseCount, solveCount)) && status != Failure ==>
        (status == UndefinedBehaviour <==>
          wMat.rows == matPoses.rows && wMat.cols == solveCount && !InferenceDefined(matPoses.mat, driver, poseModes))
      ensures status == Success ==>
        weights == ShapedWeights(PoseWeights(matPoses.mat, wMat.mat, wMat.cols, solveCount, driver, poseModes,
                                             meanDist, distanceTypeVal, plugs.kernel, m),
                                 plugs.allowNegative, plugs.bias, plugs.useInterpolation, plugs.interpolation, plugs.scale, m, curve)
    {
      if evalInput {
        if !TrainingDefined(poseCount, solveCount) {
          return UndefinedBehaviour, [];
        }
        var solved := SolveStage(poseCount, solveCount, plugs.kernel, m);
        if !solved {
          return Failure, [];
        }
      }
      status, weights := InferStage(solveCount, driver, plugs, m, curve);
    }

    /**
     * The pose gathering of compute's RBF branch: generic mode when any
     * input is connected, getPoseData then; matrix mode otherwise,
     * getPoseVectors then, with Euclidean distances and one output per pose.
     */
    method GatherPoses(plugs: Plugs, m: Maths) returns (ok: bool, driver: seq<real>, poseCount: nat, solveCount: nat)
      requires Valid()
      modifies this
      ensures Valid() && wMat == old(wMat) && meanDist == old(meanDist)
      ensures ok == !GatherFails(plugs)
      ensures ok ==>
        && solveCount == SolveCountOf(plugs, poseCount) && (genericMode || poseCount == 1 || |poseMatrixIds| == poseCount)
        && GatherDone(plugs, m, driver, poseCount, old(distanceTypeVal), old(evalInput), old(globalPoseCount),
                      old(poseModes), old(poseMatrixIds), old(matPoses), old(matValues))
      ensures !ok ==>
        && genericMode == (|plugs.inputs| != 0) && distanceTypeVal == old(distanceTypeVal)
        && GatherLeft(plugs, m, old(evalInput), old(globalPoseCount), old(poseModes), old(poseMatrixIds),
                      old(matPoses), old(matValues))
    {
      genericMode := |plugs.inputs| != 0;
      if genericMode {
        ok, driver, poseCount, solveCount := GatherGeneric(plugs, m);
      } else {
        ok, driver, poseCount, solveCount := GatherMatrix(plugs, m);
      }
    }

    /** The generic-mode branch of the pose gathering: getPoseData. */
    method GatherGeneric(plugs: Plugs, m: Maths) returns (ok: bool, driver: seq<real>, poseCount: nat, solveCount: nat)
      requires Valid() && genericMode && |plugs.inputs| != 0
      modifies this
      ensures Valid() && genericMode && wMat == old(wMat) && meanDist == old(meanDist)
      ensures ok == !GatherFails(plugs)
      ensures ok ==>
        && solveCount == SolveCountOf(plugs, poseCount)
        && GatherDone(plugs, m, driver, poseCount, old(distanceTypeVal), old(evalInput), old(globalPoseCount),
                      old(poseModes), old(poseMatrixIds), old(matPoses), old(matValues))
      ensures !ok ==>
        && distanceTypeVal == old(distanceTypeVal)
        && GatherLeft(plugs, m, old(evalInput), old(globalPoseCount), old(poseModes), old(poseMatrixIds),
                      old(matPoses), old(matValues))
    {
      ok, driver, poseCount, solveCount := GetPoseData(plugs);
    }

    /**
     * The matrix-mode branch of the pose gathering: getPoseVectors, then the
     * Euclidean distance and one value column per pose.
     */
    method GatherMatrix(plugs: Plugs, m: Maths) returns (ok: bool, driver: seq<real>, poseCount: nat, solveCount: nat)
      requires Valid() && !genericMode && |plugs.inputs| == 0
      modifies this
      ensures Valid() && !genericMode && wMat == old(wMat) && meanDist == old(meanDist)
      ensures ok == !GatherFails(plugs)
      ensures ok ==>
        && solveCount == SolveCountOf(plugs, poseCount) && (poseCount == 1 || |poseMatrixIds| == poseCount)
        && GatherDone(plugs, m, driver, poseCount, old(distanceTypeVal), old(evalInput), old(globalPoseCount),
                      old(poseModes), old(poseMatrixIds), old(matPoses), old(matValues))
      ensures !ok ==>
        && distanceTypeVal == old(distanceTypeVal)
        && GatherLeft(plugs, m, old(evalInput), old(globalPoseCount), old(poseModes), old(poseMatrixIds),
                      old(matPoses), old(matValues))
    {
      ok, driver, poseCount := GetPoseVectors(plugs.drivers, plugs.twistAxis, m);
      if !ok {
        solveCount := 0;
        return;
      }
      distanceTypeVal := 0;
      solveCount := poseCount;
    }

    /**
     * The pose gathering fails: generic mode without a pose, or matrix mode
     * with a driver after the first that has fewer poses than the first.
     */
    ghost predicate GatherFails(plugs: Plugs)
    {
      if |plugs.inputs| != 0 then |plugs.poses| == 0
      else !(Leading(plugs.drivers) == 0 || PosesCover(plugs.drivers, Leading(plugs.drivers), |plugs.drivers[0].poses|))
    }

    /**
     * The pose state a failed gathering leaves, given the state before it:
     * untouched in generic mode, in matrix mode the state getPoseVectors
     * leaves at the first driver that has fewer poses than the first.
     */
    ghost predicate GatherLeft(plugs: Plugs, m: Maths, eval0: bool, global0: nat, modes0: seq<int>, ids0: seq<nat>,
                               poses0: BRMatrix, values0: BRMatrix)
      reads this, matPoses, matValues
    {
      if |plugs.inputs| != 0 then
        && evalInput == eval0 && globalPoseCount == global0 && poseModes == modes0
        && poseMatrixIds == ids0 && matPoses == poses0 && matValues == values0
      else
        exists d :: 0 < d < Leading(plugs.drivers)
          && StoppedAt(plugs.drivers, d, |plugs.drivers[0].poses|, plugs.twistAxis, m, eval0, global0, modes0)
    }

    /**
     * The pose state a successful gathering leaves, given the distance type,
     * the pending flag and the pose state before it. Generic mode: the driver
     * less the rest vector, the adjusted pose count, and, when evaluation is
     * pending and there are poses, the pose and value grids of the pose
     * array, zero modes and indices 0..n-1. Matrix mode: the Euclidean
     * distance, the driver blocks of the leading connected drivers and the
     * state of DriversRead, or the state untouched and the pose count 1 when
     * no driver is connected.
     */
    ghost predicate GatherDone(plugs: Plugs, m: Maths, driver: seq<real>, poseCount: nat, dist0: int,
                               eval0: bool, global0: nat, modes0: seq<int>, ids0: seq<nat>,
                               poses0: BRMatrix, values0: BRMatrix)
      requires !GatherFails(plugs)
      reads this`genericMode, this`distanceTypeVal, this`evalInput, this`globalPoseCount, this`poseMatrixIds,
            this`poseModes, this`matPoses, this`matValues, matPoses, matValues
    {
      && genericMode == (|plugs.inputs| != 0)
      && if |plugs.inputs| != 0 then
           var rest := GenericRest(plugs.inputs, plugs.restInputs, dist0);
           && distanceTypeVal == dist0
           && driver == Minus(plugs.inputs, rest)
           && poseCount == GenericPoseCount(plugs.poses)
           && evalInput == (eval0 || plugs.posesConnected || poseCount != global0)
           && (poseCount != 0 && evalInput ==>
                 && globalPoseCount == poseCount
                 && matPoses.cols == |plugs.inputs| && matPoses.mat == GenericPoseGrid(plugs.poses, poseCount, rest)
                 && matValues.cols == |plugs.outputIds|
                 && matValues.mat == GenericValueGrid(plugs.poses, poseCount, |plugs.outputIds|)
                 && poseModes == ZeroModes(poseCount) && poseMatrixIds == Range(poseCount))
           && (poseCount == 0 || !evalInput ==>
                 && poseMatrixIds == [] && globalPoseCount == global0
                 && matPoses == poses0 && matValues == values0 && poseModes == modes0)
         else
           var k := Leading(plugs.drivers);
           && distanceTypeVal == 0
           && driver == MatrixDriver(plugs.drivers, k, plugs.twistAxis, m)
           && (k == 0 ==>
                 && poseCount == 1 && evalInput == eval0 && globalPoseCount == global0
                 && poseMatrixIds == ids0 && matPoses == poses0 && matValues == values0 && poseModes == modes0)
           && (k > 0 ==> DriversRead(plugs.drivers, k, poseCount, plugs.twistAxis, m, eval0, global0, modes0))
    }

    /**
     * The status of weighing gathered poses, given the weight matrix and mean
     * distance before it: success (the single weight 1) without poses; with
     * poses, undefined when training would read past the pose count or the
     * value columns, a failure exactly when training meets a pivot below
     * the threshold (the weight matrix then all zero), and otherwise
     * undefined exactly when inference would read past a pose row or the
     * modes. The weight matrix and the mean distance change only when the
     * data is trained.
     */
    ghost predicate Weighed(plugs: Plugs, m: Maths, status: Status, weights: seq<real>, driver: seq<real>,
                            poseCount: nat, solveCount: nat, wMat0: BRMatrix, mean0: real)
      reads this, matPoses, matValues, wMat
      requires Valid()
    {
      var trained := poseCount > 0 && evalInput && TrainingDefined(poseCount, solveCount);
      && (poseCount == 0 ==> status == Success && weights == [1.0])
      && (poseCount > 0 && evalInput && !TrainingDefined(poseCount, solveCount) ==> status == UndefinedBehaviour)
      && (!trained ==> wMat == wMat0 && meanDist == mean0 && status != Failure)
      && (trained ==>
            var dist := DistanceGrid(matPoses.mat, distanceTypeVal, m);
            && meanDist == MeanEntry(dist) && wMat.rows == poseCount && wMat.cols == solveCount
            && (status == Failure <==> solveCount > 0 && !PivotsPass(ActivationGrid(dist, meanDist, plugs.kernel, m), poseCount))
            && (status == Failure ==> wMat.mat == Zeros(poseCount, solveCount)))
      && (poseCount > 0 && (!evalInput || TrainingDefined(poseCount, solveCount)) && status != Failure ==>
            (status == UndefinedBehaviour <==>
               wMat.rows == matPoses.rows && wMat.cols == solveCount && !InferenceDefined(matPoses.mat, driver, poseModes)))
      && (status == Success && poseCount > 0 ==> |weights| == solveCount)
    }

    /**
     * The pose gathering's part of an active evaluation: generic mode
     * exactly when an input is connected, and a failure when generic mode
     * has no pose or a driver after the first has fewer poses than the first.
     */
    ghost predicate ModeChosen(plugs: Plugs, status: Status)
      reads this
    {
      && genericMode == (|plugs.inputs| != 0)
      && (genericMode && |plugs.poses| == 0 ==> status == Failure)
      && (!genericMode && !(Leading(plugs.drivers) == 0 || PosesCover(plugs.drivers, Leading(plugs.drivers), |plugs.drivers[0].poses|))
          ==> status == Failure)
    }

    /**
     * The weights of a successful evaluation: the single weight 1 without
     * poses, otherwise the shaped blend of the weight matrix and, when the
     * data was evaluated, a weight matrix whose every column solves the
     * activation system for the matching column of pose values.
     */
    ghost predicate WeightsComputed(plugs: Plugs, m: Maths, curve: real -> real, status: Status, weights: seq<real>,
                                    driver: seq<real>, poseCount: nat)
      reads this, matPoses, matValues, wMat
      requires Valid()
    {
      && (status == Success && poseCount == 0 ==> weights == [1.0])
      && (status == Success && poseCount > 0 ==>
            && (wMat.rows == matPoses.rows && wMat.cols == |weights| ==> InferenceDefined(matPoses.mat, driver, poseModes))
            && weights == ShapedWeights(PoseWeights(matPoses.mat, wMat.mat, wMat.cols, |weights|, driver, poseModes,
                                                    meanDist, distanceTypeVal, plugs.kernel, m),
                                        plugs.allowNegative, plugs.bias, plugs.useInterpolation, plugs.interpolation, plugs.scale, m, curve))
      && (status == Success && poseCount > 0 && evalInput ==>
            && TrainingDefined(poseCount, |weights|) && wMat.rows == poseCount && wMat.cols == |weights|
            && meanDist == MeanEntry(DistanceGrid(matPoses.mat, distanceTypeVal, m))
            && var a := ActivationGrid(DistanceGrid(matPoses.mat, distanceTypeVal, m), meanDist, plugs.kernel, m);
              forall c :: 0 <= c < |weights| ==> Solves(a, Column(matValues.mat, c), Column(wMat.mat, c), poseCount))
    }

    /**
     * The output of an evaluation: nothing unless it succeeded, the weights
     * at their output indices otherwise, each weight at its own position in
     * generic mode.
     */
    ghost predicate OutputWritten(plugs: Plugs, status: Status, weights: seq<real>, written: map<nat, real>)
      reads this
    {
      && (status != Success ==> written == map[])
      && (status == Success ==>
            var ids := OutputIds(genericMode, false, |weights|, plugs.outputIds, poseMatrixIds);
            Writable(weights, false, |ids|) && written == WriteAll(ids, weights, false, |ids|))
      && (status == Success && genericMode ==>
            forall i :: 0 <= i < |weights| ==> i in written && written[i] == weights[i])
    }

    /** What an active evaluation of the RBF type leaves behind. */
    ghost predicate Evaluated(plugs: Plugs, m: Maths, curve: real -> real, status: Status, weights: seq<real>,
                              written: map<nat, real>, driver: seq<real>, poseCount: nat)
      reads this, matPoses, matValues, wMat
      requires Valid()
    {
      && ModeChosen(plugs, status)
      && WeightsComputed(plugs, m, curve, status, weights, driver, poseCount)
      && OutputWritten(plugs, status, weights, written)
    }

    /**
     * The weights once the poses are gathered: the single weight 1 without
     * poses, the RBF stage otherwise.
     */
    method Weigh(poseCount: nat, solveCount: nat, driver: seq<real>, plugs: Plugs, m: Maths, curve: real -> real)
      returns (status: Status, weights: seq<real>)
      requires Valid()
      modifies this
      ensures Valid() && WeightsComputed(plugs, m, curve, status, weights, driver, poseCount)
      ensures genericMode == old(genericMode) && poseMatrixIds == old(poseMatrixIds)
      ensures distanceTypeVal == old(distanceTypeVal) && evalInput == old(evalInput)
      ensures globalPoseCount == old(globalPoseCount) && poseModes == old(poseModes)
      ensures matPoses == old(matPoses) && matValues == old(matValues)
      ensures Weighed(plugs, m, status, weights, driver, poseCount, solveCount, old(wMat), old(meanDist))
    {
      if poseCount != 0 {
        status, weights := RbfStage(poseCount, solveCount, driver, plugs, m, curve);
      } else {
        weights := [1.0];
        status := Success;
      }
    }

    /**
     * The active branch of compute for the RBF type: gather the poses,
     * weigh them and write the weights.
     */
    method Evaluate(plugs: Plugs, m: Maths, curve: real -> real)
      returns (status: Status, weights: seq<real>, written: map<nat, real>, driver: seq<real>, poseCount: nat)
      requires Valid()
      modifies this
      ensures Valid() && Evaluated(plugs, m, curve, status, weights, written, driver, poseCount)
      ensures GatherFails(plugs) ==>
        && distanceTypeVal == old(distanceTypeVal) && wMat == old(wMat) && meanDist == old(meanDist)
        && GatherLeft(plugs, m, old(evalInput), old(globalPoseCount), old(poseModes), old(poseMatrixIds),
                      old(matPoses), old(matValues))
      ensures !GatherFails(plugs) ==>
        && GatherDone(plugs, m, driver, poseCount, old(distanceTypeVal), old(evalInput), old(globalPoseCount),
                      old(poseModes), old(poseMatrixIds), old(matPoses), old(matValues))
        && Weighed(plugs, m, status, weights, driver, poseCount, SolveCountOf(plugs, poseCount), old(wMat), old(meanDist))
    {
      var ok, solveCount;
      ok, driver, poseCount, solveCount := GatherPoses(plugs, m);
      if !ok {
        return Failure, [], map[], driver, poseCount;
      }
      status, weights, written := WeighAndWrite(poseCount, solveCount, driver, plugs, m, curve);
    }

    /** The part of an active evaluation after a successful gathering: weigh the poses, then write the weights. */
    method WeighAndWrite(poseCount: nat, solveCount: nat, driver: seq<real>, plugs: Plugs, m: Maths, curve: real -> real)
      returns (status: Status, weights: seq<real>, written: map<nat, real>)
      requires Valid() && (genericMode || poseCount == 1 || |poseMatrixIds| == poseCount)
      requires !genericMode ==> solveCount == poseCount
      modifies this
      ensures Valid() && WeightsComputed(plugs, m, curve, status, weights, driver, poseCount)
      ensures OutputWritten(plugs, status, weights, written)
      ensures genericMode == old(genericMode) && poseMatrixIds == old(poseMatrixIds)
      ensures distanceTypeVal == old(distanceTypeVal) && evalInput == old(evalInput)
      ensures globalPoseCount == old(globalPoseCount) && poseModes == old(poseModes)
      ensures matPoses == old(matPoses) && matValues == old(matValues)
      ensures Weighed(plugs, m, status, weights, driver, poseCount, solveCount, old(wMat), old(meanDist))
    {
      status, weights := Weigh(poseCount, solveCount, driver, plugs, m, curve);
      written := map[];
      if status == Success {
        written := SetOutputValues(weights, false, plugs.outputIds);
      }
    }

    /**
     * compute for the RBF type on the output plug: the evaluate and
     * distance type attributes are taken over first; an inactive node then
     * writes 0 to its outputs, a node whose state is HasNoEffect writes
     * nothing, and an active one evaluates. Nothing is written after a
     * failure or at a point where the source's behaviour is undefined.
     */
    method Compute(plugs: Plugs, m: Maths, curve: real -> real)
      returns (status: Status, weights: seq<real>, written: map<nat, real>, driver: seq<real>, poseCount: nat)
      requires Valid()
      modifies this
      ensures Valid()
      ensures !plugs.active ==>
        && status == Success && weights == [0.0] && genericMode == old(genericMode) && poseMatrixIds == old(poseMatrixIds)
        && evalInput == plugs.evaluate && distanceTypeVal == plugs.distanceType
        && globalPoseCount == old(globalPoseCount) && poseModes == old(poseModes) && meanDist == old(meanDist)
        && matPoses == old(matPoses) && matValues == old(matValues) && wMat == old(wMat)
        && var ids := OutputIds(genericMode, true, 1, plugs.outputIds, poseMatrixIds);
          && written == WriteAll(ids, weights, true, |ids|)
          && forall k :: k in written ==> written[k] == 0.0
      ensures plugs.active && plugs.hasNoEffect ==>
        && status == Success && written == map[]
        && evalInput == plugs.evaluate && distanceTypeVal == plugs.distanceType
        && genericMode == old(genericMode) && globalPoseCount == old(globalPoseCount)
        && poseMatrixIds == old(poseMatrixIds) && poseModes == old(poseModes) && meanDist == old(meanDist)
        && matPoses == old(matPoses) && matValues == old(matValues) && wMat == old(wMat)
      ensures plugs.active && !plugs.hasNoEffect ==> Evaluated(plugs, m, curve, status, weights, written, driver, poseCount)
      ensures plugs.active && !plugs.hasNoEffect && GatherFails(plugs) ==>
        && distanceTypeVal == plugs.distanceType && wMat == old(wMat) && meanDist == old(meanDist)
        && GatherLeft(plugs, m, plugs.evaluate, old(globalPoseCount), old(poseModes), old(poseMatrixIds),
                      old(matPoses), old(matValues))
      ensures plugs.active && !plugs.hasNoEffect && !GatherFails(plugs) ==>
        && GatherDone(plugs, m, driver, poseCount, plugs.distanceType, plugs.evaluate, old(globalPoseCount),
                      old(poseModes), old(poseMatrixIds), old(matPoses), old(matValues))
        && Weighed(plugs, m, status, weights, driver, poseCount, SolveCountOf(plugs, poseCount), old(wMat), old(meanDist))
    {
      evalInput := plugs.evaluate;
      distanceTypeVal := plugs.distanceType;
      written := map[];
      weights := [];
      driver := [];
      poseCount := 0;
      if !plugs.active {
        weights := [0.0];
        written := SetOutputValues(weights, true, plugs.outputIds);
        WriteAllInactive(OutputIds(genericMode, true, 1, plugs.outputIds, poseMatrixIds), weights,
                         |OutputIds(genericMode, true, 1, plugs.outputIds, poseMatrixIds)|);
        return Success, weights, written, driver, poseCount;
      }
      if plugs.hasNoEffect {
        return Success, weights, written, driver, poseCount;
      }
      status, weights, written, driver, poseCount := Evaluate(plugs, m, curve);
    }

    /**
     * setOutputValues: the (index, value) pairs written to the output
     * array, later positions overwriting earlier ones with the same index.
     */
    method SetOutputValues(weights: seq<real>, inactive: bool, existingOutputIds: seq<nat>) returns (written: map<nat, real>)
      requires genericMode || Writable(weights, inactive, |poseMatrixIds|)
      ensures var ids := OutputIds(genericMode, inactive, |weights|, existingOutputIds, poseMatrixIds);
        Writable(weights, inactive, |ids|) && written == WriteAll(ids, weights, inactive, |ids|)
      ensures genericMode && !inactive ==>
        forall i :: 0 <= i < |weights| ==> i in written && written[i] == weights[i]
    {
      var ids: seq<nat>;
      if genericMode {
        if !inactive {
          ids := Range(|weights|);
        } else {
          ids := existingOutputIds;
        }
      } else {
        ids := poseMatrixIds;
      }
      assert ids == OutputIds(genericMode, inactive, |weights|, existingOutputIds, poseMatrixIds);
      var count := |ids|;
      written := map[];
      var i := 0;
      while i < count
        invariant 0 <= i <= count
        invariant written == WriteAll(ids, weights, inactive, i)
      {
        var value := if !inactive then (if |weights| == 1 && i > 0 then 0.0 else weights[i]) else 0.0;
        if |weights| == 1 && i > 0 {
          value := 0.0;
        }
        written := written[ids[i] := value];
        i := i + 1;
      }
      if genericMode && !inactive {
        forall i | 0 <= i < |weights|
          ensures i in written && written[i] == weights[i]
        {
          forall k | i < k < count
            ensures ids[k] != ids[i]
          {
            GenericIdsDistinct(|weights|, existingOutputIds, poseMatrixIds, i, k);
          }
          WriteAllValue(ids, weights, false, count, i);
        }
      }
    }

    /**
     * getPoseData: the driver vector, the pose count and the output count
     * of generic mode, and, when the data is to be evaluated, fresh pose and
     * value matrices. Fails only when the pose array is empty.
     */
    method GetPoseData(plugs: Plugs) returns (ok: bool, driver: seq<real>, poseCount: nat, solveCount: nat)
      requires Valid()
      modifies this
      ensures Valid()
      ensures distanceTypeVal == old(distanceTypeVal) && genericMode == old(genericMode)
      ensures wMat == old(wMat) && meanDist == old(meanDist)
      ensures ok == (|plugs.poses| != 0)
      ensures !ok ==> (evalInput == old(evalInput) && globalPoseCount == old(globalPoseCount)
        && poseMatrixIds == old(poseMatrixIds) && matPoses == old(matPoses) && matValues == old(matValues)
        && poseModes == old(poseModes))
      ensures ok ==>
        var rest := GenericRest(plugs.inputs, plugs.restInputs, distanceTypeVal);
        && solveCount == |plugs.outputIds|
        && poseCount == GenericPoseCount(plugs.poses)
        && driver == Minus(plugs.inputs, rest)
        && evalInput == (old(evalInput) || plugs.posesConnected || poseCount != old(globalPoseCount))
        && (poseCount != 0 && evalInput ==>
              && globalPoseCount == poseCount && fresh(matPoses) && fresh(matValues)
              && matPoses.cols == |plugs.inputs| && matPoses.mat == GenericPoseGrid(plugs.poses, poseCount, rest)
              && matValues.cols == solveCount && matValues.mat == GenericValueGrid(plugs.poses, poseCount, solveCount)
              && poseModes == ZeroModes(poseCount) && poseMatrixIds == Range(poseCount))
        && (poseCount == 0 || !evalInput ==>
              && poseMatrixIds == [] && globalPoseCount == old(globalPoseCount)
              && matPoses == old(matPoses) && matValues == old(matValues) && poseModes == old(poseModes))
    {
      solveCount := |plugs.outputIds|;
      ok, poseCount := CountGenericPoses(plugs.poses);
      if !ok {
        driver := [];
        return;
      }
      if plugs.posesConnected || poseCount != globalPoseCount {
        evalInput := true;
      }
      poseMatrixIds := [];

      var rest;
      driver, rest := DriverAndRest(plugs.inputs, plugs.restInputs, distanceTypeVal);
      if poseCount != 0 && evalInput {
        StoreGenericPoses(plugs.poses, poseCount, rest, solveCount);
      }
      ok := true;
    }

    /** The evaluating branch of getPoseData: the node takes on the new pose data. */
    method StoreGenericPoses(poses: seq<GenericPose>, poseCount: nat, rest: seq<real>, solveCount: nat)
      requires wMat.Valid()
      modifies this
      ensures Valid()
      ensures globalPoseCount == poseCount && fresh(matPoses) && fresh(matValues)
      ensures matPoses.cols == |rest| && matPoses.mat == GenericPoseGrid(poses, poseCount, rest)
      ensures matValues.cols == solveCount && matValues.mat == GenericValueGrid(poses, poseCount, solveCount)
      ensures poseModes == ZeroModes(poseCount) && poseMatrixIds == Range(poseCount)
      ensures distanceTypeVal == old(distanceTypeVal) && genericMode == old(genericMode) && evalInput == old(evalInput)
      ensures wMat == old(wMat) && meanDist == old(meanDist)
    {
      globalPoseCount := poseCount;
      matPoses, matValues := GenericMatrices(poses, poseCount, rest, solveCount);
      poseModes := ZeroModes(poseCount);
      poseMatrixIds := Range(poseCount);
    }

    /**
     * The state getPoseVectors has built once the first k drivers are
     * read: the first driver's pose indices and count, one pose row per pose
     * holding the blocks of those drivers, the identity as pose values, and
     * the modes of the last driver read.
     */
    ghost predicate MatrixState(drivers: seq<DriverInput>, k: nat, poseCount: nat, axis: int, m: Maths)
      reads this`genericMode, this`distanceTypeVal, this`evalInput, this`globalPoseCount, this`poseMatrixIds,
            this`poseModes, this`matPoses, this`matValues, matPoses, matValues
      requires 0 < k <= |drivers|
    {
      && poseCount == |drivers[0].poses| && poseMatrixIds == PoseIds(drivers[0].poses)
      && globalPoseCount == poseCount && PosesCover(drivers, k, poseCount)
      && matPoses.cols == 4 * |drivers| && matPoses.mat == MatrixPoseGrid(drivers, k, poseCount, axis, m)
      && matValues.cols == poseCount && matValues.mat == Identity(poseCount) && matPoses != matValues
      && (poseCount > 0 ==> poseModes == PoseModes(drivers[k - 1].poses, poseCount))
    }

    /**
     * MatrixState after the first k drivers, with the evaluation flag raised
     * exactly when it was raised before (eval0), the pose count moved away
     * from global0, or a mode differs from the one before it (modes0 being
     * the modes before the first driver).
     */
    ghost predicate DriversRead(drivers: seq<DriverInput>, k: nat, poseCount: nat, axis: int, m: Maths,
                                eval0: bool, global0: nat, modes0: seq<int>)
      reads this`genericMode, this`distanceTypeVal, this`evalInput, this`globalPoseCount, this`poseMatrixIds,
            this`poseModes, this`matPoses, this`matValues, matPoses, matValues
      requires 0 < k <= |drivers|
    {
      && MatrixState(drivers, k, poseCount, axis, m)
      && evalInput == (eval0 || poseCount != global0 || ModesChanged(drivers, modes0, k, poseCount))
      && (poseCount == 0 ==> poseModes == modes0)
    }

    /**
     * The state getPoseVectors leaves when driver d, after the first, has
     * fewer poses than the first: the first d drivers read as in
     * DriversRead, driver d's blocks in the rows of its poses, its modes
     * and 0 past its last pose, and the evaluation flag also raised by a
     * mode change among its poses.
     */
    ghost predicate StoppedAt(drivers: seq<DriverInput>, d: nat, poseCount: nat, axis: int, m: Maths,
                              eval0: bool, global0: nat, modes0: seq<int>)
      reads this, matPoses, matValues
      requires 0 < d < |drivers|
    {
      && poseCount == |drivers[0].poses| && poseMatrixIds == PoseIds(drivers[0].poses)
      && globalPoseCount == poseCount && PosesCover(drivers, d, poseCount) && |drivers[d].poses| < poseCount
      && matPoses.cols == 4 * |drivers| && matPoses.mat == StoredRows(drivers, d, |drivers[d].poses|, poseCount, axis, m)
      && matValues.cols == poseCount && matValues.mat == Identity(poseCount) && matPoses != matValues
      && poseModes == PartialModes(drivers[d].poses, poseCount)
      && var prev := PoseModes(drivers[d - 1].poses, poseCount);
        evalInput == (|| eval0 || poseCount != global0 || ModesChanged(drivers, modes0, d, poseCount)
                      || exists i :: 0 <= i < |drivers[d].poses| && ModeChangedAt(drivers, prev, d, i))
    }

    /**
     * getPoseVectors: the driver vector, four entries per driver, and the
     * pose matrix and identity value matrix of matrix mode. Reading stops at
     * the first driver whose input is not connected; it fails when a driver
     * after the first has fewer poses than the first.
     */
    method GetPoseVectors(drivers: seq<DriverInput>, axis: int, m: Maths) returns (ok: bool, driver: seq<real>, poseCount: nat)
      requires Valid()
      modifies this
      ensures Valid()
      ensures distanceTypeVal == old(distanceTypeVal) && genericMode == old(genericMode)
      ensures wMat == old(wMat) && meanDist == old(meanDist)
      ensures var k := Leading(drivers);
        ok == (k == 0 || PosesCover(drivers, k, |drivers[0].poses|))
      ensures ok ==> driver == MatrixDriver(drivers, Leading(drivers), axis, m)
      ensures ok && Leading(drivers) == 0 ==>
        && poseCount == 1 && evalInput == old(evalInput) && globalPoseCount == old(globalPoseCount)
        && poseMatrixIds == old(poseMatrixIds) && matPoses == old(matPoses) && matValues == old(matValues)
        && poseModes == old(poseModes)
      ensures ok && Leading(drivers) > 0 ==>
        && DriversRead(drivers, Leading(drivers), poseCount, axis, m, old(evalInput), old(globalPoseCount), old(poseModes))
        && fresh(matPoses) && fresh(matValues)
      ensures !ok ==>
        && fresh(matPoses) && fresh(matValues)
        && exists d :: 0 < d < Leading(drivers) && StoppedAt(drivers, d, |drivers[0].poses|, axis, m, old(evalInput), old(globalPoseCount), old(poseModes))
    {
      var count := |drivers|;
      driver := MatrixDriver(drivers, 0, axis, m);
      poseCount := 1;
      var d := 0;
      while d < count
        invariant 0 <= d <= count
        invariant forall e :: 0 <= e < d ==> drivers[e].connected
        invariant driver == MatrixDriver(drivers, d, axis, m)
        invariant Valid()
        invariant distanceTypeVal == old(distanceTypeVal) && genericMode == old(genericMode)
        invariant wMat == old(wMat) && meanDist == old(meanDist)
        invariant d == 0 ==>
          && poseCount == 1 && evalInput == old(evalInput) && globalPoseCount == old(globalPoseCount)
          && poseMatrixIds == old(poseMatrixIds) && matPoses == old(matPoses) && matValues == old(matValues)
          && poseModes == old(poseModes)
        invariant d > 0 ==>
          DriversRead(drivers, d, poseCount, axis, m, old(evalInput), old(globalPoseCount), old(poseModes))
          && fresh(matPoses) && fresh(matValues)
      {
        var dr := drivers[d];
        if !dr.connected {
          LeadingStops(drivers, d);
          ok := true;
          return;
        }
        driver := WriteDriverBlock(driver, drivers, d, axis, m);
        var stored;
        stored, poseCount := ReadDriverPoses(drivers, d, poseCount, axis, m, old(evalInput), old(globalPoseCount), old(poseModes));
        if !stored {
          LeadingCovers(drivers, d);
          ok := false;
          return;
        }
        d := d + 1;
      }
      LeadingStops(drivers, d);
      ok := true;
    }

    /**
     * The pose part of one pass of the driver loop of getPoseVectors: for
     * the first driver the pose indices, the pose count and cleared
     * matrices, then, when there are poses, the driver's pose blocks and
     * modes. Fails when the driver has fewer poses than the first.
     */
    method ReadDriverPoses(drivers: seq<DriverInput>, d: nat, poseCount: nat, axis: int, m: Maths,
                           ghost eval0: bool, ghost global0: nat, ghost modes0: seq<int>) returns (ok: bool, newCount: nat)
      requires Valid() && d < |drivers|
      requires d == 0 ==> poseCount == 1 && evalInput == eval0 && globalPoseCount == global0 && poseModes == modes0
      requires d > 0 ==> DriversRead(drivers, d, poseCount, axis, m, eval0, global0, modes0)
      modifies this, if d == 0 then {} else {matPoses, matValues}
      ensures Valid()
      ensures distanceTypeVal == old(distanceTypeVal) && genericMode == old(genericMode)
      ensures wMat == old(wMat) && meanDist == old(meanDist)
      ensures d == 0 ==> fresh(matPoses) && fresh(matValues)
      ensures d > 0 ==> matPoses == old(matPoses) && matValues == old(matValues)
      ensures newCount == if d == 0 then |drivers[0].poses| else poseCount
      ensures ok == (newCount <= |drivers[d].poses|)
      ensures ok ==> DriversRead(drivers, d + 1, newCount, axis, m, eval0, global0, modes0)
      ensures !ok ==> d > 0 && StoppedAt(drivers, d, newCount, axis, m, eval0, global0, modes0)
    {
      newCount := poseCount;
      if d == 0 {
        newCount := StartMatrixPoses(drivers[0], |drivers|);
        EmptyPoseGrid(drivers, newCount, axis, m);
      }
      ok := true;
      if newCount != 0 {
        ghost var prev := poseModes;
        ok := StoreDriverPoses(drivers, d, newCount, axis, m);
        if ok {
          ModesChangedStep(drivers, modes0, d, newCount, prev);
        }
      }
    }

    /** The first driver's part of getPoseVectors: the pose indices, the pose count and cleared matrices. */
    method StartMatrixPoses(first: DriverInput, driverCount: nat) returns (poseCount: nat)
      modifies this
      ensures poseCount == |first.poses| && poseMatrixIds == PoseIds(first.poses) && globalPoseCount == poseCount
      ensures evalInput == (old(evalInput) || poseCount != old(globalPoseCount))
      ensures fresh(matPoses) && fresh(matValues) && matPoses != matValues
      ensures matPoses.Valid() && matPoses.rows == poseCount && matPoses.cols == 4 * driverCount
      ensures matPoses.mat == Zeros(poseCount, 4 * driverCount)
      ensures matValues.Valid() && matValues.rows == poseCount && matValues.cols == poseCount
      ensures matValues.mat == Zeros(poseCount, poseCount)
      ensures distanceTypeVal == old(distanceTypeVal) && genericMode == old(genericMode)
      ensures wMat == old(wMat) && meanDist == old(meanDist) && poseModes == old(poseModes)
    {
      poseMatrixIds := PoseIds(first.poses);
      poseCount := |poseMatrixIds|;
      if poseCount != globalPoseCount {
        globalPoseCount := poseCount;
        evalInput := true;
      }
      matPoses := ClearedMatrix(poseCount, 4 * driverCount);
      matValues := ClearedMatrix(poseCount, poseCount);
    }

    /**
     * The pose loop of getPoseVectors for driver d: each pose's mode, its
     * block in the pose matrix and, for the first driver, its identity row.
     * Fails when the driver has fewer than count poses. Before the first
     * driver the previous modes either are empty, cover every pose, or an
     * evaluation is already requested, so the comparison with a mode past
     * their end never decides anything.
     */
    method StoreDriverPoses(drivers: seq<DriverInput>, d: nat, count: nat, axis: int, m: Maths) returns (ok: bool)
      requires d < |drivers| && count > 0 && PosesCover(drivers, d, count)
      requires matPoses.Valid() && matPoses.rows == count && matPoses.cols == 4 * |drivers|
      requires matValues.Valid() && matValues.rows == count && matValues.cols == count && matPoses != matValues
      requires matPoses.mat == MatrixPoseGrid(drivers, d, count, axis, m)
      requires matValues.mat == (if d == 0 then Zeros(count, count) else Identity(count))
      requires d == 0 ==> |poseModes| == 0 || count <= |poseModes| || evalInput
      requires d > 0 ==> poseModes == PoseModes(drivers[d - 1].poses, count)
      modifies this, matPoses, matValues
      ensures matPoses == old(matPoses) && matValues == old(matValues)
      ensures distanceTypeVal == old(distanceTypeVal) && genericMode == old(genericMode) && globalPoseCount == old(globalPoseCount)
      ensures poseMatrixIds == old(poseMatrixIds) && wMat == old(wMat) && meanDist == old(meanDist)
      ensures matPoses.Valid() && matPoses.rows == count && matPoses.cols == 4 * |drivers|
      ensures matValues.Valid() && matValues.rows == count && matValues.cols == count && |poseModes| == count
      ensures ok == (count <= |drivers[d].poses|)
      ensures ok ==>
        && matPoses.mat == MatrixPoseGrid(drivers, d + 1, count, axis, m) && matValues.mat == Identity(count)
        && poseModes == PoseModes(drivers[d].poses, count)
        && evalInput == (old(evalInput) || exists i :: 0 <= i < count && ModeChangedAt(drivers, old(poseModes), d, i))
      ensures !ok ==>
        var n := |drivers[d].poses|;
        && matPoses.mat == StoredRows(drivers, d, n, count, axis, m)
        && matValues.mat == (if d > 0 then Identity(count) else IdentityRows(count, n))
        && poseModes == PartialModes(drivers[d].poses, count)
        && evalInput == (old(evalInput) || exists i :: 0 <= i < n && ModeChangedAt(drivers, old(poseModes), d, i))
    {
      var changed;
      ok, poseModes, changed := FillDriverPoses(matPoses, matValues, drivers, d, count, axis, m, poseModes);
      if changed {
        evalInput := true;
      }
    }
  }
}
