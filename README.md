# weightDriver RBF core in Dafny

A model of the solving core of the weightDriver node: the small dense matrix class
`BRMatrix` and the radial basis function (RBF) pipeline of `weightDriver::compute`.
It also covers the scalar tail of the vector-angle type.

- `BRMatrix` is a class over a `seq<seq<real>>` with `rows` and `cols`. Its Gaussian
  elimination `solve` is proved against a functional specification
  (module `Elimination`). Whenever `solve` succeeds, the returned vector satisfies
  the original system.
- The RBF pipeline:
  - gathers pose data in generic mode (numeric inputs with sparse pose arrays) or in
    matrix mode (transform drivers, four numbers per driver);
  - builds the pose distance matrix and its mean;
  - turns the distance matrix into kernel activations;
  - solves one linear system per output value;
  - blends the current driver's activations with the weight matrix;
  - shapes every weight (negative clamp, bias, interpolation curve, scale);
  - writes the result to the output array under the logical indices the node uses.
- The node's member variables that persist between evaluations are the fields of
  the class `RbfNode.WeightDriver`.
- What one evaluation reads from its attributes is a `Plugs` value.
- The host's transcendental functions (`sqrt`, `exp`, `pow`, `atan2`, the vector
  angle) are fields of a `HostMath.Maths` value. `HostMath.Lawful` states the few
  facts about them that the lemmas use.
- An evaluation ends in one of three states: `Success`, `Failure` (the source returns
  `kFailure`) or `UndefinedBehaviour`. The last marks the runs in which the source
  would index outside a matrix, a vector or an array left over from an earlier
  evaluation. In that case the model stops and writes nothing.

The main results are:

- `Matrices.BRMatrix.Solve` and `Elimination.GaussianElimination`: when the
  elimination succeeds, back substitution returns a solution of the original system.
- `Rbf.InterpolatesTrainingPoses` and `Rbf.PoseWeightsAtTrainingPose`: once every
  weight column solves the activation system, a driver sitting on a training pose
  reproduces that pose's values.
- `Rbf.DistanceGridMetric`: the distance matrix is symmetric and non-negative, with
  zeros on the diagonal for the Euclidean distance.
- `RbfNode.WeightDriver.Compute`: ties the whole evaluation to these
  specification functions: the driver vector, pose count and new pose state are
  functions of the plugs and the old state (`GatherDone`), and the status, mean
  distance, weight matrix and weights are those the RBF stage gives for them
  (`Weighed`).

Files:

- `host_math.dfy`: host maths.
- `grids.dfy`: grid helpers.
- `elimination.dfy`: the specification of `solve`.
- `br_matrix.dfy`: the `BRMatrix` class.
- `rbf.dfy`: distances, kernels, shaping and inference.
- `weight_driver.dfy`: the node's state and `compute`.
- `vector_angle.dfy`: the vector-angle weight.

## Model

| member | source | states |
|---|---|---|
| Matrices.Resized | source/BRMatrix.cpp:37-45 | resizing keeps every cell inside both the old and the new bounds and makes every new cell 0 |
| Matrices.TransposeInvolution | source/BRMatrix.cpp:159-173 | transposing a square matrix twice gives back the matrix |
| Matrices.IdentityProduct | source/BRMatrix.cpp:128-148 | the row-by-column sum of the product with the identity on the left picks out the other matrix's cell |
| Matrices.BRMatrix.constructor | source/BRMatrix.cpp:14-19 | a new matrix is empty with 0 rows and 0 columns |
| Matrices.BRMatrix.Copy | source/BRMatrix.cpp:22-27 | the copy has the same cells and sizes as its source |
| Matrices.BRMatrix.Set | source/BRMatrix.cpp:180-189 | writing through the cell accessor changes exactly that cell |
| Matrices.BRMatrix.SetSize | source/BRMatrix.cpp:37-45 | the matrix takes the requested sizes; old cells inside them are kept and new cells are 0 |
| Matrices.BRMatrix.GetRowVector | source/BRMatrix.cpp:64-73 | returns a vector of length cols equal to the requested row |
| Matrices.BRMatrix.GetColumnVector | source/BRMatrix.cpp:76-85 | returns a vector of length rows whose entry i is the cell (i, col) |
| Matrices.BRMatrix.GetColumnInto | source/BRMatrix.cpp:88-94 | fills the first rows entries of the caller's buffer with the column, leaves the rest and returns the same buffer |
| Matrices.BRMatrix.Assign | source/BRMatrix.cpp:101-125 | the matrix takes the other matrix's sizes and cells |
| Matrices.BRMatrix.Multiply | source/BRMatrix.cpp:128-148 | a fresh result with the right operand's shape whose cell (i, j) sums this row i times the right operand's column j over the right operand's rows |
| Matrices.BRMatrix.AddCellProducts | source/BRMatrix.cpp:142-143 | the inner loop adds exactly that sum to cell (i, j) of the result and changes no other cell |
| Matrices.BRMatrix.MultiplyAssign | source/BRMatrix.cpp:151-156 | the matrix becomes the product of its old value and the operand |
| Matrices.BRMatrix.Transpose | source/BRMatrix.cpp:159-173 | a fresh matrix of the same shape holding the transpose |
| Matrices.BRMatrix.FindPivot | source/BRMatrix.cpp:213-226 | the pivot is the first row at or below i whose entry in column i has the largest magnitude; swap says whether it differs from i |
| Matrices.BRMatrix.SwapWithPivot | source/BRMatrix.cpp:229-243 | rows i and pivot are exchanged in the matrix and in y, and w holds the old pivot row |
| Matrices.BRMatrix.EliminateRowAt | source/BRMatrix.cpp:252-255 | row j and y[j] lose the multiple of row i that clears column i |
| Matrices.BRMatrix.EliminateColumn | source/BRMatrix.cpp:250-256 | all rows below i are eliminated against row i |
| Matrices.BRMatrix.BackSubstitution | source/BRMatrix.cpp:260-266 | w[..rows] becomes the back-substitution solution and later entries of w are untouched |
| Matrices.BRMatrix.ForwardStep | source/BRMatrix.cpp:211-257 | one pass of the outer loop: pivot search, swap, singularity test and elimination, as the specification step |
| Matrices.BRMatrix.ForwardPhase | source/BRMatrix.cpp:211-257 | the whole forward phase stops at the first pivot below the tolerance, exactly as the specification does |
| Matrices.BRMatrix.Solve | source/BRMatrix.cpp:196-269 | a non-square matrix fails with nothing changed; success means every pivot passed the 0.0001 test; on success the matrix is upper triangular with diagonal entries of magnitude at least 0.0001, and w[..rows] solves the original system |
| Elimination.PivotScanMaximal | source/BRMatrix.cpp:215-226 | the pivot entry has the largest magnitude in column i, and every earlier row's entry is strictly smaller (the first maximum wins) |
| Elimination.EliminateBelow | source/BRMatrix.cpp:250-256 | eliminating below row i leaves row i and w as they were |
| Elimination.EliminateRowSolutions | source/BRMatrix.cpp:250-256 | a row elimination keeps exactly the same solution set, in both directions |
| Elimination.SwapSolutions | source/BRMatrix.cpp:229-243 | a row swap keeps exactly the same solution set, in both directions |
| Elimination.EliminateBelowSolutions | source/BRMatrix.cpp:250-256 | eliminating a whole column keeps exactly the same solution set |
| Elimination.ForwardSolutions | source/BRMatrix.cpp:211-257 | the whole forward phase keeps exactly the same solution set |
| Elimination.ForwardTriangular | source/BRMatrix.cpp:211-257 | after k successful steps the first k columns are zero below the diagonal and the first k pivots pass the tolerance |
| Elimination.ForwardMatrixOnly | source/BRMatrix.cpp:211-257 | whether elimination succeeds, and the matrix it leaves, do not depend on y or w |
| Elimination.SingularPersists | source/BRMatrix.cpp:246-247 | once a pivot fails the test, the outcome no longer changes |
| Elimination.SingularWitness | source/BRMatrix.cpp:246-247 | a failed elimination names the step whose pivot was below the tolerance, with every earlier pivot passing |
| Elimination.BackSubstituteSolves | source/BRMatrix.cpp:260-266 | on an upper triangular matrix with nonzero diagonal, back substitution solves the system |
| Elimination.GaussianElimination | source/BRMatrix.cpp:196-269 | when the forward phase succeeds, the diagonal is nonzero and back substitution solves the original system |
| Rbf.SquaredSum | source/weightDriver.cpp:1885-1887 | the sum of squared differences is non-negative |
| Rbf.GetRadius | source/weightDriver.cpp:1881-1889 | the loop computes the square root of the sum of squared differences over the first vector's length |
| Rbf.GetPoseDelta | source/weightDriver.cpp:1854-1867 | returns the pose distance `PoseDelta`, which `Rbf.PoseDeltaMetric` shows non-negative, symmetric and 0 from a pose to itself when it is Euclidean |
| Rbf.SquaredSumSymmetric | source/weightDriver.cpp:1885-1887 | the squared sum does not depend on the order of the vectors |
| Rbf.SquaredSumSelf | source/weightDriver.cpp:1885-1887 | a vector's squared distance to itself is 0 |
| Rbf.PoseDeltaMetric | source/weightDriver.cpp:1854-1908 | the pose distance is non-negative and symmetric, and 0 from a pose to itself when it is Euclidean |
| Rbf.RestOffsetCancels | source/weightDriver.cpp:1676-1679 | subtracting the same rest pose from both vectors leaves their squared distance unchanged |
| Rbf.InterpolateRbf | source/weightDriver.cpp:1949-1969 | the linear kernel is the identity and unknown kernels give 0; the Gaussian is 1 at distance 0; a width of 0 counts as 1 |
| Rbf.RbfWeightBias | source/weightDriver.cpp:2121-2139 | a non-negative bias never gives a negative value, and bias 0 gives the magnitude; a negative bias gives 1 when the magnitude is within DOUBLE_EPSILON of 1, and 0 at 0 |
| Rbf.InterpolateWeight | source/weightDriver.cpp:2153-2171 | types outside 1..5 leave the value unchanged; type 5 is the ramp curve; types 1-4 fix both ends 0 and 1 |
| Rbf.SlowCurveBounded | source/weightDriver.cpp:2156-2157 | the slow curve maps [0, 1] into [0, 1] |
| Rbf.SmoothstepBounded | source/weightDriver.cpp:2162-2163 | smoothstep maps [0, 1] into [0, 1] |
| Rbf.SmootherstepBounded | source/weightDriver.cpp:2165-2166 | smootherstep maps [0, 1] into [0, 1] |
| Rbf.PostProcess | source/weightDriver.cpp:1146-1158 | without negatives, bias or interpolation, a negative weight becomes 0 and with a non-negative scale every weight stays non-negative; with no bias and no interpolation an admissible weight is just scaled |
| Rbf.NegativeWeightsShapeAsZero | source/weightDriver.cpp:1148-1149 | without allowNegative, every negative raw weight shapes exactly like 0 |
| Rbf.GetTwistAngle | source/weightDriver.cpp:1788-1796 | a rotation with a positive w component and no component about the twist axis has twist 0 |
| Rbf.DistanceGridMetric | source/weightDriver.cpp:1813-1837 | the distance matrix is symmetric and non-negative, and its diagonal is 0 for the Euclidean distance |
| Rbf.GridSumNext | source/weightDriver.cpp:1824-1832 | the running sum grows by one row total per row |
| Rbf.RowSumNonNegative | source/weightDriver.cpp:1826-1831 | a row of non-negative distances has a non-negative sum |
| Rbf.GridSumNonNegative | source/weightDriver.cpp:1824-1832 | the sum over all distances is non-negative |
| Rbf.MeanDistanceNonNegative | source/weightDriver.cpp:1834 | the mean distance, the kernel width, is non-negative |
| Rbf.GetDistances | source/weightDriver.cpp:1813-1837 | a fresh count-by-count matrix holding the distance matrix, and the mean of its entries |
| Rbf.FillDistanceRow | source/weightDriver.cpp:1826-1831 | the inner loop writes row i of the distance matrix and returns its sum |
| Rbf.ActivationDiagonal | source/weightDriver.cpp:1923-1934 | with the Gaussian kernel over Euclidean distances, every pose activates itself with 1 |
| Rbf.GetActivations | source/weightDriver.cpp:1923-1934 | the matrix is replaced in place by its activations |
| Rbf.TwistIgnoredInRotationMode | source/weightDriver.cpp:2020-2021 | for a pose in mode 1, the driver's twist does not affect its distance |
| Rbf.VectorIgnoredInTwistMode | source/weightDriver.cpp:2022-2027 | for a pose in mode 2, the driver's direction vector does not affect its distance |
| Rbf.BlendIsDotProduct | source/weightDriver.cpp:2031-2032 | the accumulated output j is the dot product of the activations with column j of the weight matrix |
| Rbf.InterpolatesTrainingPoses | source/weightDriver.cpp:1094-1132 | when weight column c solves the activation system for value column c, a driver on training pose i yields that pose's value c |
| Rbf.GetPoseWeights | source/weightDriver.cpp:1994-2034 | if the weight matrix does not match the pose count and output length, nothing changes; otherwise every output gains its blend of activations and weights |
| Rbf.AddPoseWeight | source/weightDriver.cpp:2016-2032 | one pose adds its weight row, scaled by its activation, to every output |
| Rbf.AddWeightedActivation | source/weightDriver.cpp:2031-2032 | the inner loop adds the scaled weight row to the outputs |
| Rbf.PoseWeights | source/weightDriver.cpp:1052-1054 | starting from zeros, output j is the dot product of the activations with weight column j, or 0 when the weight matrix does not match |
| Rbf.PoseWeightsAtTrainingPose | source/weightDriver.cpp:1094-1132 | when every weight column solves its system, the raw output vector at a training pose equals that pose's values |
| Rbf.ShapedWeights | source/weightDriver.cpp:1144-1159 | without negatives, bias or interpolation, and with a non-negative scale, every final weight is non-negative; with no bias and no interpolation and negatives allowed, every weight is only scaled |
| Rbf.ShapeWeights | source/weightDriver.cpp:1144-1159 | the final loop shapes every weight in place |
| RbfNode.GenericDistanceIgnoresRest | source/weightDriver.cpp:1657-1737 | for the Euclidean distance (distance type non-zero, input count other than 3), subtracting the rest pose from the driver and from every pose row leaves every distance as it would be without it; the three-input angle distance is not covered |
| RbfNode.PoseRowIsShiftedRaw | source/weightDriver.cpp:1710-1737 | a stored pose row is the raw pose inputs less the rest vector, with missing inputs read as 0 |
| RbfNode.FillGenericPoseRow | source/weightDriver.cpp:1710-1738 | row i of the pose matrix becomes the pose's shifted inputs, and other rows are unchanged |
| RbfNode.FillGenericValueRow | source/weightDriver.cpp:1712-1759 | row i of the value matrix becomes the pose's values, and other rows are unchanged |
| RbfNode.Leading | source/weightDriver.cpp:1287-1291 | the number of drivers read before the first unconnected one |
| RbfNode.PoseBlock | source/weightDriver.cpp:1440-1454 | a pose in mode 2 stores no direction vector, and a pose in mode 1 stores no twist |
| RbfNode.WritePoseBlock | source/weightDriver.cpp:1440-1454 | writes the driver's four columns of row i, skipping the vector columns for a mode-2 pose |
| RbfNode.WriteIdentityRow | source/weightDriver.cpp:1461-1469 | row i of the value matrix becomes row i of the identity |
| RbfNode.WriteAllKeys | source/weightDriver.cpp:2088-2104 | exactly the listed indices are written |
| RbfNode.WriteAllValue | source/weightDriver.cpp:2090-2101 | the last write under an index holds that position's weight, or 0 when inactive or past the single weight |
| RbfNode.WriteAllInactive | source/weightDriver.cpp:2093-2096 | an inactive node writes 0 under every index |
| RbfNode.GenericIdsDistinct | source/weightDriver.cpp:2068-2071 | the generic output indices are pairwise distinct |
| RbfNode.CountGenericPoses | source/weightDriver.cpp:1606-1640 | fails exactly when there are no pose elements, and otherwise returns the adjusted pose count |
| RbfNode.DriverAndRest | source/weightDriver.cpp:1657-1680 | returns the rest vector and the driver less the rest vector |
| RbfNode.GenericMatrices | source/weightDriver.cpp:1686-1770 | fresh pose and value matrices of the right shapes, holding every pose's shifted inputs and values |
| RbfNode.FillDriverPoses | source/weightDriver.cpp:1370-1470 | fails exactly when the driver has fewer poses than the first; otherwise adds the driver's columns, makes the values the identity, records the modes and reports a mode change; on failure the rows, identity rows, modes and mode-change report of the poses the driver has are kept and the remaining modes are 0 |
| RbfNode.StorePose | source/weightDriver.cpp:1395-1469 | stores one pose's block in row i and, for the first driver, its identity value row |
| RbfNode.ClearedMatrix | source/weightDriver.cpp:1087-1088 | a fresh zero matrix of the requested shape |
| RbfNode.StoreColumn | source/weightDriver.cpp:1113-1115 | column c of the weight matrix becomes the solution, and the other columns are unchanged |
| RbfNode.SolveColumn | source/weightDriver.cpp:1096-1117 | solving a copy of the activation matrix succeeds exactly when every pivot passes; on success column c solves the system for value column c; on failure the weight matrix is unchanged |
| RbfNode.ActivationMatrix | source/weightDriver.cpp:1064-1077 | the activation matrix of the pose distances and the mean distance it uses as width |
| RbfNode.SolveColumns | source/weightDriver.cpp:1094-1118 | succeeds exactly when there is nothing to solve or every pivot passes; on success every weight column solves its system; on failure the weight matrix is unchanged |
| RbfNode.WeightDriver.constructor | source/weightDriver.cpp:119-120 | a new node holds empty matrices, no pose indices or modes, and no pending evaluation |
| RbfNode.WeightDriver.SolveStage | source/weightDriver.cpp:1058-1122 | training stores the mean distance and a fresh weight matrix; it fails exactly when the activation matrix has a failing pivot and there are values to solve; otherwise every weight column solves its value column; on failure the weight matrix is left all zero |
| RbfNode.WeightDriver.InferStage | source/weightDriver.cpp:1124-1159 | never fails; is undefined exactly when the weights match but a pose row or mode does not fit the driver; otherwise the weights are the shaped blends |
| RbfNode.WeightDriver.RbfStage | source/weightDriver.cpp:1049-1160 | trains only when evaluation is pending and training is defined, and then as SolveStage says, a failure leaving an all-zero weight matrix; then infers as InferStage says; fails only after such a training; nothing else changes |
| RbfNode.WeightDriver.GatherPoses | source/weightDriver.cpp:970-1036 | chooses generic mode exactly when inputs are connected; fails exactly when the mode's data is missing; on success the driver vector, pose count, value count, pending flag, matrices, modes and indices are the functions of the plugs and old state that `GatherDone` names (generic: shifted poses and values; matrix: every driver's blocks and the Euclidean distance); a failure leaves generic mode's state untouched and matrix mode's as the first short driver leaves it |
| RbfNode.WeightDriver.GatherGeneric | source/weightDriver.cpp:994-1006 | generic mode's gathering, with the same success and failure states as GatherPoses |
| RbfNode.WeightDriver.GatherMatrix | source/weightDriver.cpp:1007-1034 | matrix mode's gathering, with the same success and failure states as GatherPoses, one value column per pose |
| RbfNode.WeightDriver.Weigh | source/weightDriver.cpp:1049-1168 | no poses gives the single weight 1 and success; a pending training that is undefined is undefined; otherwise, as `Weighed` states, the mean distance and weight matrix come from the stored poses, the status is a failure exactly when a pivot fails with values to solve (leaving an all-zero weight matrix), undefined exactly when the weights match but the driver does not, and a success holds one weight per value; without training nothing changes but the weights |
| RbfNode.WeightDriver.Evaluate | source/weightDriver.cpp:956-1174 | reading the poses, weighing and writing the outputs, composed as the source orders them; a failed gathering writes nothing and leaves the weight matrix and mean distance as they were; a successful one leaves the pose state `GatherDone` names and the status, weight matrix and weights `Weighed` names for the plugs' value count |
| RbfNode.WeightDriver.WeighAndWrite | source/weightDriver.cpp:1049-1174 | weighs as `Weighed` states, changing only the weight matrix and mean distance, and writes the weights only on success |
| RbfNode.WeightDriver.Compute | source/weightDriver.cpp:754-1186 | an inactive node writes 0 under every index; a node set to HasNoEffect writes nothing and changes nothing but the evaluate flag and distance type it read; an inactive node changes nothing else; otherwise the pose state is the one `GatherDone` names from the plugs, and the status is a success unless the gathering fails, the training fails its pivot test, or the inference is undefined, as `Weighed` states |
| RbfNode.WeightDriver.SetOutputValues | source/weightDriver.cpp:2049-2106 | writes every weight under its output index; in active generic mode output i holds weight i |
| RbfNode.WeightDriver.GetPoseData | source/weightDriver.cpp:1541-1774 | fails only without pose elements; evaluation becomes pending on connected poses or a changed count; pending with poses, the matrices hold the shifted poses and values, modes are 0 and indices 0..n-1 |
| RbfNode.WeightDriver.StoreGenericPoses | source/weightDriver.cpp:1686-1770 | records the pose count, fresh pose and value matrices, zero modes and indices 0..n-1 |
| RbfNode.WeightDriver.GetPoseVectors | source/weightDriver.cpp:1210-1521 | reads the drivers up to the first unconnected one; fails exactly when a driver has fewer poses than the first; the driver vector holds every driver's block and the pose matrix every pose's block; on failure the state is the one the first short driver leaves |
| RbfNode.WeightDriver.ReadDriverPoses | source/weightDriver.cpp:1258-1518 | one pass of the driver loop keeps the stored rows, values, modes and pending flag in step with the drivers read so far; a failing driver (never the first) leaves the pose indices and count of the first, its own poses' rows and modes, and the pending flag raised by every change seen |
| RbfNode.WeightDriver.StartMatrixPoses | source/weightDriver.cpp:1338-1364 | the first driver fixes the pose count and indices, marks a changed count as pending, and allocates zero matrices |
| RbfNode.WeightDriver.StoreDriverPoses | source/weightDriver.cpp:1370-1470 | stores one driver's poses and modes; a mode change against the previous modes makes evaluation pending; on failure the poses the driver has are stored, the remaining modes are 0, and their mode changes still make evaluation pending |
| VectorAngle.TranslateFactor | source/weightDriver.cpp:878-897 | the translate factor lies in [0, 1]: 1 up to the minimum distance and 0 from the maximum on, reversed by grow |
| VectorAngle.TranslateFactorMonotone | source/weightDriver.cpp:884-893 | without grow the factor never rises with the distance |
| VectorAngle.GuardedCenter | source/weightDriver.cpp:916-917 | the guarded center angle is always below the cone angle and unchanged when it already was |
| VectorAngle.CenterFactor | source/weightDriver.cpp:916-923 | the widening factor is positive, and at most 1 for a center angle inside the cone |
| VectorAngle.TwistFactorAsWritten | source/weightDriver.cpp:861-872 | the twist factor is 1 without twist and negative for a twist beyond the twist angle |
| VectorAngle.Clamp01 | source/weightDriver.cpp:928-932 | clamping lands in [0, 1] and leaves inner values unchanged |
| VectorAngle.ConeWeightAsWritten | source/weightDriver.cpp:861-932 | the cone weight lies in [0, 1] |
| VectorAngle.OppositeTwistedDriverWeighsOne | source/weightDriver.cpp:861-932 | a driver 180 degrees off a 45 degree cone and twisted 180 degrees against a 90 degree twist angle gets the full weight 1 |
| VectorAngle.TwistFactor | source/weightDriver.cpp:861-872 | the corrected twist factor is never negative and agrees with the source within the twist angle |
| VectorAngle.ConeWeight | source/weightDriver.cpp:861-932 | the corrected cone weight lies in [0, 1] |
| VectorAngle.ConeWeightWithinTwist | source/weightDriver.cpp:861-872 | the corrected and the as-written weights agree whenever the twist is within the twist angle |
| VectorAngle.OutsideConeWeighsZero | source/weightDriver.cpp:903-932 | with the corrected twist factor, a driver at or beyond the cone angle weighs 0 |
| VectorAngle.VectorAngleWeightAsWritten | source/weightDriver.cpp:861-938 | the output as computed stays in [0, 1] without interpolation and for the slow curve, smoothstep and smootherstep |
| VectorAngle.VectorAngleWeight | source/weightDriver.cpp:928-938 | the output with the corrected twist factor stays in [0, 1] without interpolation and for the slow curve, smoothstep and smootherstep |
| VectorAngle.VectorAngleWeightWithinTwist | source/weightDriver.cpp:861-938 | without twist, or within the twist angle, the output as computed equals the corrected output |
| VectorAngle.TwistedPastAngleWeighsZero | source/weightDriver.cpp:861-932 | with the corrected twist factor, a driver twisted beyond the twist angle weighs 0 |
| VectorAngle.VectorAngleWeightZero | source/weightDriver.cpp:903-938 | with the corrected twist factor, a driver outside the cone or twisted beyond the twist angle yields 0 for every built-in curve |

## Left out

- Everything outside the evaluation, which is host plumbing or display:
  - attribute creation (`initialize`);
  - `postConstructor` and the ramp attribute setup;
  - drawing and the viewport override;
  - `show`, `showArray`, `showVector`, `showMatrix` and the `exposeData` printing;
  - the `rbfMode` output attribute;
  - the draw arrays filled in `getPoseVectors` (lines 1476-1514).
- Matrix and quaternion geometry (the host's `MMatrix`, `MVector` and `MQuaternion`):
  - in matrix mode, each driver's and pose's direction vector and rotation come in
    as values in `DriverInput` and `MatrixPose`;
  - in the vector-angle type, the offset angle, the twist angle (both in degrees)
    and the translate distance are inputs, and `RADTODEG` is not modelled.
- The vector-angle branch of `compute` (the node type 0 and the legacy `outWeight`
  plug) is modelled as the function `VectorAngle.VectorAngleWeightAsWritten`;
  `VectorAngle.VectorAngleWeight` is its corrected form (see Findings).
  `RbfNode.WeightDriver.Compute` models only the RBF type evaluated for the array
  `output` plug.
- `blendCurveWeight` reads the host's ramp attribute; it is the parameter `curve`.
- Floating point: all arithmetic is on mathematical reals. Rounding, overflow, NaN
  and the single-precision `RADTODEG` constant are not modelled.
- Host errors returned through `CHECK_MSTATUS_AND_RETURN_IT` are not modelled,
  except for the ones the source's data can cause:
  - a missing pose element in generic mode;
  - a driver with fewer poses than the first in matrix mode.
- Reads outside an array are not given a value. This covers:
  - a stale pose matrix shorter than the driver;
  - a pose mode of 1 or 2 with a driver too short to gate;
  - training in matrix mode with no driver read, over left-over matrices.
  These runs end in `UndefinedBehaviour` and write nothing.
- Matrices.BRMatrix.Multiply: requires the right operand's row count to fit this
  matrix, where the source would read outside `mat`.
- Matrices.BRMatrix.Transpose: requires a square or empty matrix, where the source
  would read outside `mat`.
- Matrices.BRMatrix.Solve: states the solution for `w[..rows]` only. The source
  also uses `w` as the swap buffer; the model tracks that, but the caller's array
  longer than `rows` is only said to be unchanged past `rows`.
- RbfNode.WeightDriver.SetOutputValues: when there is a single weight, the source
  reads `weightsArray[i]` past the end for i > 0 and then overwrites the cell with
  0. The model writes the 0 and does not model the discarded read.
- RbfNode.WeightDriver.StoreDriverPoses: `poseModesPrev[i]` past the end of a
  shorter earlier mode array is read only when evaluation is already pending, so
  the model treats it as no change.
- `MIntArray::setLength` leaves new elements unspecified; the model sets them to 0.
- The node constructor leaves `globalPoseCount`, `meanDist` and `genericMode`
  uninitialised; the model starts them at 0, 0 and false. An inactive evaluation
  before any active one reads `genericMode` to choose the output indices: the
  model then writes nothing (matrix mode, no pose indices yet), where the source,
  if the flag happens to be set, writes 0 under the existing output indices.

## Findings

| source | as written | input that shows it | evidently intended | confidence | as-written member | corrected member |
|---|---|---|---|---|---|---|
| source/weightDriver.cpp:861-932 | the twist factor `1 - twistAngle / twistAngleVal` is not clamped, so beyond the twist angle it turns negative, and multiplied by the negative falloff of a driver outside the cone it makes the weight positive | cone angle 45, center angle 0, twist on with twist angle 90, driver 180 degrees off and twisted 180 degrees: falloff -3, twist factor -1, weight clamped to 1 | a driver outside the cone, or twisted past the twist angle, weighs 0 | not executed | VectorAngle.OppositeTwistedDriverWeighsOne | VectorAngle.VectorAngleWeightZero |
