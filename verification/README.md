# Verification of the control and numerical cores

A Dafny model of the algorithms and state machines of an autonomous driving stack that have
properties over unbounded inputs and runs. Real arithmetic stands for floating point. Each file is
one component:

- `Wrappers.dfy`, `Scalars.dfy`: optional values and real arithmetic, used everywhere.
- `Matrices.dfy`: vectors, matrices, blocks, bilinear forms, positive semidefiniteness.
- `KalmanFilter.dfy`: the time delay Kalman filter and the update it inherits.
- `MpcPrediction.dfy`, `MpcCost.dfy`, `MpcProgram.dfy`: the matrices of the lateral model predictive
  controller, against step-by-step simulation and explicit costs.
- `PolygonEdges.dfy`, `ScanLines.dfy`, `PolygonIterator.dfy`: the scan line iterator over the cells of
  a grid map inside a polygon, against the even-odd rule.
- `Complexes.dfy`, `Polynomials.dfy`, `Butterworth.dfy`, `FrequencyResponse.dfy`, `Permutations.dfy`:
  design of a Butterworth filter, its bilinear transformation and its magnitude response.
- `Tridiagonal.dfy`, `Spline.dfy`, `Akima.dfy`, `LinearInterpolation.dfy`, `InterpolationUtils.dfy`:
  interpolation.
- `Compatibility.dfy`, `OperationMode.dfy`, `OperationModeRuns.dfy`, `OperationModeRules.dfy`: the
  operation mode transition manager and the layer that talks to older nodes.
- `VehicleCmdFilter.dfy`, `VehicleCmdGate.dfy`, `VehicleCmdGateRules.dfy`: the vehicle command gate and
  its limiters.
- `CscMatrix.dfy`: compressed sparse column matrices.
- `SmoothStop.dfy`: the least-squares stop predictor.

Code that updates fields is a class whose methods are tied to a function on values by their
contracts; the properties are lemmas about those functions. The two controllers with callbacks are
transition systems: one event per callback, service call or timer tick, each with its time.

## Where the code differs from what is said about it

Each point names the lemma that gives an input or the exact condition.

- The forward sweep of the tridiagonal solver stores `-c[i - 1] / den` for row i. The system is solved
  for every right-hand side exactly when the super-diagonal is constant (`ExactForAllIff`), so the
  continuity of the first derivative that the interpolation documentation lists as a constraint holds
  for all values exactly when the spacings between interior knots are equal (`SmoothForAllIff`,
  `KinkExample`).
- The vertex rule of the polygon iterator counts a vertex between a higher and a lower neighbour
  twice, where its comment says once (`MiddleVertexCountsTwice`). A line then has an odd number of
  intersections exactly when an odd number of sides end on it from above (`ClosedPolygonLine`), and
  what follows the last of them on the map is lost (`ScanIsVisited`).
- The first erasing loop of the iterator compares with `>=`, so a span that ends exactly at the centre
  of the first column is dropped although spans contain their lower end elsewhere
  (`FirstColumnExample`).
- A tick of the operation mode manager can end with the window closed and the older nodes in another
  mode: cancelling an engage transition closes the window whatever they report (`TickSyncsIff`,
  `SyncCanDrop`). The next tick takes their mode over.
- Cropping the queries moves only the first and the last one, so a query before the last that exceeds
  the last key by less than the margin passes validation and then runs out of keys
  (`CroppedRunsOut`, `CroppingExample`).
- The steering rate and acceleration weights act on the deviation from the feed-forward input, and past
  commands count as zero in them, because the linear terms for past commands are only added to a
  vector of at least two rows and the vector passed has one (`MatrixCostIsTotalCost`).
- The inherited Kalman prediction does not check that A is square; for another A the covariance
  changes its size and the state does not (`BaseKeepsShapeIff`, `TallExample`).
- The analog numerator is a power of the cut-off frequency also with pre-warping, when the poles lie
  on a larger circle: the gain of the analog transfer function at frequency zero is then below one
  (`AnalogGainIff`, `RadiusPositive`). The discrete filter is normalised and not affected.
- The lateral jerk limiter computes its angle for a squared speed of at least 0.001, so a slower
  vehicle can change its lateral acceleration faster than the limit (`LatJerkBoundedIff`,
  `SlowExample`).

## Model

| member | source | states |
|---|---|---|
| `KalmanFilter.ReachableCovariancePSD` | common/kalman_filter/src/time_delay_kalman_filter.cpp:21-104 | in every state reached from the initial one by predictions and measurements with proper noise, the whole extended covariance is symmetric positive semidefinite |
| `KalmanFilter.StepKeepsPSD` | common/kalman_filter/src/time_delay_kalman_filter.cpp:47-104 | one step keeps that, and a measurement never increases the variance in any direction |
| `KalmanFilter.UpdateIsJosephForm` | common/kalman_filter/src/kalman_filter.cpp:134-142 | P - K (C P) equals (I - K C) P (I - K C)' + K R K' for the computed gain |
| `KalmanFilter.UpdateNeverIncreasesVariance` | common/kalman_filter/src/kalman_filter.cpp:134-142 | v' P v does not grow for any v |
| `KalmanFilter.GainIsOptimal` | common/kalman_filter/src/kalman_filter.cpp:134-142 | no other gain gives a smaller variance in any direction |
| `KalmanFilter.BlocksArePrediction` | common/kalman_filter/src/time_delay_kalman_filter.cpp:50-78 | the four moved blocks are the extended product A P A' + Q, for every dimension and number of delays |
| `KalmanFilter.PredictionsKeepHistory` | common/kalman_filter/src/time_delay_kalman_filter.cpp:66-70 | after predictions only, block j holds the state supplied j predictions ago, or what was there before |
| `KalmanFilter.InitialHistory` | common/kalman_filter/src/time_delay_kalman_filter.cpp:31-34 | every block of a new filter holds the initial state |
| `KalmanFilter.DelayedMeasurementReadsPast` | common/kalman_filter/src/time_delay_kalman_filter.cpp:94-101 | a measurement with a delay is compared with the state supplied that many predictions ago |
| `KalmanFilter.UpdateSolvesNormalEquations` | common/kalman_filter/src/kalman_filter.cpp:134-142 | with w the inverse times the innovation, the state moves by P C' w and what it leaves of the measurement is R w |
| `KalmanFilter.DelayedUpdateCorrects` | common/kalman_filter/src/time_delay_kalman_filter.cpp:83-104 | so does a delayed measurement, compared with the state supplied that many predictions ago |
| `KalmanFilter.ExtendedAShifts` | common/kalman_filter/src/time_delay_kalman_filter.cpp:50-70 | the extended transition applies A to the newest block and moves the others back |
| `KalmanFilter.PredictedVariance` | common/kalman_filter/src/time_delay_kalman_filter.cpp:50-78 | after a prediction the variance of any combination is that before the transition plus the noise of its newest block |
| `KalmanFilter.BlockDiagEntry` | common/kalman_filter/src/time_delay_kalman_filter.cpp:31-34 | the initial covariance repeats that of the initial state in every block and is zero across blocks |
| `KalmanFilter.TimeDelayKalmanFilter.Init` | common/kalman_filter/src/time_delay_kalman_filter.cpp:21-35 | the block loop builds the repeated state and the block diagonal covariance |
| `KalmanFilter.TimeDelayKalmanFilter.PredictWithDelay` | common/kalman_filter/src/time_delay_kalman_filter.cpp:47-81 | moving blocks performs the extended prediction step and keeps the shape |
| `KalmanFilter.TimeDelayKalmanFilter.UpdateWithDelay` | common/kalman_filter/src/time_delay_kalman_filter.cpp:83-104 | the delayed update is the extended one; it is refused exactly outside the delay window, for a badly shaped R or an innovation without inverse |
| `KalmanFilter.TimeDelayKalmanFilter.Predict` | common/kalman_filter/src/kalman_filter.cpp:93-104 | the guards, the new state and covariance, and positive semidefiniteness; nothing changes when it is refused |
| `KalmanFilter.BaseKeepsShapeIff` | common/kalman_filter/src/kalman_filter.cpp:93-104 | sizes keep matching exactly for a square A, which is not checked |
| `KalmanFilter.TallExample` | common/kalman_filter/src/kalman_filter.cpp:93-104 | a filter with one state accepts a matrix with two rows, and its covariance grows |
| `KalmanFilter.BasePredictedVariance` | common/kalman_filter/src/kalman_filter.cpp:93-104 | the inherited prediction has the given state, and the variance before the transition plus the noise |
| `KalmanFilter.TimeDelayKalmanFilter.Update` | common/kalman_filter/src/kalman_filter.cpp:125-154 | the guards and both fields after an update; nothing changes when it is refused |
| `MpcPrediction.PredictionMatrices` | control/mpc_lateral_controller/src/mpc.cpp:542-588 | the nested loops write the stacked blocks: powers of Ad, carried input blocks, accumulated disturbances |
| `MpcPrediction.PredictionIsSimulation` | control/mpc_lateral_controller/src/mpc.cpp:98 | row block i of Aex x0 + Bex U + Wex is the state after simulating the first i + 1 steps |
| `MpcPrediction.SimulationSteps` | control/mpc_lateral_controller/src/mpc.cpp:542-588 | the simulation it is compared with: x0, then Ad x + Bd u + Wd with the inputs of each step |
| `MpcPrediction.BRowCausal` | control/mpc_lateral_controller/src/mpc.cpp:578-587 | Bex has zero blocks for inputs that come later |
| `MpcCost.LateralJerk` | control/mpc_lateral_controller/src/mpc.cpp:601-608 | u' R2ex u is the sum of weighted squared differences of neighbouring inputs, and R2ex is symmetric |
| `MpcCost.AddSteerWeightR` | control/mpc_lateral_controller/src/mpc.cpp:697-741 | the overlapping 2x2 and 3x3 additions and first-step entries add the sum of squared steering rates and accelerations, keeping symmetry |
| `MpcCost.WeightsOfStep` | control/mpc_lateral_controller/src/mpc.cpp:553-567 | the last step has the terminal weights, every other its own; the square of the speed adds to heading and input |
| `MpcCost.WeightsAreDerivatives` | control/mpc_lateral_controller/src/mpc.cpp:600-607 | differences of inputs are weighted as steering rate, lateral jerk and steering acceleration |
| `MpcProgram.StageWeights` | control/mpc_lateral_controller/src/mpc.cpp:554-598 | the loop places output, tracking and input weights on block diagonals and the thresholded feed-forward input |
| `MpcProgram.ReferenceThreshold` | control/mpc_lateral_controller/src/mpc.cpp:592-598 | the reference is the feed-forward input of each step, except that a first entry smaller than the threshold is dropped |
| `MpcProgram.GenerateMPCMatrix` | control/mpc_lateral_controller/src/mpc.cpp:506-613 | all matrices of the horizon together |
| `MpcProgram.InputWeightIsSumOfSquares` | control/mpc_lateral_controller/src/mpc.cpp:590-610 | u' (R1ex + R2ex) u equals the explicit cost of an input sequence and is nonnegative for nonnegative weights |
| `MpcProgram.MatrixCostIsTotalCost` | control/mpc_lateral_controller/src/mpc.cpp:618-620 | the matrix cost is the tracking cost along the simulated trajectory plus the input, steering and jerk costs |
| `MpcProgram.QuadraticProgram` | control/mpc_lateral_controller/src/mpc.cpp:650-662 | H and f as built, with the lower triangle mirrored from the upper one |
| `MpcProgram.ObjectiveIsCost` | control/mpc_lateral_controller/src/mpc.cpp:650-662 | the solver objective is half the cost up to a constant |
| `MpcProgram.SolverInput` | control/mpc_lateral_controller/src/mpc.cpp:633-676 | for any two input sequences the objectives differ by half the difference of their total costs, around the feed-forward input with its threshold; the program is convex for nonnegative weights |
| `MpcProgram.HessianPSD` | control/mpc_lateral_controller/src/mpc.cpp:650-656 | the matrix of the program is positive semidefinite for nonnegative weights |
| `MpcProgram.NoDescentIsOptimal` | control/mpc_lateral_controller/src/mpc.cpp:633-676 | inputs from which no admissible direction descends are optimal |
| `MpcProgram.RateLimitedIs` | control/mpc_lateral_controller/src/mpc.cpp:668-676 | the steering rate limit: the first command near the previous raw one, later ones near their predecessor |
| `MpcProgram.RateConstraints` | control/mpc_lateral_controller/src/mpc.cpp:664-674 | lbA <= A U <= ubA holds exactly when the steering rate limit does |
| `PolygonEdges.CalculateSortedEdges` | common/grid_map_utils/src/polygon_iterator.cpp:28-43 | the loop collects every non-horizontal side once and orders the edges by decreasing first vertex |
| `PolygonEdges.LineIntersections` | common/grid_map_utils/src/polygon_iterator.cpp:57-70 | the scan with its early exit finds every intersection of the line |
| `PolygonEdges.ClosedPolygonLine` | common/grid_map_utils/src/polygon_iterator.cpp:54-71 | on any line a closed polygon has an odd number of intersections exactly when an odd number of sides end on it from above, so an even number when it touches no vertex; those above a point are the sides crossed by a ray from it and the sides ending above it |
| `PolygonEdges.HitsAreCrossings` | common/grid_map_utils/src/polygon_iterator.cpp:54-70 | the same for an open chain: the parity also tells whether its two ends are on different sides |
| `PolygonEdges.MiddleVertexCountsTwice` | common/grid_map_utils/src/polygon_iterator.cpp:58-66 | a vertex between a higher and a lower neighbour is counted twice, whatever the comment says |
| `ScanLines.ClipToMap` | common/grid_map_utils/src/polygon_iterator.cpp:72-85 | the two erasing loops and the lower bound compute the clipped list |
| `ScanLines.ClippedIsTrimmed` | common/grid_map_utils/src/polygon_iterator.cpp:72-85 | what is left consists of spans that start above the last column and end below the first |
| `ScanLines.LineColumns` | common/grid_map_utils/src/polygon_iterator.cpp:72-85 | columns of any line are given by parity above the centre, with exactly two exceptions: a first-column centre on an intersection, and what follows the last intersection on the map when that has no partner |
| `ScanLines.ColumnsIncrease` | common/grid_map_utils/src/polygon_iterator.cpp:170-183 | the columns of a line come in strictly increasing order |
| `ScanLines.FromColumnIsBelow` | common/grid_map_utils/src/polygon_iterator.cpp:172-174 | the truncated and clamped first column is the first centre below the intersection |
| `ScanLines.ToColumnIsAbove` | common/grid_map_utils/src/polygon_iterator.cpp:176-178 | the truncated and clamped last column is the last centre not below the intersection |
| `ScanLines.CalculateRowRange` | common/grid_map_utils/src/polygon_iterator.cpp:91-109 | the search for the lowest vertex and both clamped rows |
| `ScanLines.RowRangeCovers` | common/grid_map_utils/src/polygon_iterator.cpp:100-108 | every map row whose line is in [lowest, highest) vertex is scanned |
| `ScanLines.RowBelowIff` | common/grid_map_utils/src/polygon_iterator.cpp:91-109 | the first row of the range is the first whose line is below the highest vertex, or the last row of the map |
| `ScanLines.CalculateIntersectionsPerLine` | common/grid_map_utils/src/polygon_iterator.cpp:45-89 | one clipped decreasing list per scanned row |
| `PolygonIterator.ScanIsPointInPolygon` | common/grid_map_utils/include/grid_map_utils/polygon_iterator.hpp:45-51 | on a row whose line touches no vertex a cell is visited exactly when a ray from its centre crosses the polygon an odd number of times, except a first-column centre on a side |
| `PolygonIterator.FirstColumnExample` | common/grid_map_utils/src/polygon_iterator.cpp:74-78 | a square with a side through a cell centre of the first column: that cell is not visited, the same square one column further fills its cell |
| `PolygonIterator.ScanIsVisited` | common/grid_map_utils/src/polygon_iterator.cpp:71-109 | for every polygon and every row, lines through vertices included, exactly which cells are visited, in terms of the polygon |
| `PolygonIterator.EvenLine` | common/grid_map_utils/src/polygon_iterator.cpp:54-86 | on a line that an even number of sides end on from above, membership by parity, vertices included |
| `PolygonIterator.ScanIsRowMajor` | common/grid_map_utils/src/polygon_iterator.cpp:133-135 | cells are visited in strictly increasing row-major order and all lie in the map |
| `PolygonIterator.RowScannedIff` | common/grid_map_utils/src/polygon_iterator.cpp:91-109 | a row that meets the polygon is scanned if and only if its line is below the highest vertex or it is the last row of the map |
| `PolygonIterator.StoredOnce` | common/grid_map_utils/src/polygon_iterator.cpp:185-191 | different cells are stored at different wrapped indices |
| `PolygonIterator.StoredIsIndex` | common/grid_map_utils/src/polygon_iterator.cpp:185-191 | a cell has exactly one index in the buffer: its row and column after those the map starts at, less a whole turn |
| `PolygonIterator.PolygonIterator.constructor` | common/grid_map_utils/src/polygon_iterator.cpp:111-149 | a new iterator has exactly the scanned cells before it, also after an early return |
| `PolygonIterator.PolygonIterator.GoToNextLine` | common/grid_map_utils/src/polygon_iterator.cpp:161-168 | skips lines without a pair and loses no cell |
| `PolygonIterator.PolygonIterator.CalculateColumnIndexes` | common/grid_map_utils/src/polygon_iterator.cpp:170-183 | moves to the next pair that holds a centre; terminates together with the increment |
| `PolygonIterator.PolygonIterator.Increment` | common/grid_map_utils/src/polygon_iterator.cpp:193-211 | what remains afterwards is what followed the current column |
| `PolygonIterator.PolygonIterator.Next` | common/grid_map_utils/src/polygon_iterator.cpp:193-211 | drops exactly the current cell |
| `PolygonIterator.PolygonIterator.Current` | common/grid_map_utils/src/polygon_iterator.cpp:156-159 | the index in the buffer of the first remaining cell |
| `PolygonIterator.Iterate` | common/grid_map_utils/src/polygon_iterator.cpp:156-216 | a whole iteration yields the index in the buffer of every scanned cell once, in order |
| `Polynomials.Poly` | common/signal_processing/src/butterworth.cpp:145-161 | the in-place double loop computes the product of (z - r) over the roots |
| `Polynomials.PolyIsProduct` | common/signal_processing/src/butterworth.cpp:145-161 | at every point the coefficients evaluate to the product of (z - r) |
| `Polynomials.PolyPermutation` | common/signal_processing/src/butterworth.cpp:145-161 | the order of the roots does not matter |
| `Polynomials.RealCoefficients` | common/signal_processing/src/butterworth.cpp:145-161 | roots closed under conjugation give real coefficients |
| `Butterworth.AnglesMirror` | common/signal_processing/src/butterworth.cpp:106-115 | the angles lie strictly in the left half plane and mirror angles add up to a full turn |
| `Butterworth.PolesArePaired` | common/signal_processing/src/butterworth.cpp:117-144 | the analog poles are closed under conjugation, stable and on one circle |
| `Butterworth.AnalogGain` | common/signal_processing/src/butterworth.cpp:93-104 | the constant coefficient of the denominator is the radius of the pole circle to the power of the order |
| `Butterworth.AnalogGainIff` | common/signal_processing/src/butterworth.cpp:93-104 | it equals the numerator, so the gain at frequency zero is one, if and only if the radius is the cut-off frequency (or the order is zero) |
| `Butterworth.ImagesArePaired` | common/signal_processing/src/butterworth.cpp:232-240 | the bilinear map keeps conjugate pairs and puts stable poles inside the unit circle |
| `Butterworth.GainGivesImage` | common/signal_processing/src/butterworth.cpp:270-292 | with its gain the discrete transfer function at z is the analog one at (z - 1)/(z + 1) |
| `Butterworth.UnitGain` | common/signal_processing/src/butterworth.cpp:245-256 | the sums of both coefficient lists agree: gain one at frequency zero |
| `Butterworth.ButterworthFilter.SetCutOffFrequency` | common/signal_processing/src/butterworth.cpp:70-83 | frequencies at or above half the sampling frequency are rejected, others give a usable specification |
| `Butterworth.ButterworthFilter.SetOrder` | common/signal_processing/src/butterworth.cpp:55-58 | stores the order |
| `Butterworth.ButterworthFilter.ComputePhaseAngles` | common/signal_processing/src/butterworth.cpp:106-115 | all phase angles |
| `Butterworth.ButterworthFilter.ComputeContinuousTimeRoots` | common/signal_processing/src/butterworth.cpp:117-144 | the poles on the plain or the pre-warped circle |
| `Butterworth.ButterworthFilter.ComputeContinuousTimeTF` | common/signal_processing/src/butterworth.cpp:93-104 | stable paired poles, a real denominator that is their polynomial, the numerator, and gain one at frequency zero if and only if there is no pre-warping |
| `Butterworth.ButterworthFilter.ComputeDiscreteTimeTF` | common/signal_processing/src/butterworth.cpp:213-293 | real coefficients, so taking real parts loses nothing; stable poles; the transfer function is the bilinear image of the analog one |
| `Butterworth.ButterworthFilter.DividedGain` | common/signal_processing/src/butterworth.cpp:270-277 | the gain divided in the loop is the numerator over the product of (1 - s), and real |
| `FrequencyResponse.DenominatorMagnitude` | common/signal_processing/src/butterworth.cpp:106-144 | on the imaginary axis the squared magnitude of the denominator is w^2N + radius^2N, for every order |
| `FrequencyResponse.AnalogResponse` | common/signal_processing/src/butterworth.cpp:93-144 | the squared gain of the analog filter is 1 / (1 + (w / radius)^2N), the Butterworth response |
| `FrequencyResponse.WarpedPoles` | common/signal_processing/src/butterworth.cpp:126-137 | in the scale of the transformation the pre-warped poles lie on the circle whose radius is the tangent of half the cut-off angle |
| `FrequencyResponse.ImageIsLowPass` | common/signal_processing/src/butterworth.cpp:213-268 | up to half the sampling frequency the discrete filter has squared gain 1 / (1 + (tan(x / 2) / tan(c / 2))^2N) at angle x, with c the cut-off angle |
| `FrequencyResponse.HalfPowerAtCutOff` | common/signal_processing/documentation/ButterworthFilter.md:97-99 | so half of the power passes exactly at the cut-off frequency |
| `FrequencyResponse.Prepare` | common/signal_processing/documentation/ButterworthFilter.md:97-116 | setting order and frequencies and computing both transfer functions gives coefficients with that response |
| `Tridiagonal.SolveTridiagonalMatrixAlgorithm` | common/interpolation/src/spline_interpolation.cpp:44-79 | the two sweeps, with the super-diagonal entry of the previous row as written |
| `Tridiagonal.RowResidual` | common/interpolation/src/spline_interpolation.cpp:61-75 | row i is missed by (c[i] - c[i-1]) x[i+1], the first and the last row by nothing |
| `Tridiagonal.SolvesIff` | common/interpolation/src/spline_interpolation.cpp:61-75 | the result solves the system exactly when every such residual vanishes |
| `Tridiagonal.ExactForAllIff` | common/interpolation/src/spline_interpolation.cpp:61-75 | it does for every right-hand side if and only if the super-diagonal is constant |
| `Spline.PivotPositive` | common/interpolation/src/spline_interpolation.cpp:54-64 | for increasing keys every pivot is positive because -1 < p <= 0 is kept |
| `Spline.IncreasingIsSolvable` | common/interpolation/src/spline_interpolation.cpp:54-64 | increasing keys never divide by zero |
| `Spline.SplineInterpolation.CalcSplineCoefficients` | common/interpolation/src/spline_interpolation.cpp:169-217 | rejected arguments change nothing, others set the coefficients of the spline |
| `Spline.SplineInterpolation.SolveMoments` | common/interpolation/src/spline_interpolation.cpp:184-207 | the second derivatives in the knots, for two knots as for more |
| `Spline.SplineInterpolation.Interpolated` | common/interpolation/src/spline_interpolation.cpp:219-289 | the three evaluators: which arguments are rejected, when they run out of keys, and the value at every cropped query |
| `Spline.PassesThroughKnots` | common/interpolation/src/spline_interpolation.cpp:209-215 | every piece joins its two values; the second derivative is continuous and zero at both ends |
| `Spline.KnotQuery` | common/interpolation/src/spline_interpolation.cpp:219-242 | a query at a knot returns its value |
| `Spline.DerivativeJump` | common/interpolation/src/spline_interpolation.cpp:209-215 | the first derivative jumps by a sixth of the solver residual |
| `Spline.SmoothForAllIff` | common/interpolation/README.md:37-49 | the documented continuity of the first derivative holds for all values if and only if the interior spacings are equal |
| `Spline.KinkExample` | common/interpolation/src/spline_interpolation.cpp:61-64 | five unevenly spaced knots on which some values give a kink |
| `Spline.AffineIsReproduced` | common/interpolation/src/spline_interpolation.cpp:209-242 | affine data is reproduced exactly at every query for any spacing |
| `Spline.PieceExpands` | common/interpolation/src/spline_interpolation.cpp:219-289 | the three evaluators are the value and the derivatives of the same piece, around any point |
| `Akima.SplineByAkima` | common/interpolation/src/spline_interpolation.cpp:95-166 | nothing is validated: the curve at every query, for keys and queries in any order, and an error exactly without keys, with too few values or when the search runs out of keys |
| `Akima.ReachedIff` | common/interpolation/src/spline_interpolation.cpp:95-166 | with increasing keys it runs out exactly for a query beyond the last key |
| `Akima.AkimaIsSmooth` | common/interpolation/src/spline_interpolation.cpp:138-150 | the curve passes through all knots with a continuous first derivative for any spacing |
| `Akima.SearchGoesForward` | common/interpolation/src/spline_interpolation.cpp:152-165 | for queries in any order the search never goes back, and goes only as far as a query demands |
| `Akima.AkimaEnds` | common/interpolation/src/spline_interpolation.cpp:138-150 | every piece joins the values and the slopes of its two knots |
| `Akima.BlendedBalances` | common/interpolation/src/spline_interpolation.cpp:122-134 | in an inner knot the slope divides the difference of its neighbours in the ratio in which the slopes change beyond them |
| `Akima.EndSlopes` | common/interpolation/src/spline_interpolation.cpp:108-120 | the slopes in the first and last two knots |
| `Akima.SortedQueries` | common/interpolation/src/spline_interpolation.cpp:152-165 | for queries in order the search is in the piece the query belongs to |
| `InterpolationUtils.ValidateKeys` | common/interpolation/include/interpolation/interpolation_utils.hpp:55-89 | which inputs are rejected, and that only the first and the last query are cropped |
| `InterpolationUtils.AcceptedIff` | common/interpolation/include/interpolation/interpolation_utils.hpp:55-80 | exactly what is accepted |
| `InterpolationUtils.CroppedIs` | common/interpolation/include/interpolation/interpolation_utils.hpp:82-88 | where each query is moved, and none by more than a thousandth |
| `InterpolationUtils.ValidateKeysAndValues` | common/interpolation/include/interpolation/interpolation_utils.hpp:91-111 | sizes of at least two that agree |
| `InterpolationUtils.Advance` | common/interpolation/src/linear_interpolation.cpp:36-38 | the search finds the piece of the query and runs out exactly beyond the last key |
| `InterpolationUtils.CroppedRunsOut` | common/interpolation/include/interpolation/interpolation_utils.hpp:84-88 | after cropping a query is beyond the keys exactly when one other than the last was |
| `InterpolationUtils.CroppingExample` | common/interpolation/include/interpolation/interpolation_utils.hpp:84-88 | two equal queries just beyond the last key are accepted and run out of keys |
| `LinearInterpolation.VectorLerp` | common/interpolation/src/linear_interpolation.cpp:26-52 | the errors in their order, and the piecewise linear value at every cropped query |
| `LinearInterpolation.LerpHitsKnots` | common/interpolation/src/linear_interpolation.cpp:40-46 | at a knot the value of the knot |
| `LinearInterpolation.IsValidInput` | control/mpc_lateral_controller/src/interpolate.cpp:39-73 | exactly the accepted inputs, repeated keys among them |
| `LinearInterpolation.ValidIff` | control/mpc_lateral_controller/src/interpolate.cpp:29-64 | all queries lie within keys that do not decrease |
| `LinearInterpolation.LinearInterpolate` | control/mpc_lateral_controller/src/interpolate.cpp:76-118 | appends one value per query to what was there: the skipping branch is never taken and the divisor is never zero |
| `LinearInterpolation.InterpolatedBetween` | control/mpc_lateral_controller/src/interpolate.cpp:66-117 | with repeated keys too, the value lies on the line between two different neighbours |
| `LinearInterpolation.InterpolateOne` | control/mpc_lateral_controller/src/interpolate.cpp:120-133 | the scalar form gives the same value |
| `LinearInterpolation.InterpolatorsAgree` | control/mpc_lateral_controller/src/interpolate.cpp:107-116 | on increasing keys both interpolators agree at every query in range |
| `Compatibility.Compatibility.ReadMode` | control/operation_mode_transition_manager/src/compatibility.cpp:55-74 | the mode read back from the three reports |
| `Compatibility.Compatibility.SetMode` | control/operation_mode_transition_manager/src/compatibility.cpp:76-141 | what is sent and whether a selector call becomes outstanding |
| `Compatibility.Compatibility.OnAutowareEngage` | control/operation_mode_transition_manager/src/compatibility.cpp:40-43 | stores the report |
| `Compatibility.Compatibility.OnGateMode` | control/operation_mode_transition_manager/src/compatibility.cpp:45-48 | stores the report |
| `Compatibility.Compatibility.OnSelectorMode` | control/operation_mode_transition_manager/src/compatibility.cpp:50-53 | stores the report |
| `Compatibility.Compatibility.OnSelectorResponse` | control/operation_mode_transition_manager/src/compatibility.cpp:119-121 | the call is no longer outstanding |
| `Compatibility.ModeTable` | control/operation_mode_transition_manager/src/compatibility.cpp:55-74 | which reports give which mode, in both directions |
| `Compatibility.TargetTable` | control/operation_mode_transition_manager/src/compatibility.cpp:84-108 | the targets of every mode |
| `Compatibility.SentBySet` | control/operation_mode_transition_manager/src/compatibility.cpp:112-141 | what one call sends, message by message |
| `Compatibility.EngageOnlyWithGate` | control/operation_mode_transition_manager/src/compatibility.cpp:125-140 | engage is never sent while the gate is in another mode |
| `Compatibility.QuietMeansReached` | control/operation_mode_transition_manager/src/compatibility.cpp:76-141 | with no call outstanding nothing is left to send exactly when all targets are reached, and then the mode read back is the one set |
| `Compatibility.TwoRoundsReach` | control/operation_mode_transition_manager/src/compatibility.cpp:55-141 | two calls with echoes reach any mode from any known state |
| `Compatibility.OneRoundMayNotReach` | control/operation_mode_transition_manager/src/compatibility.cpp:125-140 | one is not always enough |
| `OperationMode.TickSyncsIff` | control/operation_mode_transition_manager/src/node.cpp:215-251 | after a tick the modes agree, are unknown or are being told, if and only if the tick does not cancel an engage transition inside an open window with differing modes |
| `OperationMode.SyncCanDrop` | control/operation_mode_transition_manager/src/node.cpp:161-172 | a run in which the vehicle rejects a control request it was sent, and the tick after it ends out of sync |
| `OperationMode.NextTickHeals` | control/operation_mode_transition_manager/src/node.cpp:232-237 | the next tick with a closed window agrees again |
| `OperationMode.DropClosesWindow` | control/operation_mode_transition_manager/src/node.cpp:161-172 | such a tick closes the window and asks for manual control |
| `OperationMode.SurvivingTransition` | control/operation_mode_transition_manager/src/node.cpp:174-195 | a transition that survives a tick is young, has not failed and is marked engaged exactly under autonomous control |
| `OperationMode.EngagesOnlyWhenReady` | control/operation_mode_transition_manager/src/node.cpp:197-212 | when autonomous control is requested, and that it is no longer pending then |
| `OperationMode.RequestOutcome` | control/operation_mode_transition_manager/src/node.cpp:124-159 | a rejected request changes nothing; the exact condition of acceptance |
| `OperationModeRules.TransitionEndsIff` | control/operation_mode_transition_manager/src/node.cpp:174-213 | a transition ends exactly when it timed out, failed or was overridden, or when a change under autonomous control is reported complete after the older nodes have followed |
| `OperationModeRules.CompletedStays` | control/operation_mode_transition_manager/src/node.cpp:203-206 | a completed change is not undone by later ticks |
| `OperationModeRules.TickEffect` | control/operation_mode_transition_manager/src/node.cpp:215-251 | the mode, the window, the stored reports and the messages after any tick |
| `OperationModeRules.RequestedIff` | control/operation_mode_transition_manager/src/node.cpp:161-213 | exactly when manual and when autonomous control is requested |
| `OperationModeRules.TransitionAfterTick` | control/operation_mode_transition_manager/src/node.cpp:189-212 | what remains of a transition |
| `OperationModeRules.ResponseIs` | control/operation_mode_transition_manager/src/node.cpp:124-159 | the answers, tried in this order |
| `OperationModeRules.AcceptedChange` | control/operation_mode_transition_manager/src/node.cpp:145-159 | an accepted request takes its mode, tells it, and starts an engagement or a transition that can go back |
| `OperationModeRules.DisablingAsksManual` | control/operation_mode_transition_manager/src/node.cpp:86-91 | giving up control ends the transition, stops telling the older nodes and asks for manual control |
| `OperationModeRules.EngagementIsRequested` | control/operation_mode_transition_manager/src/node.cpp:79-213 | asking for control leads to the request for it once the older nodes are in the mode and the gate is in transition |
| `OperationModeRules.RejectionAsksManual` | control/operation_mode_transition_manager/src/node.cpp:107-185 | a rejected engagement is undone by the next tick, which asks for manual control |
| `OperationModeRules.ReportsAreStored` | control/operation_mode_transition_manager/src/node.cpp:25-31 | reports and answers change what they are about and nothing else |
| `OperationModeRuns.TimeoutRestores` | control/operation_mode_transition_manager/src/node.cpp:145-180 | a change of mode under autonomous control that is neither completed nor replaced until it times out is undone and told, whatever happened in between |
| `OperationModeRuns.RunKeepsTransition` | control/operation_mode_transition_manager/src/node.cpp:124-213 | only an accepted request to stop under autonomous control replaces a transition that does not end |
| `OperationModeRuns.AcceptedRequestReaches` | control/operation_mode_transition_manager/src/node.cpp:215-251 | after an accepted request and three or more ticks in time, each answered by the older nodes, the window is closed and both sides are in the requested mode |
| `OperationModeRuns.NewTransitionLasts` | control/operation_mode_transition_manager/src/node.cpp:145-180 | the transition it starts is not cancelled before its timeout |
| `OperationMode.PendingInEveryRun` | control/operation_mode_transition_manager/src/data.hpp:42-57 | in every run a pending engagement has no mode to return to |
| `OperationMode.OneRequestPerEngagement` | control/operation_mode_transition_manager/src/node.cpp:145-213 | in every run autonomous control is requested at most once per engage transition |
| `OperationMode.OneOutstandingCall` | control/operation_mode_transition_manager/src/compatibility.cpp:112-123 | in every run all selector calls but at most one have been answered |
| `OperationMode.InitialTimeout` | control/operation_mode_transition_manager/src/node.cpp:57-69 | the timeout is at least the stable duration and a margin |
| `OperationMode.OperationModeTransitionManager.constructor` | control/operation_mode_transition_manager/src/node.cpp:54-69 | the initial state |
| `OperationMode.OperationModeTransitionManager.OnControlModeReport` | control/operation_mode_transition_manager/src/node.cpp:25-27 | stores the report |
| `OperationMode.OperationModeTransitionManager.OnGateOperationMode` | control/operation_mode_transition_manager/src/node.cpp:29-31 | stores the report |
| `OperationMode.OperationModeTransitionManager.ChangeControlMode` | control/operation_mode_transition_manager/src/node.cpp:107-122 | sends the request |
| `OperationMode.OperationModeTransitionManager.OnChangeAutowareControl` | control/operation_mode_transition_manager/src/node.cpp:79-93 | performs the step of the transition system |
| `OperationMode.OperationModeTransitionManager.OnChangeOperationMode` | control/operation_mode_transition_manager/src/node.cpp:95-105 | performs the step; an unknown mode is rejected |
| `OperationMode.OperationModeTransitionManager.ChangeOperationModeTo` | control/operation_mode_transition_manager/src/node.cpp:124-159 | the order of the rejections and the new transition |
| `OperationMode.OperationModeTransitionManager.OnControlModeResponse` | control/operation_mode_transition_manager/src/node.cpp:109-116 | a rejected control request marks the transition failed |
| `OperationMode.OperationModeTransitionManager.CancelTransition` | control/operation_mode_transition_manager/src/node.cpp:161-172 | back to the previous mode, or to manual control |
| `OperationMode.OperationModeTransitionManager.ProcessTransition` | control/operation_mode_transition_manager/src/node.cpp:174-213 | timeout, failure, override, reflection and completion in their order |
| `OperationMode.OperationModeTransitionManager.OnTimer` | control/operation_mode_transition_manager/src/node.cpp:215-251 | performs the tick of the transition system |
| `VehicleCmdFilter.FilterLimits` | control/vehicle_cmd_gate/src/vehicle_cmd_filter.cpp:27-48 | the sequential clamps leave speed and acceleration in their limits, each within reach of the previous output, and the steering near the actual one |
| `VehicleCmdFilter.FilterIsTransparent` | control/vehicle_cmd_gate/src/vehicle_cmd_filter.cpp:27-48 | a command within the limits keeps its speed and acceleration |
| `VehicleCmdFilter.ZeroSpeedBrakes` | control/vehicle_cmd_gate/src/vehicle_cmd_filter.cpp:33-41 | towards zero the speed falls by the limit and never overshoots |
| `VehicleCmdFilter.RunStaysInLimits` | control/vehicle_cmd_gate/src/vehicle_cmd_filter.cpp:86-96 | limits and bounded changes hold over whole runs of the filter |
| `VehicleCmdFilter.StopRun` | control/vehicle_cmd_gate/src/vehicle_cmd_filter.cpp:33-41 | after n zero-speed commands the speed is the initial one less the limit times the total time, never below zero |
| `VehicleCmdFilter.LatAccIsBounded` | control/vehicle_cmd_gate/src/vehicle_cmd_filter.cpp:50-60 | the lateral acceleration limiter bounds the lateral acceleration at any speed |
| `VehicleCmdFilter.FilteredLatAcc` | control/vehicle_cmd_gate/src/vehicle_cmd_filter.cpp:86-96 | the whole filter keeps that bound when the actual-steering limiter has nothing to clamp |
| `VehicleCmdFilter.LatAccFollowsActual` | control/vehicle_cmd_gate/src/vehicle_cmd_filter.cpp:78-96 | clamped or not, the output exceeds the limit only as far as the actual steering does at the same speed |
| `VehicleCmdFilter.LatJerkBoundedIff` | control/vehicle_cmd_gate/src/vehicle_cmd_filter.cpp:62-76 | at any speed the lateral jerk limiter bounds the change of lateral acceleration if and only if its target, shrunk by the ratio of the squared speed to the one used, is still in the window |
| `VehicleCmdFilter.LatJerkIsBounded` | control/vehicle_cmd_gate/src/vehicle_cmd_filter.cpp:62-76 | it does whenever the squared speed is at least 0.001 |
| `VehicleCmdFilter.LatJerkAtStandstill` | control/vehicle_cmd_gate/src/vehicle_cmd_filter.cpp:62-76 | at a standstill it does exactly when the previous lateral acceleration is within reach of zero |
| `VehicleCmdFilter.SlowExample` | control/vehicle_cmd_gate/src/vehicle_cmd_filter.cpp:98-102 | a vehicle creeping after a curve, for which the bound is broken |
| `VehicleCmdFilter.VehicleCmdFilter.FilterCommand` | control/vehicle_cmd_gate/src/vehicle_cmd_filter.cpp:86-96 | the six limiters in order |
| `VehicleCmdFilter.VehicleCmdFilter.LimitLongitudinalWithVel` | control/vehicle_cmd_gate/src/vehicle_cmd_filter.cpp:27-31 | the speed becomes the nearest one in the limits |
| `VehicleCmdFilter.VehicleCmdFilter.LimitLongitudinalWithAcc` | control/vehicle_cmd_gate/src/vehicle_cmd_filter.cpp:33-41 | the acceleration becomes the nearest one in the limits, the speed the nearest one in reach of the previous speed |
| `VehicleCmdFilter.VehicleCmdFilter.LimitLongitudinalWithJerk` | control/vehicle_cmd_gate/src/vehicle_cmd_filter.cpp:43-48 | the acceleration becomes the nearest one in reach of the previous acceleration |
| `VehicleCmdFilter.VehicleCmdFilter.LimitLateralWithLatAcc` | control/vehicle_cmd_gate/src/vehicle_cmd_filter.cpp:50-60 | steering changes only to keep the lateral acceleration in its limits, which it then is at any speed; of a moving vehicle it becomes the nearest allowed one |
| `VehicleCmdFilter.VehicleCmdFilter.LimitLateralWithLatJerk` | control/vehicle_cmd_gate/src/vehicle_cmd_filter.cpp:62-76 | steering changes only when the lateral acceleration leaves the reach of the previous one; of a moving vehicle it becomes the nearest one in reach |
| `VehicleCmdFilter.VehicleCmdFilter.LimitActualSteerDiff` | control/vehicle_cmd_gate/src/vehicle_cmd_filter.cpp:78-84 | the steering becomes the nearest one in reach of the actual steering |
| `VehicleCmdGate.LossLatchedInEveryRun` | control/vehicle_cmd_gate/src/vehicle_cmd_gate.cpp:302-313 | in every reachable state a lost external heartbeat implies the stop latch |
| `VehicleCmdGate.LatchedStep` | control/vehicle_cmd_gate/src/vehicle_cmd_gate.cpp:372-381 | while latched every event publishes only emergency stops; the latch is left only by a clear, which fails while the heartbeat is lost |
| `VehicleCmdGate.StopsUntilCleared` | control/vehicle_cmd_gate/src/vehicle_cmd_gate.cpp:278-322 | from latching to the next successful clear, over any interleaving, only emergency stops are published |
| `VehicleCmdGate.SystemLossPublishesStops` | control/vehicle_cmd_gate/src/vehicle_cmd_gate.cpp:287-300 | once a tick has seen the loss of the system heartbeat, only emergency stops are published until a tick finds it again, over any interleaving |
| `VehicleCmdGate.SilenceIsLoss` | control/vehicle_cmd_gate/src/vehicle_cmd_gate.cpp:212-226 | without a message from the emergency handler no later tick finds it again |
| `VehicleCmdGateRules.SystemLossSeen` | control/vehicle_cmd_gate/src/vehicle_cmd_gate.cpp:287-300 | a tick notices exactly whether the system heartbeat is older than a timeout that is set, and publishes the stop if it is |
| `VehicleCmdGateRules.SystemLossStops` | control/vehicle_cmd_gate/src/vehicle_cmd_gate.cpp:287-300 | from that tick on only emergency stops are published as long as the emergency handler is silent |
| `VehicleCmdGateRules.TickWaits` | control/vehicle_cmd_gate/src/vehicle_cmd_gate.cpp:278-285 | until every heartbeat in use has been received a tick does nothing |
| `VehicleCmdGateRules.LatchedTick` | control/vehicle_cmd_gate/src/vehicle_cmd_gate.cpp:313-322 | a tick with the stop latched publishes it, with the last filtered steering |
| `VehicleCmdGateRules.TickAuxiliary` | control/vehicle_cmd_gate/src/vehicle_cmd_gate.cpp:324-370 | a tick that finds nothing lost or latched publishes the auxiliary commands of the source in use, except for the first one after a gate mode message |
| `VehicleCmdGateRules.AuxiliariesAreStored` | control/vehicle_cmd_gate/src/vehicle_cmd_gate.cpp:98-136 | auxiliary messages change those of their source and nothing else, and publish nothing |
| `VehicleCmdGateRules.HeartbeatsAreStored` | control/vehicle_cmd_gate/src/vehicle_cmd_gate.cpp:559-596 | so do heartbeats |
| `VehicleCmdGateRules.SwitchesAreStored` | control/vehicle_cmd_gate/src/vehicle_cmd_gate.cpp:565-587 | so do gate mode, engagement, pause and operation mode |
| `VehicleCmdGateRules.ReportsAreStored` | control/vehicle_cmd_gate/src/vehicle_cmd_gate.cpp:83-92 | so do steering and gear reports and a requested stop |
| `VehicleCmdGateRules.SelectedIs` | control/vehicle_cmd_gate/src/vehicle_cmd_gate.cpp:390-415 | which command is filtered: the emergency or the given source when engaged, standing still otherwise, no speed when paused |
| `VehicleCmdGateRules.PublishesIff` | control/vehicle_cmd_gate/src/vehicle_cmd_gate.cpp:372-387 | exactly when a command is passed on |
| `VehicleCmdGateRules.PublishedIs` | control/vehicle_cmd_gate/src/vehicle_cmd_gate.cpp:417-431 | what is published, and what the next command is compared with |
| `VehicleCmdGateRules.CommandIsStored` | control/vehicle_cmd_gate/src/vehicle_cmd_gate.cpp:248-276 | a command is stored, and published only from the source in use |
| `VehicleCmdGateRules.CommandIsUsed` | control/vehicle_cmd_gate/src/vehicle_cmd_gate.cpp:248-276 | a command from the source in use is the one published |
| `VehicleCmdGateRules.KeptCommandPasses` | control/vehicle_cmd_gate/src/vehicle_cmd_gate.cpp:390-431 | an engaged gate that is not paused publishes a command that keeps the limits with its own speed and acceleration |
| `VehicleCmdGate.LossLatches` | control/vehicle_cmd_gate/src/vehicle_cmd_gate.cpp:302-322 | a tick that finds the external heartbeat too old latches and publishes the stop at once |
| `VehicleCmdGate.GateRunStaysLimited` | control/vehicle_cmd_gate/src/vehicle_cmd_gate.cpp:494-527 | over any run with one parameter set every command is an emergency stop or limited against the previous filtered one |
| `VehicleCmdGate.InitialWithinLimits` | control/vehicle_cmd_gate/src/vehicle_cmd_gate.cpp:494-527 | the initial state satisfies the condition of such runs |
| `VehicleCmdGate.PausedOrDisengagedBrakes` | control/vehicle_cmd_gate/src/vehicle_cmd_gate.cpp:404-415 | while paused or not engaged a published command brakes towards zero at the limit, and without one nothing changes |
| `VehicleCmdGate.HaltedRunBrakes` | control/vehicle_cmd_gate/src/vehicle_cmd_gate.cpp:404-415 | over any interleaving of events with one parameter set that finds the gate paused or not engaged, the speed is the initial one less the limit times the time between commands, never below zero |
| `VehicleCmdGate.HaltedRunStops` | control/vehicle_cmd_gate/src/vehicle_cmd_gate.cpp:404-415 | so it is zero if and only if the limit times that time has reached the initial speed |
| `VehicleCmdGate.StaysHalted` | control/vehicle_cmd_gate/src/vehicle_cmd_gate.cpp:404-415 | a paused gate that is not resumed, and one that is not engaged, is found so by every event of a run |
| `VehicleCmdGate.VehicleCmdGate.OnTimer` | control/vehicle_cmd_gate/src/vehicle_cmd_gate.cpp:278-370 | performs the tick: readiness, both heartbeats, latch, gate change, selection |
| `VehicleCmdGate.VehicleCmdGate.PublishControlCommands` | control/vehicle_cmd_gate/src/vehicle_cmd_gate.cpp:372-431 | nothing is published in the three blocked cases, otherwise the filtered selection |
| `VehicleCmdGate.VehicleCmdGate.FilterControlCommand` | control/vehicle_cmd_gate/src/vehicle_cmd_gate.cpp:494-527 | the filter in use is applied and both remember the result, in manual mode with the actual steering |
| `VehicleCmdGate.VehicleCmdGate.PublishEmergencyStopControlCommands` | control/vehicle_cmd_gate/src/vehicle_cmd_gate.cpp:433-471 | the stop command with the last filtered steering and hazard lights |
| `VehicleCmdGate.VehicleCmdGate.SelectAuxiliary` | control/vehicle_cmd_gate/src/vehicle_cmd_gate.cpp:333-364 | the auxiliary commands, or the exception on an unsupported mode |
| `VehicleCmdGate.VehicleCmdGate.OnAutoCtrlCmd` | control/vehicle_cmd_gate/src/vehicle_cmd_gate.cpp:249-256 | performs the step |
| `VehicleCmdGate.VehicleCmdGate.OnRemoteCtrlCmd` | control/vehicle_cmd_gate/src/vehicle_cmd_gate.cpp:259-266 | performs the step |
| `VehicleCmdGate.VehicleCmdGate.OnEmergencyCtrlCmd` | control/vehicle_cmd_gate/src/vehicle_cmd_gate.cpp:269-276 | performs the step |
| `VehicleCmdGate.VehicleCmdGate.IsHeartbeatTimeout` | control/vehicle_cmd_gate/src/vehicle_cmd_gate.cpp:212-226 | never for a zero timeout, otherwise missing or too old |
| `VehicleCmdGate.VehicleCmdGate.IsDataReady` | control/vehicle_cmd_gate/src/vehicle_cmd_gate.cpp:228-246 | every heartbeat in use has been received |
| `VehicleCmdGate.VehicleCmdGate.SelectControl` | control/vehicle_cmd_gate/src/vehicle_cmd_gate.cpp:389-415 | emergency, disengagement and pause in their order |
| `VehicleCmdGate.VehicleCmdGate.GetDt` | control/vehicle_cmd_gate/src/vehicle_cmd_gate.cpp:598-610 | zero for the first command, then the time since the last |
| `VehicleCmdGate.VehicleCmdGate.OnMrmState` | control/vehicle_cmd_gate/src/vehicle_cmd_gate.cpp:589-596 | an emergency is an emergency stop that is operating or over; the heartbeat is stored |
| `VehicleCmdGate.VehicleCmdGate.OnExternalEmergencyStopHeartbeat` | control/vehicle_cmd_gate/src/vehicle_cmd_gate.cpp:559-563 | stores the time of the heartbeat |
| `VehicleCmdGate.VehicleCmdGate.OnGateMode` | control/vehicle_cmd_gate/src/vehicle_cmd_gate.cpp:565-575 | stores the mode and that it was set |
| `VehicleCmdGate.VehicleCmdGate.OnEngage` | control/vehicle_cmd_gate/src/vehicle_cmd_gate.cpp:577-587 | stores the message |
| `VehicleCmdGate.VehicleCmdGate.OnPause` | control/vehicle_cmd_gate/src/pause_interface.cpp:61-66 | stores the request |
| `VehicleCmdGate.VehicleCmdGate.OnOperationMode` | control/vehicle_cmd_gate/src/vehicle_cmd_gate.cpp:86-88 | stores the mode and the transition |
| `VehicleCmdGate.VehicleCmdGate.OnSteering` | control/vehicle_cmd_gate/src/vehicle_cmd_gate.cpp:83-85 | stores the angle |
| `VehicleCmdGate.VehicleCmdGate.OnGearStatus` | control/vehicle_cmd_gate/src/vehicle_cmd_gate.cpp:91-92 | stores the report |
| `VehicleCmdGate.VehicleCmdGate.OnAutoAuxiliary` | control/vehicle_cmd_gate/src/vehicle_cmd_gate.cpp:98-108 | stores the auxiliary commands and keeps the control command |
| `VehicleCmdGate.VehicleCmdGate.OnRemoteAuxiliary` | control/vehicle_cmd_gate/src/vehicle_cmd_gate.cpp:114-124 | stores the auxiliary commands and keeps the control command |
| `VehicleCmdGate.VehicleCmdGate.OnEmergencyAuxiliary` | control/vehicle_cmd_gate/src/vehicle_cmd_gate.cpp:130-136 | stores hazard lights and gear and keeps the rest |
| `VehicleCmdGate.VehicleCmdGate.OnSetExternalEmergencyStopService` | control/vehicle_cmd_gate/src/vehicle_cmd_gate.cpp:642-651 | latches the stop and always succeeds |
| `VehicleCmdGate.VehicleCmdGate.OnClearExternalEmergencyStopService` | control/vehicle_cmd_gate/src/vehicle_cmd_gate.cpp:653-672 | succeeds exactly when latched without a lost heartbeat, and then unlatches |
| `VehicleCmdGate.VehicleCmdGate.OnExternalEmergencyStopService` | control/vehicle_cmd_gate/src/vehicle_cmd_gate.cpp:623-640 | delegates to set or clear |
| `CscMatrix.CalCscMatrix` | common/osqp_interface/src/csc_matrix_conv.cpp:30-69 | the arrays hold every column: rising rows, kept values, offsets |
| `CscMatrix.CalCscMatrixTrapezoidal` | common/osqp_interface/src/csc_matrix_conv.cpp:71-116 | the same down to the diagonal; a matrix that is not square is rejected |
| `CscMatrix.RoundTrip` | common/osqp_interface/src/csc_matrix_conv.cpp:30-69 | decoding gives the matrix with small entries zeroed |
| `CscMatrix.KeptIs` | common/osqp_interface/src/csc_matrix_conv.cpp:49-53 | what the threshold keeps |
| `CscMatrix.NothingSmallStored` | common/osqp_interface/src/csc_matrix_conv.cpp:49-60 | no value below the threshold is stored, and rows strictly rise in a column |
| `CscMatrix.DecodeIsThresholded` | common/osqp_interface/src/csc_matrix_conv.cpp:46-66 | offsets rise from zero to the number of values, rows strictly rise in each column, entries decode to the thresholded matrix or its upper triangle |
| `CscMatrix.TriangleKeepsQuadraticForm` | common/osqp_interface/src/csc_matrix_conv.cpp:92-113 | mirroring the decoded triangle of a symmetric matrix keeps x' P x |
| `SmoothStop.FitIsLeastSquares` | control/pid_longitudinal_controller/src/smooth_stop.cpp:93-97 | the computed line has the smallest sum of squares of all lines |
| `SmoothStop.DenominatorNotPositive` | control/pid_longitudinal_controller/src/smooth_stop.cpp:86-91 | the denominator of the slope is never positive (Cauchy-Schwarz) |
| `SmoothStop.PredictionIsRoot` | control/pid_longitudinal_controller/src/smooth_stop.cpp:104-114 | a predicted time is positive and a zero of the best fitting line |
| `SmoothStop.PredictedIff` | control/pid_longitudinal_controller/src/smooth_stop.cpp:68-114 | a time is predicted exactly when the samples spread in time, the line is not level, and it reaches zero in the future |
| `SmoothStop.StrongAccStops` | control/pid_longitudinal_controller/src/smooth_stop.cpp:31-38 | the strong acceleration keeps its limits and, inside them, stops in the predicted distance |
| `SmoothStop.StrongAccLimits` | control/pid_longitudinal_controller/src/smooth_stop.cpp:31-38 | where a limit of the strong acceleration binds it is taken |
| `SmoothStop.SmoothStop.Init` | control/pid_longitudinal_controller/src/smooth_stop.cpp:27-39 | both fields |
| `SmoothStop.SmoothStop.SetParams` | control/pid_longitudinal_controller/src/smooth_stop.cpp:41-61 | stores the parameters |
| `SmoothStop.SmoothStop.CalcTimeToStop` | control/pid_longitudinal_controller/src/smooth_stop.cpp:63-115 | the accumulating loop computes the prediction of the history |
| `SmoothStop.SmoothStop.Calculate` | control/pid_longitudinal_controller/src/smooth_stop.cpp:117-160 | every branch, and when the time of weak braking moves |

## Left out

- Floating point: rounding, single precision casts, infinities and not-a-number, and overflow of
  conversions to int.
- Publishers, subscriptions, services, clocks, parameters, logging and diagnostics: inputs and outputs
  of the events.
- The inverse of the innovation covariance: an input that satisfies S * inverse = I, or its absence.
- Other constructors and setters of the base Kalman filter, and its predictions that compute the next
  state.
- The quadratic program solver, resampling and smoothing of the reference, delay compensation,
  steering prediction and the vehicle models, which are arbitrary matrices per step.
- Weights that depend on the curvature: arbitrary weights per step.
- `addSteerWeightF`: it returns at once for the one-row vector it is given.
- Several steering inputs per step: costs and the program are stated for one, as in every vehicle
  model; the prediction matrices for any number.
- The geometric checks of the autonomous mode: availability and completion are inputs of a tick.
- Debug output and the publication of the state of the operation mode manager and of the gate.
- The reported start request of the pause interface, which no command depends on.
- `Buttord` and the printing functions of the Butterworth filter; the order is a parameter.
- Indices of the polygon iterator wrap by remainder; the function that does it belongs to another
  library and is not part of this model. Comparison of iterators is left out.
- Sorting by the standard library is an insertion sort on the same keys; edges that tie may come in
  another order, which the sorted intersections do not show.
- CalcSplineCoefficients: keys for which a division by zero would occur, that is, equal neighbours or
  a zero pivot; the code then stores infinities. No increasing keys are among them.
- SolveMoments: the same keys.
- SolveTridiagonalMatrixAlgorithm: systems with a zero pivot, for the same reason.
- SplineByAkima: equal neighbouring keys, for the same reason, and a single key, for which the code
  reads an element of an empty vector.
- ScanIsPointInPolygon: speaks of lines that touch no vertex; `ScanIsVisited` covers all others.
- LatAccFollowsActual: is stated for angles below a quarter turn, where the tangent increases.
- GateRunStaysLimited: is stated for runs that keep one parameter set, since the two sets may have
  different speed limits.
