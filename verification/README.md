# Skylens node: a verified model of its estimators, correlators and stores

The Skylens node fuses detections of drones from several radio sensors (TAPs). This project models the
numeric estimators and the stateful parts of that pipeline in Dafny and proves what they guarantee:

- **Position filter** (`KalmanSpec`, `KalmanMatrix`, `Kalman`, `KalmanGate`, `KalmanFusion`): the 4-state
  Kalman filter. A class works in place on the 4x4 covariance with the nested loops of the source and is
  proved to refine a per-axis reference filter; about the reference, what every fix of every run does to the
  track, positive definiteness, optimality of the gains, a bound on consecutive rejections and the exact runs
  in which the filter locks up are proved.
- **Trilateration** (`Taps`, `InitialEstimate`, `LeastSquares`, `Outliers`, `Trilateration`, `Ranging`,
  `RangeDescent`, `ErrorEllipse`, `CircleIntersection`): the pulled centroid, weighted normal equations over
  any number of taps, damped iteration and its descent on the true range error, outlier rejection, the
  covariance ellipse, and the two-tap intersection with its radius repair.
- **Controller links** (`Matching`, `ControllerLink`, `LinkTable`, `LinkHistory`): scoring, exchange sort, greedy
  one-to-one assignment, reconciliation with the link table, what rounds do to the whole table, and what an
  entry says about the rounds before it.
- **Drone store** (`DroneState`, `DroneStore`, `DroneLife`): sixteen FNV-1a shards with serial and MAC indexes,
  merging, eviction and track numbers, refining one plain map, and the life of each drone told from the log.
- **Windowed statistics** (`RssiStats`, `RssiTracker`, `SuspectCorrelator`, `CalibrationWindow`,
  `CalibrationFit`, `Median`, `IdentityMemory`): each incremental summary or cached value against a
  recomputation from the full history.
- **Flow control** (`SlidingLimiter`, `FixedLimiter`, `DbPipeline`, `WsBatch`, `WsWire`): two rate limiters, the
  database worker pool as an interleaved state machine, and the two ways of an event to a WebSocket client.

`RealMath`, `Sequences` and `LimiterRuns` hold what several modules share.

## Conventions

- `float64` is `real`: rounding, NaN and overflow are not modelled. `math.Sqrt` is a parameter `sqrt` with the
  law "non-negative, and its square is the argument". The comparison constants are those of the source.
- Coordinates are local metres; latitude/longitude conversion and great-circle distance are parameters or inputs.
- Every read of the clock is a parameter. A run is in time order where the theorem says so.
- A method that holds a mutex is one atomic step. The Kalman filter's mutex is modelled explicitly, because
  one path takes it twice. The database workers are modelled action by action.
- A Go map that a loop ranges over is visited in arbitrary order (`:|`).
- Where the source updates in place, a class or array method is proved against a specification function, and
  the theorems are lemmas about that function.

## Where code and documentation disagree

The model follows the code.

- `internal/intel/kalman.go:190-194` is documented as a reset after a gap of more than 60 s. It calls `Update`
  again while holding the lock, so it never returns (`KalmanSpec.RunSticksIffLongGap`).
- `internal/intel/kalman.go:375-377` says the extrapolated uncertainty grows with the covariance. It leaves out
  the drift of the covariance (`KalmanSpec.PredictUnderstates`).
- `internal/api/server.go:60` calls the limiter a sliding window. It is a fixed window, and keeps the bound of a
  sliding window with the same limit exactly when that limit is one (`FixedLimiter.SlidingIff`).
- `internal/receiver/nats.go:1986` promises a graceful drain. The workers are cancelled before the queue is
  closed, so queued jobs can be left behind unless the queue is empty (`DbPipeline.GracefulIff`,
  `DbPipeline.JobIsLost`).
- `internal/api/server.go:1494-1496` sends loss reports at once to be early, and `internal/api/server.go:1707-1708`
  keeps only the last state of a drone. An update that is still waiting in the batch reaches the client after the
  loss report that followed it (`WsWire.LossIsOvertaken`, `WsWire.LastWordIff`).
- `internal/processor/controller_link.go:87` promises one-to-one links. A link of a controller that is no
  longer active can share its UAV with a new one (`LinkTable.TableOneToOneIff`, `LinkTable.StaleRivalExists`).
- `internal/processor/state.go:599-616` looks drones up by MAC to prevent duplicates. A merge by serial stores a
  MAC without indexing it, which can lead to two drones with one MAC (`DroneState.RunKeepsMacsIff`).
- `internal/intel/live_calibrator.go:262-263` promises the best value from live data. The value is cached at the
  last recorded point and pruning does not refit it (`CalibrationFit.CacheIsCurrentIff`).

## Model

| member | source | states |
|---|---|---|
| KalmanSpec.NoiseFloor | internal/intel/kalman.go:262-277 | Whatever the source and reported error, the measurement variance is at least 100. |
| KalmanSpec.NoiseRatios | internal/intel/kalman.go:262-277 | A GPS fix has its squared error, at least 100, as variance; the other sources have 1.5, 2.5, 4 and, when unknown, 2 times that. |
| KalmanSpec.NoiseGrows | internal/intel/kalman.go:262-277 | A larger reported error never gives a fix of the same source a smaller variance. |
| KalmanSpec.NoiseTerms | internal/intel/kalman.go:207-252 | Prediction raises the determinant of each axis block by two separate closed-form terms. |
| KalmanSpec.PredictKeepsPosDef | internal/intel/kalman.go:207-252 | Prediction keeps a block positive definite and strictly raises its variances and determinant, for every positive time step. |
| KalmanSpec.CorrectDet | internal/intel/kalman.go:304-335 | A correction multiplies the block determinant by r / (a + r). |
| KalmanSpec.CorrectShrinks | internal/intel/kalman.go:304-335 | After a correction the block is positive definite and the position variance is strictly below both the predicted and the measurement variance. |
| KalmanSpec.CorrectIsBayesian | internal/intel/kalman.go:304-335 | Precisions add, and the new position is the precision-weighted mean of prediction and fix. |
| KalmanSpec.GainIsOptimal | internal/intel/kalman.go:304-335 | No other pair of gains leaves less variance, and only these gains reach the minimum. |
| KalmanSpec.CorrectOnSegment | internal/intel/kalman.go:316-321 | The corrected position lies strictly inside the segment between prediction and fix, on both axes at the same fraction. |
| KalmanSpec.StepKeepsInv | internal/intel/kalman.go:144-348 | Every update keeps the covariance positive definite. |
| KalmanSpec.Run | internal/intel/kalman.go:144-348 | Every run of updates on a new filter ends with a positive definite covariance. |
| KalmanSpec.RunSticksIffLongGap | internal/intel/kalman.go:185-195 | A run locks up if and only if some measurement comes more than 60 s after the last one that was applied; otherwise the last applied time and positive definiteness are known. |
| KalmanSpec.TwoFixesStickIff | internal/intel/kalman.go:185-195 | Two fixes are enough: the second locks the filter exactly when it comes more than 60 s after the first. |
| KalmanSpec.LongGapSticks | internal/intel/kalman.go:190-194 | A run of two GPS fixes 61 s apart that locks the filter. |
| KalmanSpec.SteadyRunNeverSticks | internal/intel/kalman.go:185-195 | Timestamps that never jump ahead by more than 59.99 s, in any order, never lock the filter. |
| KalmanSpec.PredictUnderstates | internal/intel/kalman.go:375-383 | The variance Predict reports is below the filter's own prediction by exactly 4 dt b + 2 dt^2 d, which is positive. |
| KalmanFusion.StepIsExplained | internal/intel/kalman.go:144-348 | Every update of every filter, without its stages: from a gap of 0.01 s to 60 s a fix is accepted exactly when its squared distance from the course is at most 9.21 times the variance of that distance; then precisions add, the position is the precision-weighted mean of course and fix, the velocity moves with the innovation, and covariance and velocity variance fall accordingly; otherwise only the course is followed. |
| KalmanFusion.RunIsExplained | internal/intel/kalman.go:144-348 | The same for every fix of every run on a new filter. |
| KalmanFusion.SecondFixIsAbsorbed | internal/intel/kalman.go:304-335 | A run of two accepted fixes, 10 m and 1 s apart, with the exact position, velocity and variance it ends with. |
| KalmanGate.PredictSemigroup | internal/intel/kalman.go:207-252 | Predicting the covariance over two gaps is predicting over their sum, for all gaps. |
| KalmanGate.TrackSemigroup | internal/intel/kalman.go:197-252 | The same for the whole track. |
| KalmanGate.GateReopens | internal/intel/kalman.go:285-302 | A fix within d of a straight course is accepted once 3 T^3 >= d^2 and 3 T is at least the squared speed of the course relative to the track, T being the time predicted. |
| KalmanGate.RejectionsPredict | internal/intel/kalman.go:296-302 | After any run, any number of ignored or rejected fixes leaves the filter where one prediction would have taken it. |
| KalmanGate.NoLockout | internal/intel/kalman.go:285-302 | The gate cannot lock a drone out: in every run, fixes within d of one straight course are rejected in a row for less than max(1, d, slip^2 / 3) seconds, and less than 100 times that often. |
| KalmanGate.FarFixIsRejected | internal/intel/kalman.go:296-302 | The gate does reject: two fixes of which the second, 1 km away after a second, is rejected. |
| KalmanMatrix.AddRows | internal/intel/kalman.go:219-230 | Copying and adding dt times rows 2 and 3 computes the matrix product F P. |
| KalmanMatrix.AddColumns | internal/intel/kalman.go:232-242 | The column additions compute the product with F transposed. |
| KalmanMatrix.Transport | internal/intel/kalman.go:219-242 | Row and column operations together are the product F P F'. |
| KalmanMatrix.AddNoise | internal/intel/kalman.go:244-252 | The eight additions add the process noise in block form and touch nothing else. |
| KalmanMatrix.PropagateCovariance | internal/intel/kalman.go:207-252 | The loops compute the matrix F P F' + Q, as two matrix products and a sum, for every 4x4 matrix; the entries are also given in closed form. |
| KalmanMatrix.RowOpsAreProduct | internal/intel/kalman.go:215-230 | The row operations are the product with F, entry by entry. |
| KalmanMatrix.ColumnOpsAreProduct | internal/intel/kalman.go:232-242 | The column operations are the product with F transposed, entry by entry. |
| KalmanMatrix.TransportOfBlock | internal/intel/kalman.go:207-252 | Two equal decoupled blocks stay equal and decoupled under prediction, and each is the reference prediction. |
| KalmanMatrix.GainMatrix | internal/intel/kalman.go:304-314 | The gain loop computes P H' S^-1. |
| KalmanMatrix.GainForm | internal/intel/kalman.go:323-335 | P - K S K' has the closed form of the reference correction. |
| KalmanMatrix.KskMatrix | internal/intel/kalman.go:323-330 | The double loop computes K S K'. |
| KalmanMatrix.KskAssociates | internal/intel/kalman.go:323-330 | Each entry is also that of (K S) K', so the bracketing of the loop does not matter. |
| KalmanMatrix.KskIsBlock | internal/intel/kalman.go:323-330 | K S K' of two decoupled axes has no cross terms. |
| KalmanMatrix.Symmetrise | internal/intel/kalman.go:337-344 | The in-place averaging replaces the matrix by the mean of itself and its old transpose. |
| KalmanMatrix.CorrectBlock | internal/intel/kalman.go:304-344 | From a decoupled prediction the gain loops, the subtraction and the averaging give the reference gain and block on both axes. |
| KalmanMatrix.CorrectedMatrix | internal/intel/kalman.go:323-344 | The covariance update yields the corrected block structure. |
| Kalman.DroneKalmanFilter.constructor | internal/intel/kalman.go:76-77 | A new filter is fresh and satisfies the representation invariant. |
| Kalman.DroneKalmanFilter.Initialise | internal/intel/kalman.go:163-182 | The first fix sets the position and a positive definite diagonal block of at least 50 m. |
| Kalman.DroneKalmanFilter.Update | internal/intel/kalman.go:144-348 | The array implementation refines one reference step, which is also stated without its stages (accepted, rejected, ignored, locked up); it keeps the two blocks equal, decoupled and positive definite, and blocks exactly when the reference is stuck. |
| Kalman.DroneKalmanFilter.PredictAndCorrect | internal/intel/kalman.go:197-347 | Predict, gate and correct equal the reference step for every gap of 0.01 s to 60 s. |
| Kalman.DroneKalmanFilter.Absorb | internal/intel/kalman.go:254-347 | The gate keeps the prediction exactly when the squared Mahalanobis distance exceeds the gate. |
| Kalman.DroneKalmanFilter.AddGain | internal/intel/kalman.go:316-321 | The state update moves each coordinate by its own axis gain only. |
| Kalman.DroneKalmanFilter.Predict | internal/intel/kalman.go:353-396 | Dead reckoning returns the extrapolated track, changes nothing, and has no result before the first fix. |
| Kalman.DroneKalmanFilter.GetEstimate | internal/intel/kalman.go:398-422 | The published estimate is read off the current track. |
| Kalman.ErrorInRange | internal/intel/kalman.go:403-419 | The published error stays in [5, 5000] also after rounding. |
| Kalman.PublishedMeans | internal/intel/kalman.go:382-421 | Velocities and speed are published to the nearest 0.01, the error, clamped to [5, 5000], to the nearest 0.1. |
| Kalman.ExtrapolateMeans | internal/intel/kalman.go:361-381 | One form of dead reckoning for all times: the course is followed for the gap, but never back and never beyond 60 s, with the uncertainty of that horizon. |
| Kalman.PropagateBlock | internal/intel/kalman.go:207-252 | The predicted matrix is the reference prediction on both axes and positive definite. |
| Kalman.Innovation | internal/intel/kalman.go:279-295 | For a reachable prediction the singular exit is never taken, the inverse is exact and the distance is the reference one. |
| Kalman.InnovationDet | internal/intel/kalman.go:285-289 | The innovation determinant is above 10000. |
| Matching.PassIsGreedy | internal/processor/controller_link.go:113-123 | The pass with two claimed sets is the recursive greedy assignment on the unclaimed pairs. |
| Matching.GreedyIsMatching | internal/processor/controller_link.go:113-123 | No controller and no UAV is assigned twice. |
| Matching.NoBlockingPair | internal/processor/controller_link.go:104-123 | Every candidate left out clashes with an assigned pair of at least its score. |
| Matching.GreedyIsHalfOptimal | internal/processor/controller_link.go:87-123 | The assignment is worth at least half of any other one-to-one assignment of the candidates. |
| ControllerLink.CandidateIff | internal/processor/controller_link.go:172-225 | A pair reaches the threshold exactly when makers agree and one strong piece of evidence holds; scores stay in [0, 0.9]. |
| ControllerLink.ScoreIsEvidence | internal/processor/controller_link.go:172-225 | A score is the sum of its evidence: 0.25 maker, 0.20 tap, 0.15 both seen within 30 s, 0.30 within 500 m of the operator, 0.10 within 2 km or for a range estimate alone; nothing counts without a common maker. |
| ControllerLink.EvidenceTellsScore | internal/processor/controller_link.go:172-225 | Two pairs with the same evidence label have the same score. |
| ControllerLink.SortByScore | internal/processor/controller_link.go:104-111 | The exchange sort yields a descending permutation of the array. |
| ControllerLink.ControllerCorrelator.Separate | internal/processor/controller_link.go:66-81 | The loop splits the drones seen within 60 s and not lost into controllers and UAVs. |
| ControllerLink.ControllerCorrelator.ScorePairs | internal/processor/controller_link.go:94-102 | The candidates are the pairs at or above 0.4, in loop order. |
| ControllerLink.ControllerCorrelator.Assign | internal/processor/controller_link.go:113-156 | The pass writes exactly the greedy assignment; a pair that is linked already keeps the higher confidence and its evidence. |
| ControllerLink.ControllerCorrelator.ClearUnmatched | internal/processor/controller_link.go:158-168 | Exactly the links of active controllers without a partner are removed. |
| ControllerLink.ControllerCorrelator.Correlate | internal/processor/controller_link.go:60-169 | After a round the links of active controllers are exactly the greedy assignment, all others are untouched; with no active controller or UAV nothing changes. |
| ControllerLink.RoundAssignment | internal/processor/controller_link.go:87-123 | The assignment of a round is one-to-one, has no blocking pair and is half-optimal over the scored pairs. |
| ControllerLink.ConfidenceNeverFalls | internal/processor/controller_link.go:125-139 | Over any run of rounds a pair that stays linked never loses confidence. |
| LinkHistory.EntryStory | internal/processor/controller_link.go:60-169 | Every entry of every run of rounds from an empty table: it belongs to a stretch of rounds that assign one UAV or leave the controller alone, its confidence is the largest score of that stretch, its evidence that of the first round with that score, its time that of the last round that took the controller. |
| LinkHistory.StretchIsLinked | internal/processor/controller_link.go:113-169 | A pair in such a stretch is linked to its end. |
| LinkHistory.LinkedIff | internal/processor/controller_link.go:60-169 | In every run a controller and a UAV are linked exactly at the end of a stretch of theirs. |
| LinkTable.PairsIff | internal/processor/controller_link.go:94-102 | A candidate is listed exactly when it is the scored pair of an active controller and an active UAV and reaches the threshold. |
| LinkTable.RoundKeepsOneToOne | internal/processor/controller_link.go:60-169 | A round leaves the whole table one-to-one when the links of inactive controllers are one-to-one and none of them names an active UAV. |
| LinkTable.TableOneToOneIff | internal/processor/controller_link.go:60-169 | For given active drones, rounds surely keep the table one-to-one if and only if that condition on the table before the round holds; otherwise some snapshot of the same drones breaks it. |
| LinkTable.SinglePairRound | internal/processor/controller_link.go:87-168 | Any active controller and UAV are the only pair of some snapshot of the same drones, and that round keeps every inactive link. |
| LinkTable.StaleRivalExists | internal/processor/controller_link.go:60-169 | Two rounds from an empty table, with their drones, that link two controllers to one UAV. |
| LinkTable.GreedyCanLose | internal/processor/controller_link.go:87-123 | A snapshot of four drones whose assignment is worth exactly half of another one: the factor two cannot be improved. |
| LeastSquares.DetIsCrossSum | internal/intel/trilateration.go:206-220 | For any number of taps the determinant of the normal matrix is the sum of weighted squared cross products. |
| LeastSquares.DetSign | internal/intel/trilateration.go:219-223 | It is never negative, and zero exactly when all directions are parallel. |
| LeastSquares.CramerSolves | internal/intel/trilateration.go:219-226 | The quotients solve the normal equations exactly. |
| LeastSquares.CostIsQuadratic | internal/intel/trilateration.go:206-217 | The five accumulated sums determine the weighted squared error of every step. |
| LeastSquares.SolutionIsLeastSquares | internal/intel/trilateration.go:206-226 | The solution has the least weighted squared error of all steps. |
| LeastSquares.FractionDescends | internal/intel/trilateration.go:228-237 | Any fraction of the step lowers the linearised error and never points against J'Wr. |
| Outliers.DroppedEnergy | internal/intel/trilateration.go:147-153 | Each dropped tap carries more than the squared threshold of the residual energy. |
| Outliers.RejectionBudget | internal/intel/trilateration.go:137-153 | Dropping k > 0 of N >= 3 taps at threshold T requires k T^2 < N - 2. |
| Outliers.BudgetIsTight | internal/intel/trilateration.go:137-153 | Every number of drops within that budget occurs, for every threshold and size. |
| Outliers.DefaultRejection | internal/intel/trilateration.go:106-115 | At 2.5 sigma nothing is dropped from up to eight taps, and more than three taps stay more than three. |
| Outliers.NegativeThreshold | internal/intel/trilateration.go:147-153 | A negative threshold drops every tap. |
| Taps.WeightPositive | internal/intel/trilateration.go:296-316 | Every tap gets a positive weight under every configuration. |
| Taps.WeightIsInverseVariance | internal/intel/trilateration.go:296-316 | The weight times the squared uncertainty is the same for every uncertainty; confidence and distance alone decide it. |
| Taps.WeightWithout | internal/intel/trilateration.go:296-316 | A tap without an uncertainty counts as one of 1 m. |
| Taps.WeightFalls | internal/intel/trilateration.go:296-316 | A larger uncertainty never gives a larger weight. |
| InitialEstimate.WeightedSums | internal/intel/trilateration.go:363-370 | The loop computes total weight and weighted coordinate sums. |
| InitialEstimate.PlainSums | internal/intel/trilateration.go:372-380 | The loop of the fallback computes the coordinate sums with unit weights. |
| InitialEstimate.PullSums | internal/intel/trilateration.go:386-401 | The loop computes the weighted sums of the pulled points of all taps at least 1 m from the centroid. |
| InitialEstimate.WeightedCentroidEstimate | internal/intel/trilateration.go:360-407 | The whole estimate, with its two fallbacks. |
| InitialEstimate.PullOnCircle | internal/intel/trilateration.go:391-399 | Every pulled point lies exactly at the measured range from its tap. |
| InitialEstimate.PullOnRay | internal/intel/trilateration.go:391-399 | And on the ray from its tap through the centroid, with its tap's weight. |
| InitialEstimate.SpreadIsPulled | internal/intel/trilateration.go:390-405 | Taps that pass the collinearity test are not all at the centroid, so some point is pulled. |
| InitialEstimate.EstimateInHull | internal/intel/trilateration.go:360-407 | With positive weights the unweighted fallback is dead, and the estimate lies in every half-plane that holds all pulled points. |
| Trilateration.Linearise | internal/intel/trilateration.go:184-204 | The loop computes residuals and direction cosines, with predicted distances floored at 1 m. |
| Trilateration.Accumulate | internal/intel/trilateration.go:206-217 | One pass computes all five weighted sums. |
| Trilateration.SolveNormal | internal/intel/trilateration.go:219-237 | Cramer's rule and the clamp give the damped step, or the degenerate exit. |
| Trilateration.StepFrom | internal/intel/trilateration.go:184-237 | One iteration computes the damped step at the current estimate. |
| Trilateration.Solve | internal/intel/trilateration.go:181-251 | The loop is the iteration of that step until it is short, the geometry is degenerate or the limit is reached. |
| Trilateration.SolveFromCentroid | internal/intel/trilateration.go:158-251 | Weights, initial estimate and iteration together. |
| Trilateration.StepShape | internal/intel/trilateration.go:219-237 | The step is the exact solution of the normal equations scaled by one factor in (0, 1], and at most 500 m long. |
| Trilateration.DegenerateIff | internal/intel/trilateration.go:219-223 | The degenerate exit is taken exactly when the sum of weighted cross products is below 1e-12. |
| Trilateration.StepDescends | internal/intel/trilateration.go:219-237 | The clamped step never raises the linearised error and never points against J'Wr. |
| Trilateration.StepIsOptimal | internal/intel/trilateration.go:219-237 | An unclamped step beats every other step. |
| Trilateration.IterateStaysClose | internal/intel/trilateration.go:181-251 | Any iteration of bounded steps ends within 500 m per iteration of its start, with a short last step. |
| Trilateration.StepsAreBounded | internal/intel/trilateration.go:228-237 | The solver's own steps meet that bound everywhere. |
| Trilateration.SolutionStaysClose | internal/intel/trilateration.go:158-251 | A position is found within the iteration limit and at most 500 m per iteration from the initial estimate. |
| Trilateration.MeasureResiduals | internal/intel/trilateration.go:124-135 | The loop computes the absolute residuals and their energy. |
| Trilateration.Keep | internal/intel/trilateration.go:147-154 | The taps within the threshold are kept in order. |
| Trilateration.RejectOutliers | internal/intel/trilateration.go:121-155 | The kept taps are those within threshold times the floored residual deviation. |
| Trilateration.Trilaterate | internal/intel/trilateration.go:78-118 | Each error is returned under exactly its condition; otherwise the result is that of locating the valid taps, which panics when there is none. |
| Trilateration.IsCollinear | internal/intel/trilateration.go:319-354 | The loop decides whether the largest cross product stays below 200. |
| Trilateration.UpToEightTapsIsOneSolve | internal/intel/trilateration.go:100-117 | With the default settings up to eight taps give the plain solution: rejection has no effect. |
| Trilateration.RejectionKeepsTheFix | internal/intel/trilateration.go:100-117 | Rejection never loses a position unless it panics, which it does not when at least one tap is asked for. |
| Trilateration.AnswerIsSolution | internal/intel/trilateration.go:100-118 | Unless it panics, an answer is the solution, or the failure, of one solve over the taps it claims to use: the inliers if a second solve is due and succeeds, all taps otherwise. |
| Trilateration.DefaultKeepsFour | internal/intel/trilateration.go:100-117 | By default rejection never leaves fewer than four of more than three taps. |
| Trilateration.PanicsIff | internal/intel/trilateration.go:100-117 | The solver runs on no taps exactly when there is none, or when none is asked for, rejection is on, the first solve succeeds and no tap stays within the threshold. |
| Trilateration.NeverPanicsIff | internal/intel/trilateration.go:100-117 | A configuration never panics if and only if it asks for at least one tap. |
| Trilateration.NegativeThresholdPanics | internal/intel/trilateration.go:147-161 | Such a rejection: a negative threshold rejects all taps. |
| Ranging.PredDistIsEuclidean | internal/intel/trilateration.go:188-196 | The predicted distance is the Euclidean one, and 1 m when that is less. |
| Ranging.DistanceIsTangent | internal/intel/trilateration.go:188-203 | The direction cosines are the gradient of the distance: from at least 1 m away any displacement changes it by its linear part and at most its squared length over twice the distance more. |
| Ranging.ResidualsVanishIff | internal/intel/trilateration.go:188-199 | The residuals vanish exactly where every measured range is the true distance. |
| Ranging.ExactIsFixed | internal/intel/trilateration.go:184-237 | There the step is zero, unless the system is singular. |
| Ranging.SolveFindsTruth | internal/intel/trilateration.go:181-251 | A solve that comes to the true position in time answers it, for every number of taps and every configuration; the degenerate and the never-satisfied threshold are told apart. |
| Ranging.CollinearIff | internal/intel/trilateration.go:319-354 | The test holds exactly for fewer than three taps, for two first taps within 1 m, or if no tap spans 100 square metres with them. |
| Ranging.TruthIsUnique | internal/intel/trilateration.go:319-354 | Taps that pass the collinearity test fix at most one position: two points with the same exact ranges are equal. |
| Ranging.ValidTapsPick | internal/intel/trilateration.go:83-92 | Validation keeps, in order, exactly the taps with positive range and uncertainty. |
| Ranging.InliersPick | internal/intel/trilateration.go:121-155 | Rejection keeps, in order, exactly the taps whose ring around the measured range, as wide as the threshold, holds the estimate. |
| Ranging.ExactFixIsFinal | internal/intel/trilateration.go:106-117 | A first fix at which every range is exact is never replaced. |
| RangeDescent.StepDescendsRanges | internal/intel/trilateration.go:184-237 | The step goes downhill on the true weighted range error: unless the estimate is stationary, every small enough fraction of the step, clamped or not, makes it strictly smaller. |
| RangeDescent.RestsIff | internal/intel/trilateration.go:206-226 | The step is zero exactly when the weighted residuals pull in no direction. |
| ErrorEllipse.CovariancePosDef | internal/intel/trilateration.go:461-472 | When the determinant test passes, the covariance is positive definite. |
| ErrorEllipse.CovarianceInverts | internal/intel/trilateration.go:461-472 | The covariance times the normal matrix is the residual variance times the identity. |
| ErrorEllipse.VarianceOf | internal/intel/trilateration.go:447-459 | The residual variance times the degrees of freedom is the weighted residual energy, unless it was raised to 1. |
| ErrorEllipse.Spectrum | internal/intel/trilateration.go:474-489 | Its eigenvalues are real, positive and ordered, with the trace as sum and the determinant as product. |
| ErrorEllipse.EllipseCoversDirections | internal/intel/trilateration.go:474-506 | The variance in every direction lies between the two eigenvalues. |
| ErrorEllipse.AxesAreRoots | internal/intel/trilateration.go:474-553 | The reported semi-axes are the square roots of the eigenvalues, and the error that of their sum, cut off at 10 m (the minor axis at 5 m) and 5 km. |
| ErrorEllipse.Moments | internal/intel/trilateration.go:417-445 | The loop accumulates the normal matrix and the weighted residual energy. |
| ErrorEllipse.Axes | internal/intel/trilateration.go:474-553 | No fallback fires, and the axes and error are in range and ordered. |
| ErrorEllipse.FromMoments | internal/intel/trilateration.go:447-555 | Singular geometry gives 500 m, anything else the ellipse of the covariance. |
| ErrorEllipse.ComputeErrorEllipse | internal/intel/trilateration.go:411-556 | For every input 5 <= semiMinor <= semiMajor, 10 <= semiMajor <= 5000 and 10 <= errorM <= 5000, and the singular case is decided by the cross products. |
| CircleIntersection.RepairRadii | internal/receiver/nats.go:1523-1546 | The step-by-step repair computes one closed form: contained circles are opened to an overlap of 1% of the separation, separate ones scaled together to such an overlap, unless that would leave one inside the other. |
| CircleIntersection.RepairedMeet | internal/receiver/nats.go:1523-1546 | The repaired circles meet, no radius shrinks, and radii that meet already stay. |
| CircleIntersection.HalfChordReal | internal/receiver/nats.go:1548-1553 | For circles that meet the squared half chord is not negative, so its clamp is never used. |
| CircleIntersection.CandidateOnBoth | internal/receiver/nats.go:1555-1561 | Both candidates lie exactly on both circles. |
| CircleIntersection.OnlyTwoCandidates | internal/receiver/nats.go:1555-1561 | There is no other intersection point. |
| CircleIntersection.Choose | internal/receiver/nats.go:1563-1577 | The candidate nearer to the previous estimate is taken, or the foot of the chord when there is none. |
| CircleIntersection.ReportedError | internal/receiver/nats.go:1582-1587 | The reported error times max(h / d1, 0.1) is the mean uncertainty, so it is between 1 and 10 times that. |
| CircleIntersection.Intersect | internal/receiver/nats.go:1511-1587 | The whole computation: guarded exactly, on the repaired radii, which meet, with the intersection nearer to the previous estimate or the foot of the chord, and the exact error. |
| DroneState.UpdateKeepsSerials | internal/processor/state.go:593-861 | A detection keeps the serial index exact, and the identifier it resolves to is live, stale index entries or not. |
| DroneState.DeleteKeepsSerials | internal/processor/state.go:74-114 | Deletion keeps the serial index exact. |
| DroneState.DeleteAllKeepsSerials | internal/processor/state.go:1109-1128 | Eviction keeps it exact and removes exactly the listed drones. |
| DroneState.RunKeepsSerials | internal/processor/state.go:593-861 | In every run of updates, deletions and sweeps no two live drones share a serial. |
| DroneState.HydrateKeepsSerialsIff | internal/processor/state.go:455-468 | A bulk load keeps the index exact if and only if the drones left live have proper ids and distinct serials. |
| DroneState.UpdateKeepsMacsIff | internal/processor/state.go:599-629 | A detection keeps the MAC index exact if and only if no merge by serial adopts an unindexed MAC. |
| DroneState.StepKeepsMacsIff | internal/processor/state.go:74-114 | Deletions and sweeps keep the MAC index exact; a detection does unless it adopts an unindexed MAC. |
| DroneState.RunKeepsMacsIff | internal/processor/state.go:593-861 | In every run from an exact state the MAC index stays exact throughout if and only if no detection adopts an unindexed MAC. |
| DroneState.EmptyRunKeepsMacsIff | internal/processor/state.go:593-861 | The same for runs from the empty state. |
| DroneState.MacClash | internal/processor/state.go:846-861 | A run that ends with one MAC on two live drones. |
| DroneState.UpdateKeepsTracks | internal/processor/state.go:511-516 | A new drone that is no controller gets a track number above all before it. |
| DroneState.RunKeepsTracks | internal/processor/state.go:511-516 | In every run live drones have distinct track numbers and the counter never goes back. |
| DroneState.NumbersAreUnique | internal/processor/state.go:511-516 | In every run, evictions or not, each number handed out is above all earlier ones. |
| DroneLife.StepOnDrone | internal/processor/state.go:593-861 | What every operation does to the record of one drone: only a detection that resolves to it revives it, and only a sweep that finds it silent marks it lost. |
| DroneLife.DroneStory | internal/processor/state.go:593-861 | Every live drone of every run, from the log alone: inserted by a detection under its own identifier, which fixes its kind and track number; last seen at the last detection credited to it since; counted as often as it was credited; lost exactly when a sweep since then found it silent. |
| DroneLife.EvictedIff | internal/processor/state.go:1090-1128 | In every run a sweep evicts a live drone if and only if its last detection is longer ago than the eviction time and this or an earlier sweep found it silent. |
| DroneLife.RecentIsKept | internal/processor/state.go:1090-1128 | A drone detected within the eviction time is never evicted. |
| DroneLife.SerialIsLearntIff | internal/processor/state.go:593-823 | After a detection its serial leads to the drone it resolved to, exactly unless it was merged there by its MAC; a drone detected under its own identifier carries the serial it was detected with. |
| DroneLife.MergeAdoptsMac | internal/processor/state.go:846-861 | A merge gives the drone the MAC of the detection if it has none, and leaves its serial. |
| DroneLife.DeleteForgets | internal/processor/state.go:74-114 | A deletion takes the drone's own serial and MAC out of the indexes and leaves every other entry. |
| DroneStore.HashLoop | internal/processor/state.go:46-53 | The loop computes 32-bit FNV-1a and its low four bits. |
| DroneStore.KnownHash | internal/processor/state.go:46-53 | The hash of "fo" is the value published for 32-bit FNV-1a. |
| DroneStore.StateManager.Get | internal/processor/state.go:56-62 | Looking in one shard finds exactly the live drones. |
| DroneStore.StateManager.Put | internal/processor/state.go:65-71 | Storing in one shard updates the one map of live drones. |
| DroneStore.StateManager.Drop | internal/processor/state.go:74-81 | Deleting from one shard removes the drone from that map. |
| DroneStore.StateManager.UpdateIndexes | internal/processor/state.go:89-98 | Non-empty serials and MACs are indexed. |
| DroneStore.StateManager.TryMerge | internal/processor/state.go:599-629 | A merge happens exactly when the index names another live drone. |
| DroneStore.StateManager.Upsert | internal/processor/state.go:631-822 | Refreshing or inserting under the own identifier is the reference update. |
| DroneStore.StateManager.UpdateDrone | internal/processor/state.go:593-823 | The sharded implementation refines the reference update, with the same result; the drone it resolves to is active, seen now and counted once more, and every other record is as before. |
| DroneStore.StateManager.DeleteDrone | internal/processor/state.go:74-114 | Deletion refines the reference and reports whether the drone was live. |
| DroneStore.StateManager.HydrateDrones | internal/processor/state.go:455-468 | The bulk load refines the reference and returns the number of drones added. |
| DroneStore.StateManager.Count | internal/processor/state.go:147-156 | The shard sizes add up to the number of live drones. |
| DroneStore.StateManager.MarkAllLost | internal/processor/state.go:1093-1101 | Exactly the silent active drones are marked lost, shard by shard. |
| DroneStore.StateManager.Collect | internal/processor/state.go:1110-1120 | The list holds exactly the lost drones past the eviction age. |
| DroneStore.StateManager.Cleanup | internal/processor/state.go:1090-1128 | The sweep refines the reference and evicts exactly the expired drones, or none when eviction is off; a drone that stays is lost exactly when it was or is silent by now. |
| RssiStats.ComputeMean | internal/intel/rssi_tracker.go:369-378 | The loop computes the mean, 0 for no samples. |
| RssiStats.MinMax | internal/intel/rssi_tracker.go:380-394 | The results are attained bounds of the samples. |
| RssiStats.ComputeTrend | internal/intel/rssi_tracker.go:344-367 | The loop computes the regression slope, 0 below three samples. |
| RssiStats.ResidualEnergy | internal/intel/rssi_tracker.go:481-502 | The loop sums the squared distances from a line. |
| RssiStats.ComputeJitter | internal/intel/rssi_tracker.go:457-464 | The loop sums the absolute sample-to-sample changes. |
| RssiStats.Measure | internal/intel/rssi_tracker.go:443-477 | All metrics of a window together. |
| RssiStats.ComputeMobilityProfile | internal/intel/rssi_tracker.go:399-478 | The profile is that of the samples newer than the cutoff, or empty below three; if those vary by at most 6 dB it is not mobile, whatever the older samples are. |
| RssiStats.WindowPicks | internal/intel/rssi_tracker.go:413-423 | The window holds, in order and one each, the readings of exactly the samples newer than the cutoff. |
| RssiStats.WindowIsSuffix | internal/intel/rssi_tracker.go:413-423 | Of samples in the order of time it is a suffix. |
| RssiStats.QuietIsNotMobile | internal/intel/rssi_tracker.go:399-478 | Samples that vary by at most 6 dB within the window are not called mobile, whatever the older ones do. |
| RssiStats.ScoreIsStairs | internal/intel/rssi_tracker.go:508-575 | Rounding to two decimals never changes a score: it is a sum of points per level reached, cut off at 0 and 1. |
| RssiStats.ScoreIsMonotone | internal/intel/rssi_tracker.go:508-575 | More of every metric never lowers the score. |
| RssiStats.JitterBounds | internal/intel/rssi_tracker.go:457-464 | The total change lies between the range and the range times the number of steps. |
| RssiStats.SxxPositive | internal/intel/rssi_tracker.go:354-364 | The zero-denominator exit is dead for three samples or more. |
| RssiStats.SlopeSolves | internal/intel/rssi_tracker.go:344-367 | Slope and intercept solve the normal equations of the line fit. |
| RssiStats.FitIsOptimal | internal/intel/rssi_tracker.go:344-367 | No other line has a smaller squared error. |
| RssiStats.VarianceSplits | internal/intel/rssi_tracker.go:448-502 | Total variation is slope^2 times position variation plus residual variation. |
| RssiStats.SpreadBound | internal/intel/rssi_tracker.go:443-455 | The variance is at most a quarter of the squared range. |
| RssiStats.DeviationChain | internal/intel/rssi_tracker.go:443-502 | Detrended deviation <= plain deviation <= half the range. |
| RssiStats.MobileNeedsRange | internal/intel/rssi_tracker.go:399-576 | A transmitter called mobile has a range above 6 dB. |
| RssiStats.RangeLimitIsExact | internal/intel/rssi_tracker.go:399-576 | 6 dB is the exact limit: windows just above it are called mobile. |
| RssiStats.NoChatter | internal/intel/rssi_tracker.go:154-198 | Every approach or depart event after the first is paid for by a trend beyond the release level. |
| RssiStats.MovementIff | internal/intel/rssi_tracker.go:154-198 | The hysteresis state is approaching exactly when the trend exceeded the threshold once and never fell below the release level since; departing likewise. |
| RssiTracker.RunSeparates | internal/intel/rssi_tracker.go:107-198 | In every run over many drones each one is tracked as if it were alone. |
| RssiTracker.AloneFollows | internal/intel/rssi_tracker.go:125-198 | A drone holds the trimmed end of its readings and the movement state of all its trends. |
| RssiTracker.MovementOfLog | internal/intel/rssi_tracker.go:107-198 | With a history of ten samples or more trimming is invisible: the state is decided by the slopes over the last ten readings at each point of the full log. |
| RssiTracker.Tracker.constructor | internal/intel/rssi_tracker.go:96-104 | A non-positive history size becomes 50. |
| RssiTracker.Tracker.Observe | internal/intel/rssi_tracker.go:107-198 | One reading: the new track of the drone, and no other drone changes. |
| RssiTracker.Tracker.Switch | internal/intel/rssi_tracker.go:154-196 | The hysteresis switch, and exactly one event counted per entry into a state. |
| SuspectCorrelator.ObserveKeepsFaith | internal/processor/suspect_correlator.go:127-155 | An observation, with its stale reset, keeps the window counting exactly the taps that saw the MAC within the span. |
| SuspectCorrelator.SweepKeepsFaithIff | internal/processor/suspect_correlator.go:282-297 | A sweep keeps the counts exact if and only if every window it removes has been silent for more than the span. |
| SuspectCorrelator.RunIsFaithful | internal/processor/suspect_correlator.go:121-297 | Over every chronological run with slow enough sweeps, the counts are those of the full log. |
| SuspectCorrelator.WindowIsBurst | internal/processor/suspect_correlator.go:127-155 | Over every such run a window holds exactly the taps that saw the MAC since it was last silent for longer than the span. |
| SuspectCorrelator.WithDefaults | internal/processor/suspect_correlator.go:193-207 | The thresholds in force are positive whatever is configured. |
| SuspectCorrelator.DefaultsApply | internal/processor/suspect_correlator.go:193-207 | Values that are not positive become 5 observations, 30 s and 0.6; the others stay. |
| SuspectCorrelator.VerdictMeaning | internal/processor/suspect_correlator.go:174-265 | Multi-tap promotion is exactly the tap count; single-tap promotion needs its mode and evidence; a confidence of a promoted suspect is at most 0.95. |
| SuspectCorrelator.PathwayIff | internal/processor/suspect_correlator.go:187-264 | Each single-tap pathway and the eligibility mark have their exact condition. |
| SuspectCorrelator.ConfidenceOf | internal/processor/suspect_correlator.go:174-262 | The confidence of every verdict: base plus one boost per further tap, or plus the evidence of its pathway, up to the cap of that pathway. |
| SuspectCorrelator.BoostPerTap | internal/processor/suspect_correlator.go:174-185 | Each further tap adds exactly one boost until 0.95. |
| SuspectCorrelator.ConfirmationIsMonotone | internal/processor/suspect_correlator.go:174-265 | More taps and more evidence never withdraw a promotion. |
| SuspectCorrelator.ConfirmationIsExact | internal/processor/suspect_correlator.go:121-185 | After any such run an observation is confirmed by correlation exactly when enough distinct taps saw the MAC recently. |
| SuspectCorrelator.Correlator.constructor | internal/processor/suspect_correlator.go:88-106 | Non-positive parameters get the defaults 5 s, 2 taps and 0.30. |
| SuspectCorrelator.Correlator.AddObservation | internal/processor/suspect_correlator.go:121-266 | The new windows are the specified ones and the verdict is that of the active count. |
| SuspectCorrelator.Correlator.CountActive | internal/processor/suspect_correlator.go:270-278 | The loop counts the taps observed within the span. |
| SuspectCorrelator.Correlator.Cleanup | internal/processor/suspect_correlator.go:282-297 | Exactly the old windows are removed, and their number is returned. |
| CalibrationWindow.WindowEqualsRecomputation | internal/intel/live_calibrator.go:146-158 | The fresh part of a window is the fresh part of the last 200 recorded points. |
| CalibrationWindow.RecordKeepsNested | internal/intel/live_calibrator.go:146-158 | Recording keeps the global window, filtered to a tap, a suffix of that tap's window. |
| CalibrationWindow.EmptyMeansAllStale | internal/intel/live_calibrator.go:472-475 | A model is deleted only when no point ever recorded for it is fresh, at any tap. |
| CalibrationWindow.RunKeepsWindows | internal/intel/live_calibrator.go:100-476 | In every interleaving of records and prunes both windows follow the log, hold at most 200 points, and are nested. |
| CalibrationWindow.RunEqualsRecomputation | internal/intel/live_calibrator.go:371-391 | At any time the fresh points of both windows are those a recomputation from the whole log would use. |
| CalibrationWindow.Calibrator.RecordCalibrationPoint | internal/intel/live_calibrator.go:100-169 | A point with a named model and tap, a plausible reading and a distance of 50 m to 15 km goes into both windows, which are trimmed and refitted; any other changes nothing. |
| CalibrationWindow.Calibrator.Extend | internal/intel/live_calibrator.go:146-169 | Both windows slide, and the fits of those with five points are recomputed. |
| CalibrationWindow.Calibrator.FitRssi0 | internal/intel/live_calibrator.go:371-391 | The median of the fresh points, or the generic value. |
| CalibrationWindow.Calibrator.GetCalibratedRSSI0 | internal/intel/live_calibrator.go:264-293 | The served value and its source, by the four priorities. |
| CalibrationWindow.Calibrator.PruneStale | internal/intel/live_calibrator.go:440-476 | Stale points, empty tap windows with their fits, and empty models are removed, and nothing is refitted. |
| CalibrationWindow.Calibrator.PruneTaps | internal/intel/live_calibrator.go:456-470 | Exactly the taps with a fresh point remain, with their fresh points and their old fits. |
| CalibrationWindow.Calibrator.FilterFresh | internal/intel/live_calibrator.go:448-454 | The loop keeps the fresh points in order. |
| CalibrationFit.RunKeepsFits | internal/intel/live_calibrator.go:146-169 | In every run each cached value that may be served is the fit over the last 200 points at the newest of them. |
| CalibrationFit.ServedIsCached | internal/intel/live_calibrator.go:264-281 | After any run every caller is served, by priority, that fit of the tap's log, of the whole log, the static value of the model, or the generic value. |
| CalibrationFit.CacheIsCurrent | internal/intel/live_calibrator.go:264-281 | If no point has expired since the newest one, the cached fit is the current one. |
| CalibrationFit.CacheIsCurrentIff | internal/intel/live_calibrator.go:264-281 | Whatever was read within any band of reference powers, the cached fit is the fit over the points fresh now, if and only if no point that was fresh at the newest one has expired. |
| CalibrationFit.StaleFitServed | internal/intel/live_calibrator.go:440-476 | A record-then-prune run that serves 22.5 where the points left have the median 23. |
| Median.InsertStep | internal/intel/live_calibrator.go:506-514 | One inner loop moves the key to its place in the sorted prefix and leaves the rest. |
| Median.InsertionSort | internal/intel/live_calibrator.go:505-514 | The array becomes a sorted permutation of itself. |
| Median.ComputeMedian | internal/intel/live_calibrator.go:495-520 | The result is the middle of the one sorted permutation of the values, 0 for none. |
| Median.SortedUnique | internal/intel/live_calibrator.go:505-514 | A list has only one sorted permutation, so the median does not depend on the order. |
| Median.MajorityHolds | internal/intel/live_calibrator.go:516-519 | A middle position lies in every interval that holds a majority. |
| Median.MedianIsRobust | internal/intel/live_calibrator.go:495-520 | The median lies in every interval that holds more than half of the values, for even counts too. |
| IdentityMemory.Identities.RememberIdentity | internal/intel/live_calibrator.go:184-210 | The memory never exceeds 10000 entries; a full one forgets exactly 1000 entries, none newer than any survivor. |
| IdentityMemory.Identities.EvictOldest | internal/intel/live_calibrator.go:214-245 | The partial selection removes exactly the requested number, and none newer than any survivor. |
| IdentityMemory.Identities.EvictNext | internal/intel/live_calibrator.go:230-239 | One round selects and removes the oldest remaining entry. |
| IdentityMemory.Identities.FindOldest | internal/intel/live_calibrator.go:231-236 | The inner loop finds a position of least time. |
| IdentityMemory.Identities.ListAll | internal/intel/live_calibrator.go:224-227 | The listing holds every entry once. |
| IdentityMemory.Identities.PruneStale | internal/intel/live_calibrator.go:478-483 | Exactly the identities not confirmed for 48 hours are forgotten. |
| IdentityMemory.SelectedGone | internal/intel/live_calibrator.go:229-239 | Removing a selected front removes the oldest. |
| SlidingLimiter.LimiterMatchesReference | internal/auth/middleware.go:410-459 | In every run in time order the trimmed lists decide as the full admission history would. |
| SlidingLimiter.CleanupIsInvisible | internal/auth/middleware.go:441-459 | The reference depends on the requests only. |
| SlidingLimiter.AtMostLimit | internal/auth/middleware.go:410-438 | No half-open interval (s, s + window] holds more than limit admissions of a key. |
| SlidingLimiter.LimiterIsSound | internal/auth/middleware.go:410-459 | The limiter itself admits at most limit in every such interval, and exactly what it would admit without any clean-up. |
| SlidingLimiter.FirstTwo | internal/auth/middleware.go:420-426 | Two requests exactly one window length apart are both admitted at a limit of one. |
| SlidingLimiter.RateLimiter.Filter | internal/auth/middleware.go:420-426 | The loop keeps the times after the cutoff in order. |
| SlidingLimiter.RateLimiter.Allow | internal/auth/middleware.go:410-438 | Decision and new state of one request. |
| SlidingLimiter.RateLimiter.Cleanup | internal/auth/middleware.go:441-459 | Every list is trimmed and empty ones are removed. |
| FixedLimiter.LimiterMatchesReference | internal/api/server.go:99-143 | In every run in time order the limiter decides as one that never forgets a client. |
| FixedLimiter.CleanupIsInvisible | internal/api/server.go:133-143 | The reference depends on the requests only. |
| FixedLimiter.LimiterIgnoresCleanups | internal/api/server.go:99-143 | In every run in time order the limiter admits exactly what it would admit without any clean-up. |
| FixedLimiter.ReferenceIsTagged | internal/api/server.go:99-125 | In every run the windows of a client do not overlap, each holds at most max(requests, 1) admissions, and the counter is the number in the current one. |
| FixedLimiter.AtMostTwice | internal/api/server.go:99-125 | A closed interval of one window length meets at most two windows and holds at most 2 max(requests, 1) - 1 admissions. |
| FixedLimiter.LimiterIsSound | internal/api/server.go:99-143 | That bound over closed intervals for the limiter itself, with clean-ups, in every run in time order. |
| FixedLimiter.BoundIsReached | internal/api/server.go:99-125 | The bound is reached, already in a half-open interval, for every positive limit and window. |
| FixedLimiter.SlidingIff | internal/api/server.go:60-125 | Over the half-open intervals that the sliding limiter bounds, this one keeps the same bound if and only if the limit is one; it stays within max(limit, 1) if and only if the limit is at most one. |
| FixedLimiter.EdgeDiffers | internal/api/server.go:111-116 | At a limit of one the two limiters still differ on a request exactly one window length after the first. |
| FixedLimiter.FirstIsFree | internal/api/server.go:106-109 | The first request of a client is admitted whatever the limit, also at zero. |
| FixedLimiter.RateLimiter.Allow | internal/api/server.go:99-125 | Decision and new state of one request. |
| FixedLimiter.RateLimiter.Cleanup | internal/api/server.go:133-143 | Exactly the clients whose window started more than two lengths ago are removed. |
| DbPipeline.StepKeepsValid | internal/receiver/nats.go:324-395 | Every action keeps the accounts balanced job by job, batches in 1..10, retries in 0..2 and the queue within its capacity. |
| DbPipeline.PipelineConserves | internal/receiver/nats.go:324-395 | In every reachable state of any number of workers: submitted = dropped + queued + in hand + saved + failed as multisets of jobs, and the counters are their sizes. |
| DbPipeline.OfferKeepsValid | internal/receiver/nats.go:1389-1401 | An offered job is queued or counted as dropped, never both. |
| DbPipeline.QueueIsFifo | internal/receiver/nats.go:336-364 | In every interleaving the workers together take the accepted jobs in the order they were accepted. |
| DbPipeline.NobodyLeavesEarly | internal/receiver/nats.go:336-348 | From the start until a shutdown begins, no worker leaves, whatever the interleaving and the failures. |
| DbPipeline.ExecuteBatch | internal/receiver/nats.go:371-391 | A batch is saved exactly when one of three attempts succeeds, no attempt follows a success, and it is counted once. |
| DbPipeline.SavesSettle | internal/receiver/nats.go:371-394 | The save actions of a worker end with the whole batch under one heading, whatever else is in the pipeline. |
| DbPipeline.WorkersStop | internal/receiver/nats.go:336-395 | Without new jobs the workers stop within a computed number of actions. |
| DbPipeline.FinishedIff | internal/receiver/nats.go:339-348 | With the queue closed nothing is left to do exactly when every worker has exited. |
| DbPipeline.FinalAccounts | internal/receiver/nats.go:324-395 | After the exit of all workers every job was dropped, saved, failed or is left in the queue. |
| DbPipeline.CloseAloneDrains | internal/receiver/nats.go:339-348 | Closing the queue without cancelling loses no job, in every run with a worker. |
| DbPipeline.GracefulIff | internal/receiver/nats.go:1999-2018 | Called on an open pipeline, the shutdown (cancel, close, and any interleaving of the workers) surely drains the queue if and only if it is empty before the call. |
| DbPipeline.HastyShutdown | internal/receiver/nats.go:1999-2018 | From every open pipeline there is a run of the shutdown in which all workers leave and the queue stays as it is. |
| DbPipeline.OfferAndLeave | internal/receiver/nats.go:1389-1401 | A run of one offer and a hasty shutdown, ending finished with the job still queued. |
| DbPipeline.JobIsLost | internal/receiver/nats.go:1999-2018 | For any number of workers, a run from the start after which the one job offered is neither saved nor counted. |
| WsBatch.Deduplicate | internal/api/server.go:1709-1724 | The loop with its index of places computes the deduplicated list. |
| WsBatch.DedupKeepsOthers | internal/api/server.go:1709-1724 | All other events are sent, unchanged and in order. |
| WsBatch.DedupKeepsLatest | internal/api/server.go:1709-1724 | Of the updates of each drone exactly the latest is sent. |
| WsBatch.DedupKeepsOrder | internal/api/server.go:1709-1724 | Drones keep the order of their first updates. |
| WsBatch.LatestIff | internal/api/server.go:1709-1724 | The last event of a sent batch about a drone is the last of the batch, unless that is an update and another kind of event about the drone came after its first update. |
| WsWire.ImmediateIff | internal/api/server.go:1494-1498 | A new or lost report is the last word about its drone if and only if no batched event about the drone is pending. |
| WsWire.BatchedIff | internal/api/server.go:1499-1502 | A batched event is the last word unless it is an update that takes a place before another kind of event in the batch. |
| WsWire.LastWordIff | internal/api/server.go:1487-1769 | In every interleaving of emissions and flushes: once all is written, the client's last event about a drone is the last that happened if and only if its emission met that condition. |
| WsWire.LossIsOvertaken | internal/api/server.go:1494-1502 | The run update, loss report, flush, after which the client has the update last. |
| WsWire.PromotionIsSwapped | internal/api/server.go:1709-1724 | A batch in which an update is sent before the promotion it followed. |
| WsWire.Broadcaster.constructor | internal/api/server.go:211-214 | Nothing sent and nothing pending. |
| WsWire.Broadcaster.Collect | internal/api/server.go:1488-1514 | One event is sent or buffered, and a flush is asked for at 50. |
| WsWire.Broadcaster.GrabBatch | internal/api/server.go:1695-1705 | The locked half of a flush. |
| WsWire.Broadcaster.WriteBatch | internal/api/server.go:1707-1764 | The unlocked half: the deduplicated batch is appended to what the client has. |

## Left out

- Floating-point rounding, NaN and overflow; integer widths except the 32-bit hash.
- Latitude/longitude conversion, great-circle distance and path-loss formulas: transcendental functions.
- Trilateration.Trilaterate: the frame stays that of the first valid tap when outliers are removed; GDOP, the overall confidence and the rounding of the result are not modelled.
- ErrorEllipse.Axes: the orientation of the ellipse (an arc tangent) is not modelled.
- Kalman.DroneKalmanFilter.Update: a zero timestamp (replaced by the current time) and the moving reference point are not modelled; the reset after a long gap is modelled as the self-lock it is.
- KalmanRegistry: creation per drone and eviction of the oldest filter, which would repeat `IdentityMemory` with easier members.
- ControllerLink.ControllerCorrelator.Correlate: the linked-id fields on the drones are not modelled; identifiers of the snapshot are taken to be distinct, as the store guarantees.
- DroneStore.StateManager.UpdateDrone: drones are values, so sharing of drone pointers with readers is not captured; of their fields only identity, controller flag, track number, status, last-seen time and detection count are modelled, not the merge rules of position, operator and signal fields.
- DroneStore.StateManager.Cleanup: the time-outs of taps and suspects in the same routine are not modelled.
- HydrateDrone (single), trails, taps, suspects' promotion into drones and the event broadcast of the state manager.
- RssiStats.ComputeMobilityProfile: the duration field of the profile is not modelled.
- RssiTracker.Tracker.Observe: sample times, the distance estimate, the cached mobility profile and the removal of stale drones (after which a drone starts anew) are not modelled.
- CalibrationWindow.Calibrator.RecordCalibrationPoint: the point counter and update time, and the reverse path-loss formula that yields the reference power of a point, are not modelled.
- SuspectCorrelator.Correlator.AddObservation: observed signal strength, channel and the informational result fields are not modelled.
- DbPipeline.StepKeepsValid: an offer after the queue is closed is not an action of the model (the send would panic); timers and sleeps only decide when an action happens.
- WsWire.LastWordIff: an event holds a pointer to a drone that is read when the message is encoded, so the payload of the model names the emission and not the contents sent; events dropped by a full subscriber channel, clients that join or leave during a run, and the encoding are not modelled.
- The spoof detector, the detection cache, message parsers, authentication, storage, HTTP, NATS, TAK and Telegram code.
