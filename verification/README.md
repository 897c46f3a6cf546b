# Verified model of the portfolio warehouse

This project models the decision and execution core of a portfolio warehouse and proves what it promises. Run
`dafny verify dfyconfig.toml` here.

- **Mean-variance rebalance** (`Vectors`, `CappedSimplex`, `QpSolver`, `SolverBounds`, `SolverContraction`,
  `SolverQuality`, `Rounding`, `Turnover`, `Rebalance`, `RebalanceOnInputs`, `Sleeves`). A bisection projects onto a
  box with a fixed sum, a projected-gradient loop maximises `wᵀμ − (λ/2)wᵀΣw`, a turnover budget shortens the step,
  and the result is quantized to six decimals.
- **Black-Litterman beliefs** (`GaussJordan`, `BlackLitterman`, `BlendSolutions`, `ViewsOnInputs`). An in-place
  Gauss-Jordan inverse with partial pivoting feeds the blend of a prior with confidence-weighted views.
- **Wash-sale chains and harvest planners** (`Lots`, `UnionFind`, `Closure`, `WashChains`, `ChainsOnInputs`,
  `Harvest`, `HarvestOptimality`, `HarvestOnInputs`, `HarvestChains`). Union-find with path halving computes chains of
  wash-linked lots; two planners pick losses to harvest behind a wash-sale guard. The proofs tie the three together.
- **Approval, staging, orders and report sign-off** (`Workflow`, `Services`, `WorkflowSafety`, `WorkflowInvariants`,
  `CallsOnInputs`, `Rollbacks`, `AuditReplay`, `WorkflowTheorems`, `WorkflowWitnesses`). `Services.Session` changes
  the rows in place, one method per service function; each method is proved to perform its step of `Workflow`, and the
  claims hold in every state of every run of sessions from empty tables, committed or rolled back.
- **Reconciliation and stock splits** (`Reconciliation`, `ReconciliationTheorems`, `ReconciliationOnInputs`,
  `ReconciliationGate`, `Splits`, `SplitsOnInputs`). `ReconciliationGate` joins the breaks of a reconciliation to the
  delivery gate of the reports.

The modules named `…OnInputs` state the contracts once more on the inputs alone, in literal constants and fields, so
that what an operation computes does not rest on the helper functions its contract is written with.

Numbers are exact reals. Fresh uuids, the clock, the renderer and the order in which the database returns tied rows
are inputs of a step; a run is admissible when the uuids it draws are unused.

## Where the code does less than its documentation says

- qp.py:51-53 calls the bisection root unique. The projected vector is unique; the multiplier is exactly when some
  coordinate still moves on either side of it, which for a total means that it is not the mass of a separated corner
  of the box (`CappedSimplex.MultiplierUniqueIff`, `CappedSimplex.RootUniqueIff`,
  `CappedSimplex.MultiplierNotUnique`).
- Floors above caps are not checked anywhere; the projection stays in its bounds exactly when there are none
  (`CappedSimplex.ClipInBox`), and a box with one passes the feasibility guard (`QpSolver.FloorAboveCap`).
- Targets respect their bounds after quantization exactly when the bounds survive quantization themselves
  (`Rounding.QuantizeBoxIff`); a finer floor is undercut (`Rounding.OffGridFloorEscapes`).
- rebalance.py:222-229 calls the turnover budget a hard cap that the convex step meets. Before rounding it is met
  exactly when the scaled step lies in the box, whether or not the current book does, and exceeded otherwise
  (`Turnover.BudgetMetIff`, `Turnover.BudgetMissed`, `Turnover.ViolatorMeetsBudget`), by at most twice the violation
  that the step leaves (`Turnover.BudgetedTurnover`). The comment at rebalance.py:243-247 says as much for violating
  books.
- black_litterman.py:14-19 lets confidence alone decide how far a view moves its sleeve. It does so only while the Ω
  floor is not engaged (`BlackLitterman.ViewMovesByConfidence`, `BlackLitterman.FloorEngages`).
- Staging is idempotent per approval, not per run: two approved requests of one run order its trades twice
  (`WorkflowTheorems.RunOrderedOnceIff`, `WorkflowWitnesses.DoubleStaging`).
- report_approval_status promises the most recent request's status and breaks ties arbitrarily. It surely reads
  approved exactly when an approval is strictly newer than every other verdict (`WorkflowTheorems.GateApprovedIff`); a
  sign-off in the same instant as another request of the snapshot may deliver nothing
  (`WorkflowTheorems.ApproveDeliversIff`, `WorkflowWitnesses.RivalBlocksDelivery`).
- cli.py:386-387 and writer.py:322-327 promise that the client PDF cannot exist without a named decision. Within one
  committed session it cannot. A file is outside the transaction, though: when rendering fails and leaves one, or the
  commit fails after it, the approval is rolled back and the PDF stays; and the PDF command asks no gate at all. The
  promise is kept over a whole run exactly when every PDF left in one of these ways is of a snapshot signed before
  (`Rollbacks.PdfSignedIff`, `Rollbacks.CommandSignedIff`, `WorkflowWitnesses.UnsignedPdf`,
  `WorkflowWitnesses.UngatedPdf`). A PDF is not withdrawn by a later verdict, which nobody promises
  (`WorkflowTheorems.DeliveredGateIff`, `WorkflowWitnesses.PdfOutlivesRejection`).
- The fill event is outside the transaction too: an order has exactly one event per fill exactly when no fill of it
  was rolled back (`AuditReplay.FilledOnceIff`, `WorkflowWitnesses.FillRolledBack`).
- The PDF branch of a report build cannot be reached: the snapshot id is new (`WorkflowTheorems.BuildNeverDelivers`).
- Reconciliation compares row by row, so a position reported on two rows breaks although its total agrees
  (`ReconciliationTheorems.SplitRowsBreak`).

One limit is as documented, and its exact extent is proved. The pivot threshold of the inverse is absolute
(black_litterman.py:47-48), so a matrix is refused exactly when it is singular or its smallest pivot is under the
threshold, and scaling a matrix scales that pivot (`GaussJordan.RefusedIff`, `GaussJordan.ScaleLaw`). With a positive
semidefinite covariance the blend's equation has exactly one solution even then
(`BlendSolutions.BlendHasOneSolution`).

The solver's passes end in two regimes. Without any curvature the ascent argument ends them at coarse tolerances only
(`SolverBounds.SolverStops`, `SolverBounds.GainIsCoarse`). When the covariance curves, every pass contracts and the
configured tolerance of 1e-9 is reached (`SolverContraction.StopsByContraction`,
`SolverContraction.StopsAsConfigured`).

## Model

| member | source | states |
|---|---|---|
| `CappedSimplex.ProjectCappedSimplex` | src/warehouse/decision/optimizer/qp.py:40-75 | bisection: the result is a clipped shift of v; over a real box it lies in the box and its sum misses the attainable mass by at most max(1e-12, n·bracket/2^iters), for any number of halvings; an empty vector is refused |
| `CappedSimplex.ClipInBox` | src/warehouse/decision/optimizer/qp.py:58 | the clipped vector lies in the bounds if and only if every floor is under its cap |
| `CappedSimplex.ClipVariational` | src/warehouse/decision/optimizer/qp.py:57-59 | variational inequality (v−w)·(u−w) ≤ τ·(Σu−Σw) for every box point u and any multiplier, exact or not |
| `CappedSimplex.ClipIsClosest` | src/warehouse/decision/optimizer/qp.py:48-75 | the clipped vector is the unique closest point to v among the box points of its own mass: ‖v−u‖² ≥ ‖v−w‖² + ‖u−w‖² |
| `CappedSimplex.MassMonotone` | src/warehouse/decision/optimizer/qp.py:51-53 | the mass falls as the multiplier rises, by at most n per unit |
| `CappedSimplex.MassAtEnds` | src/warehouse/decision/optimizer/qp.py:61-64 | at the initial lower end every coordinate is at its cap, at the upper end at its floor |
| `CappedSimplex.ProjectionExists` | src/warehouse/decision/optimizer/qp.py:48-54 | a multiplier with exactly the requested mass exists if and only if Σlo ≤ total ≤ Σhi |
| `CappedSimplex.UniqueAboveIff` | src/warehouse/decision/optimizer/qp.py:51-53 | no larger multiplier has the same mass if and only if some coordinate is strictly above its floor and not above its cap |
| `CappedSimplex.UniqueBelowIff` | src/warehouse/decision/optimizer/qp.py:51-53 | no smaller multiplier has the same mass if and only if some coordinate is strictly below its cap and not below its floor |
| `CappedSimplex.MultiplierUniqueIff` | src/warehouse/decision/optimizer/qp.py:51-54 | a multiplier is the only root of its mass if and only if some coordinate still falls above it and some still rises below it |
| `CappedSimplex.RootUniqueIff` | src/warehouse/decision/optimizer/qp.py:51-54 | stated on the inputs alone: a total has two roots if and only if it is the mass of a corner of the box whose capped coordinates are separated from its floored ones |
| `CappedSimplex.MultiplierNotUnique` | src/warehouse/decision/optimizer/qp.py:51-54 | a concrete input on which the documented uniqueness fails |
| `CappedSimplex.BracketMass` | src/warehouse/decision/optimizer/qp.py:66-74 | what a bracket halved k times says about the mass at either of its ends |
| `QpSolver.GershgorinBound` | src/warehouse/decision/optimizer/qp.py:78-82 | xᵀΣx is at most the largest absolute row sum times ‖x‖² for symmetric Σ |
| `QpSolver.StepCurvature` | src/warehouse/decision/optimizer/qp.py:121-124 | in both branches of the step size, step·λ·dᵀΣd ≤ ‖d‖² |
| `QpSolver.ObjectiveExpansion` | src/warehouse/decision/optimizer/qp.py:3-4 | f(u) − f(w) is the gradient part plus exactly the curvature of u − w |
| `QpSolver.ThreePoint` | src/warehouse/decision/optimizer/qp.py:128-139 | three-point inequality of one pass for any multiplier: 2·step·(f(u)−f(w⁺)) ≤ ‖u−w‖² − ‖u−w⁺‖² + 2τ(Σu−Σw⁺) |
| `QpSolver.StepAscends` | src/warehouse/decision/optimizer/qp.py:128-139 | every pass ascends by ‖w⁺−w‖²/(2·step), up to what a change of mass costs; no convexity needed |
| `QpSolver.FixedPointIffOptimal` | src/warehouse/decision/optimizer/qp.py:128-139 | with Σ positive semidefinite, the box points a pass leaves alone are exactly the global maximisers of their mass |
| `QpSolver.OptimalIsFixed` | src/warehouse/decision/optimizer/qp.py:128-139 | a maximiser is left alone by some multiplier, without convexity |
| `QpSolver.RunStaysInBox` | src/warehouse/decision/optimizer/qp.py:126-140 | every iterate of a run stays in the box |
| `QpSolver.FailedTestsAscend` | src/warehouse/decision/optimizer/qp.py:136-139 | N passes that fail the stop test satisfy N·tol² ≤ 2·step·(f_N − f_0) up to the drift of the mass |
| `QpSolver.StopTestFires` | src/warehouse/decision/optimizer/qp.py:128-139 | with exact projections the stop test fires within 2·step·(F − f_0)/tol² passes, F bounding f on the box; max_iters is not needed |
| `SolverBounds.CandidateReach` | src/warehouse/decision/optimizer/qp.py:121-134 | the projected point is bounded by twice the iterate plus step times the returns; λ and Σ cancel |
| `SolverBounds.SolverErrors` | src/warehouse/decision/optimizer/qp.py:61-75 | along any solver run every multiplier is at most Reach, every sum misses its common goal by at most Off and one by at most Miss, all computed from the inputs |
| `SolverBounds.SolverStops` | src/warehouse/decision/optimizer/qp.py:128-140 | any covariance, coarse tolerances: with the bisection’s own errors the stop test fires within 2·step·(F − f_0)/(tol² − 4·Reach·Off) passes; the condition needs a tolerance over 2e-6 and so excludes the configured one |
| `SolverBounds.GainIsCoarse` | src/warehouse/config.py:69 | at tolerances up to 2e-6, the configured one included, the ascent argument never applies |
| `SolverBounds.SolverStopsByTest` | src/warehouse/decision/optimizer/qp.py:128-140 | a solver allowed that many passes leaves its loop through the stop test, at the same coarse tolerances |
| `SolverBounds.SolverCertificate` | src/warehouse/decision/optimizer/qp.py:126-140 | an answer that passed the stop test is short of every feasible portfolio, the maximiser included, by at most (tol·Σ(hi−lo) + Reach·Miss)/step |
| `SolverBounds.SolverRate` | src/warehouse/decision/optimizer/qp.py:126-140 | with the bisection’s own errors 2·N·step·(f(u) − f(w_N)) ≤ ‖u−w_0‖² + 2·N·Reach·Miss + 2·N(N−1)·Reach·Off for every feasible u |
| `SolverContraction.ClipPairs` | src/warehouse/decision/optimizer/qp.py:57-59 | two projections of one mass are no further apart than what was projected: ‖w⁺−v⁺‖² ≤ (c−c’)·(w⁺−v⁺) |
| `SolverContraction.PassContracts` | src/warehouse/decision/optimizer/qp.py:128-139 | when step·λ·xᵀΣx ≥ (1−q)‖x‖², one pass shrinks the distance of any two points by the factor q, their new masses being equal |
| `SolverContraction.PassShrinks` | src/warehouse/decision/optimizer/qp.py:128-139 | the same for any two masses, up to their difference |
| `SolverContraction.PassesSettle` | src/warehouse/decision/optimizer/qp.py:126-140 | consecutive iterates of any solver run are within q^k·Σ(hi−lo) + 2·Off/(1−q) |
| `SolverContraction.StopTestHolds` | src/warehouse/decision/optimizer/qp.py:136-138 | once that is under the tolerance every further pass passes the stop test |
| `SolverContraction.StopsByContraction` | src/warehouse/decision/optimizer/qp.py:128-140 | a solver allowed more than k passes leaves its loop through the stop test after at most k + 1 |
| `SolverContraction.StopsAsConfigured` | src/warehouse/config.py:69-70 | tolerance 1e-9 and 5000 passes: with at least one percent of the curvature used and inputs of sane size, every run stops through the test within 2871 passes |
| `SolverContraction.MarginBound` | src/warehouse/decision/optimizer/qp.py:78-82 | the mirror image of the Gershgorin bound: xᵀΣx is at least the smallest diagonal margin times ‖x‖² |
| `SolverContraction.DominantIsCurved` | src/warehouse/decision/optimizer/qp.py:121-124 | a dominant diagonal gives the factor q from the inputs |
| `SolverContraction.DominantStopsAsConfigured` | src/warehouse/config.py:69-70 | the configured solver stops through its test, on conditions that can be read off the problem |
| `SolverContraction.UncorrelatedIsCurved` | src/warehouse/decision/optimizer/qp.py:121-124 | a concrete problem that meets those conditions |
| `SolverContraction.SolverConverges` | src/warehouse/decision/optimizer/qp.py:126-140 | the k-th iterate is within q^k·Σ(hi−lo) + Off/(1−q) of the maximiser of the goal’s mass |
| `SolverContraction.MaximiserUnique` | src/warehouse/decision/optimizer/qp.py:3-4 | such a problem has at most one maximiser of each mass |
| `QpSolver.RegretBound` | src/warehouse/decision/optimizer/qp.py:128-139 | against any box point the shortfalls of a run add up to at most ‖u−w_0‖², up to the mass terms |
| `QpSolver.ConvergenceRate` | src/warehouse/decision/optimizer/qp.py:128-139 | with exact projections 2·N·step·(f(u) − f(w_N)) ≤ ‖u−w_0‖² for every feasible u |
| `QpSolver.StopCertificate` | src/warehouse/decision/optimizer/qp.py:136-138 | when the stop test passes, the new point is within tol·Σ(hi−lo)/step of the best point of its mass |
| `SolverQuality.PassOnInputs` | src/warehouse/decision/optimizer/qp.py:121-134 | what one pass projects, entry by entry: each weight plus (μ − λΣw) over λ times the largest row sum of magnitudes, over one where that product is at most 1e-12 |
| `SolverQuality.ObjectiveOnInputs` | src/warehouse/decision/optimizer/qp.py:3-4 | the objective, entry by entry |
| `SolverQuality.StartOnInputs` | src/warehouse/decision/optimizer/qp.py:126 | the first iterate is 1/n, shifted by one multiplier and held between the bounds |
| `SolverQuality.StopOnInputs` | src/warehouse/decision/optimizer/qp.py:128-140 | every pass but the last moved some weight by at least the tolerance, and unless the passes ran out the last one moved every weight by less |
| `SolverQuality.SumOnInputs` | src/warehouse/decision/optimizer/qp.py:61-75 | every iterate sums to one within 1e-12 when the box can hold one and 200 halvings reach that far |
| `SolverQuality.AnswerNearBest` | src/warehouse/decision/optimizer/qp.py:121-140 | an answer that passed the stop test is short of every portfolio of the box that sums to one by at most max(1, λ·row sum)·(tol·Σ(hi−lo) + (1 + 3b + m)·miss), written from the inputs; the step size plays no part |
| `SolverQuality.MixAnswer` | src/warehouse/decision/optimizer/qp.py:121-140 | a concrete problem whose answer is (2/3, 1/3) within 1e-9 after the first pass |
| `QpSolver.GuardIsFeasibility` | src/warehouse/decision/optimizer/qp.py:108-119 | the guard passes if and only if some box point sums to one within 1e-9 |
| `QpSolver.FloorAboveCap` | src/warehouse/decision/optimizer/qp.py:109-119 | a concrete box with a floor over its cap: the guard passes, and every projection of mass one undercuts the floor |
| `QpSolver.ProjectToOne` | src/warehouse/decision/optimizer/qp.py:127-135 | inside the solver the projection lands in the box, its sum off one by at most the bisection error plus the guard slack |
| `QpSolver.SolveQp` | src/warehouse/decision/optimizer/qp.py:85-140 | each error exactly under its guard; otherwise the answer ends a run from the projected uniform weights that stopped at the first pass closer than tol or at max_iters |
| `Rounding.QuantizeMonotone` | src/warehouse/decision/optimizer/rebalance.py:208 | half-even rounding to six decimals is monotone |
| `Rounding.QuantizeNear` | src/warehouse/decision/optimizer/rebalance.py:208 | it moves a value by at most half a quantum |
| `Rounding.NearestEven` | src/warehouse/decision/optimizer/rebalance.py:201-208 | the result is a whole number of quanta, the nearest, and the even one of two that are as near |
| `Rounding.SixDecimals` | src/warehouse/decision/optimizer/rebalance.py:201-208 | six decimals, at most 5e-7 away, ties to even |
| `Rounding.QuantizeOnGrid` | src/warehouse/decision/optimizer/rebalance.py:208 | it lands on the grid and fixes exactly the grid |
| `Rounding.QuantizeBoxIff` | src/warehouse/decision/optimizer/rebalance.py:201-208 | clip-then-quantize keeps every value in its bounds if and only if quantizing does not push the bounds themselves out |
| `Rounding.OffGridFloorEscapes` | src/warehouse/decision/optimizer/rebalance.py:201-208 | a concrete floor off the six-decimal grid that the result undercuts |
| `Rounding.GridBoundsHold` | src/warehouse/decision/optimizer/rebalance.py:201-208 | bounds on the grid are kept |
| `Turnover.BudgetedStepLength` | src/warehouse/decision/optimizer/rebalance.py:222-250 | the scaled step has L1 length exactly the budget |
| `Turnover.StepTotal` | src/warehouse/decision/optimizer/rebalance.py:250 | the scaled step mixes the two totals in the same proportion |
| `Turnover.StepStaysInBox` | src/warehouse/decision/optimizer/rebalance.py:243-245 | from box-feasible current weights the step stays in the box |
| `Turnover.StepViolation` | src/warehouse/decision/optimizer/rebalance.py:246-247 | from a violating book the step leaves at most the remaining share of the violation |
| `Turnover.ShiftMovesByMass` | src/warehouse/decision/optimizer/qp.py:57-59 | two projections of one vector differ in L1 by exactly the difference of their masses |
| `Turnover.ProjectionMovesByMass` | src/warehouse/decision/optimizer/rebalance.py:251 | projecting an in-box vector moves it in L1 by exactly the mass it gains or loses |
| `Turnover.ProjectionMoves` | src/warehouse/decision/optimizer/rebalance.py:245-251 | projecting any vector moves it by at most twice its violation plus that mass |
| `Turnover.QuantizeMoves` | src/warehouse/decision/optimizer/rebalance.py:252-255 | quantization moves the vector and its total by at most half a quantum per sleeve |
| `Turnover.QuantizeStaysInBox` | src/warehouse/decision/optimizer/rebalance.py:201-208 | on grid bounds the quantized vector stays in the box |
| `Turnover.BudgetedTurnover` | src/warehouse/decision/optimizer/rebalance.py:235-255 | scaled, projected with any multiplier and quantized: the final turnover is the budget up to rounding, moved mass and twice the violation that remains |
| `Turnover.ProjectionNeverShortens` | src/warehouse/decision/optimizer/rebalance.py:243-251 | projecting a proper step at its own total never shortens it, and keeps its length if and only if the step is in the box |
| `Turnover.BudgetMetIff` | src/warehouse/decision/optimizer/rebalance.py:222-251 | with exact totals the projected step trades at least the budget, and exactly the budget if and only if the scaled step lies in the box |
| `Turnover.BudgetMetNearly` | src/warehouse/decision/optimizer/rebalance.py:243-251 | whatever total the projection hits, the turnover is at least the budget less that miss, and from an in-box step at most the budget plus it |
| `Turnover.BudgetMissed` | src/warehouse/decision/optimizer/rebalance.py:246-247 | a concrete violating book that trades five times its budget |
| `Turnover.ViolatorMeetsBudget` | src/warehouse/decision/optimizer/rebalance.py:243-245 | a concrete violating book that trades exactly its budget |
| `Rebalance.CurrentWeights` | src/warehouse/decision/optimizer/rebalance.py:74-88 | weights are sleeve value over market value, present exactly for sleeves with a priced lot; refused exactly without market value |
| `Rebalance.SelectDistinct` | src/warehouse/decision/optimizer/rebalance.py:139-142 | the universe has no repeated sleeve |
| `Rebalance.AssembleBounds` | src/warehouse/decision/optimizer/rebalance.py:174-186 | bounds per sleeve from the last target of its class, [0, 1] and flagged exactly when there is none |
| `Rebalance.SleevesPartitionValue` | src/warehouse/decision/optimizer/rebalance.py:77-87 | over distinct sleeves covering the book, sleeve values add up to the market value |
| `Rebalance.CurrentWeightsSumToOne` | src/warehouse/decision/optimizer/rebalance.py:136-199 | current weights over the universe sum to exactly one, over one to six distinct sleeves |
| `Rebalance.MassErrorSmall` | src/warehouse/decision/optimizer/qp.py:66-70 | 200 halvings bring any sane bracket over at most six sleeves below 1e-12 |
| `Rebalance.CandidateWithin` | src/warehouse/decision/optimizer/qp.py:121-134 | the gradient step stays of sane size whatever λ and Σ |
| `Rebalance.SolvedMass` | src/warehouse/decision/optimizer/rebalance.py:189-197 | the solver answer is in the box and sums to one within 1e-12 + 1e-9 |
| `Rebalance.ApplyBudget` | src/warehouse/decision/optimizer/rebalance.py:241-255 | the budgeted target is the quantized projection of the scaled step |
| `Rebalance.BudgetedTarget` | src/warehouse/decision/optimizer/rebalance.py:235-266 | the budgeted target sums to one within 3.1e-6 and has the budgeted turnover within 1e-5 and twice the remaining violation |
| `Rebalance.ChooseTarget` | src/warehouse/decision/optimizer/rebalance.py:235-257 | the budget binds exactly when it is set and exceeded; a binding target is the quantized projection of the scaled step, otherwise the unconstrained target is returned unchanged |
| `Rebalance.SolveQuantized` | src/warehouse/decision/optimizer/rebalance.py:188-216 | the quantized answer of a solver run that stopped where it should; in the box on grid bounds, total within 3.1e-6 of one |
| `Rebalance.CurrentWeightVector` | src/warehouse/decision/optimizer/rebalance.py:136-199 | the current weight vector of the book, refused exactly without market value |
| `Rebalance.RunMvRebalance` | src/warehouse/decision/optimizer/rebalance.py:100-268 | the whole pipeline: each refusal exactly under its guard, the Σ = 1 re-assertion never fires on sane bounds, and a proposal describes this book, sums to one, respects grid bounds and the turnover budget, its unconstrained target being the quantized solver answer and a binding target the quantized projection of the budgeted step |
| `RebalanceOnInputs.BoundsOnTargets` | src/warehouse/decision/optimizer/rebalance.py:174-187 | the assembled bounds are exactly each sleeve’s own floor and cap: those of its last target, or 0 and 1 without one |
| `RebalanceOnInputs.InfeasibleOnTargets` | src/warehouse/decision/optimizer/qp.py:108-119 | refused exactly when the targets’ own floors sum to over 1 + 1e-9 or their caps to under 1 − 1e-9, with that sum named, floors first |
| `RebalanceOnInputs.UniverseOnInputs` | src/warehouse/decision/optimizer/rebalance.py:137-142 | the sleeves priced or targeted, each once, in canonical order |
| `RebalanceOnInputs.WeightOnInputs` | src/warehouse/decision/optimizer/rebalance.py:74-91 | a weight times the total of all priced values is the total of the sleeve’s own |
| `RebalanceOnInputs.ProblemOnInputs` | src/warehouse/decision/optimizer/rebalance.py:144-187 | the solver is given the priors of the sleeves, in the order of the universe |
| `RebalanceOnInputs.ProposalOnInputs` | src/warehouse/decision/optimizer/rebalance.py:142-268 | universe, flags, weights, trades, both turnovers and the binding flag of a proposal, from positions and targets; the target sums to one within 1e-4 |
| `RebalanceOnInputs.TargetsMet` | src/warehouse/decision/optimizer/rebalance.py:174-208 | with floors under caps, all to six decimals, the proposal meets every target of the policy and keeps a free sleeve in [0, 1] |
| `RebalanceOnInputs.BudgetMet` | src/warehouse/decision/optimizer/rebalance.py:222-255 | from current weights inside the policy a binding budget is met within 1e-5 |
| `RebalanceOnInputs.StepOnInputs` | src/warehouse/decision/optimizer/rebalance.py:243-250 | the budgeted step moves each weight in the proportion of the budget to the unconstrained turnover |
| `RebalanceOnInputs.ProposalNearBest` | src/warehouse/decision/optimizer/rebalance.py:189-216 | the unconstrained target is within 5e-7 of a portfolio of the box that is near the best in the sense of AnswerNearBest |
| `GaussJordan.PivotKeepsSolutions` | src/warehouse/decision/beliefs/black_litterman.py:69-71 | swapping and scaling the pivot row keeps the solution set of the augmented system |
| `GaussJordan.EliminateKeepsSolutions` | src/warehouse/decision/beliefs/black_litterman.py:72-78 | elimination keeps the solution set |
| `GaussJordan.ReduceKeepsSolutions` | src/warehouse/decision/beliefs/black_litterman.py:60-78 | a completed reduction keeps the solution set and turns the left half into the identity |
| `GaussJordan.InverseUndoes` | src/warehouse/decision/beliefs/black_litterman.py:51-79 | a returned B satisfies B(Ax) = x and A(Bx) = x for every x |
| `GaussJordan.InverseIsInverse` | src/warehouse/decision/beliefs/black_litterman.py:51-79 | A·B = I and B·A = I whenever B is returned |
| `GaussJordan.ZeroPivotMeansKernel` | src/warehouse/decision/beliefs/black_litterman.py:62-68 | a pivot of exactly zero exhibits a non-zero vector of the kernel |
| `GaussJordan.ReduceIffPivots` | src/warehouse/decision/beliefs/black_litterman.py:60-68 | the reduction finishes if and only if no pivot of exact arithmetic is under the threshold, and otherwise stops at one that is |
| `GaussJordan.PivotsScale` | src/warehouse/decision/beliefs/black_litterman.py:60-78 | scaling the matrix scales every pivot and keeps every pivot choice |
| `GaussJordan.InvertIffLeastPivot` | src/warehouse/decision/beliefs/black_litterman.py:52-68 | a matrix is inverted if and only if its smallest pivot reaches the threshold |
| `GaussJordan.LeastPivotZeroIff` | src/warehouse/decision/beliefs/black_litterman.py:52-68 | the smallest pivot is zero if and only if the matrix is singular |
| `GaussJordan.RefusedIff` | src/warehouse/decision/beliefs/black_litterman.py:47-68 | a refusal is of a singular matrix, or of an invertible one whose smallest pivot is under the threshold |
| `GaussJordan.ScaleLaw` | src/warehouse/decision/beliefs/black_litterman.py:47-68 | c·A is inverted if and only if c times the smallest pivot of A reaches the threshold |
| `GaussJordan.ScaleIffInvertible` | src/warehouse/decision/beliefs/black_litterman.py:47-68 | a positive scale from which on the multiples of a matrix are inverted, and below which refused, exists if and only if the matrix is invertible |
| `GaussJordan.SmallMatrixRefused` | src/warehouse/decision/beliefs/black_litterman.py:63-68 | a concrete invertible matrix under the threshold |
| `GaussJordan.FindPivot` | src/warehouse/decision/beliefs/black_litterman.py:62 | finds the first row of largest magnitude at or below the diagonal |
| `GaussJordan.RaisePivot` | src/warehouse/decision/beliefs/black_litterman.py:69-71 | in place: swap up and scale to a unit pivot |
| `GaussJordan.ClearColumn` | src/warehouse/decision/beliefs/black_litterman.py:72-78 | in place: subtract the pivot row from every other row with an entry in the column |
| `GaussJordan.InvertInPlace` | src/warehouse/decision/beliefs/black_litterman.py:51-79 | the in-place algorithm computes the specified inverse or refusal |
| `BlackLitterman.PosteriorIffSolves` | src/warehouse/decision/beliefs/black_litterman.py:159-162 | the posterior is the one and only solution of y = π + τΣPᵀΩ⁻¹(Q − Py), an equation without inverses |
| `BlendSolutions.SolutionExists` | src/warehouse/decision/beliefs/black_litterman.py:38-89 | every system of a matrix without a kernel has a solution, refused inverse or not |
| `BlendSolutions.BlendHasOneSolution` | src/warehouse/decision/beliefs/black_litterman.py:159-162 | with τΣ positive semidefinite, singular or not, the equation has exactly one solution for any views, whether or not the blend finds it |
| `BlendSolutions.PrecisionRegular` | src/warehouse/decision/beliefs/black_litterman.py:150-160 | the posterior precision then has no kernel |
| `BlendSolutions.BlendRefusesIff` | src/warehouse/decision/beliefs/black_litterman.py:52-68 | with mapped views the blend then refuses if and only if τΣ is refused or the smallest pivot of the precision, never zero, is under the threshold |
| `BlackLitterman.NoViewsNoSurprise` | src/warehouse/decision/beliefs/black_litterman.py:107-116 | without views the only solution is the prior |
| `BlackLitterman.ZeroExcessKeepsPrior` | src/warehouse/decision/beliefs/black_litterman.py:139-162 | views without excess leave the prior unmoved, however many and however confident |
| `BlackLitterman.ViewOrderIrrelevant` | src/warehouse/decision/beliefs/black_litterman.py:132-162 | the order of the views changes neither the posterior nor the kind of refusal |
| `BlackLitterman.DenominatorNonZero` | src/warehouse/decision/beliefs/black_litterman.py:144-162 | a successful one-view blend has ω + τσ_cc ≠ 0 |
| `BlackLitterman.SingleViewPosterior` | src/warehouse/decision/beliefs/black_litterman.py:132-162 | one view moves every sleeve by τ·excess/(ω + τσ_cc) times its covariance with the viewed sleeve |
| `BlackLitterman.ViewMovesByConfidence` | src/warehouse/decision/beliefs/black_litterman.py:142-162 | the viewed sleeve moves by exactly clamped confidence × excess if and only if the Ω floor is not engaged or there is no excess; the others then by their regression coefficient |
| `ViewsOnInputs.PosteriorOnInputs` | src/warehouse/decision/beliefs/black_litterman.py:127-162 | for any views the posterior is the one vector with y_i = π_i + Σ_k τσ_ij·(π_j + excess − y_j)/ω_k, ω_k being τσ_jj(1 − c)/c and at least 1e-12, c the confidence held in [0.000001, 0.999999] |
| `ViewsOnInputs.ConfidenceMoves` | src/warehouse/decision/beliefs/black_litterman.py:139-162 | a single view of confidence c in [0.000001, 0.999999] whose variance is not under 1e-12 moves its sleeve by exactly c times the excess |
| `ViewsOnInputs.ClampedConfidenceMoves` | src/warehouse/decision/beliefs/black_litterman.py:42-45 | outside that range by 0.999999 or 0.000001 times the excess |
| `ViewsOnInputs.PublishedOnInputs` | src/warehouse/decision/beliefs/black_litterman.py:164-169 | the published posterior has eight decimals, the nearest to the blend, ties to even |
| `ViewsOnInputs.PublishedMove` | src/warehouse/decision/beliefs/black_litterman.py:139-169 | one view publishes the prior plus confidence times excess within 5e-9 |
| `ViewsOnInputs.UnmappedOnInputs` | src/warehouse/decision/beliefs/black_litterman.py:132-137 | the first view outside the universe is named, after the covariance has been inverted |
| `ViewsOnInputs.ReciprocalOnInputs` | src/warehouse/decision/beliefs/black_litterman.py:52-68 | a one-by-one matrix is inverted exactly when its entry reaches 1e-12 in magnitude, to its reciprocal |
| `BlackLitterman.FloorEngages` | src/warehouse/decision/beliefs/black_litterman.py:142-162 | a concrete market and full-confidence view on which the floor engages, the blend answers and the viewed sleeve does not move by confidence × excess |
| `BlackLitterman.BlendAnswers` | src/warehouse/decision/beliefs/black_litterman.py:132-162 | a concrete market and view that the blend answers: half of the excess at confidence one half |
| `BlackLitterman.PickViews` | src/warehouse/decision/beliefs/black_litterman.py:127-148 | builds P, Q, Ω⁻¹, or names the first view outside the universe |
| `BlackLitterman.PickedColumn` | src/warehouse/decision/beliefs/black_litterman.py:154 | finds the one column of a one-hot row |
| `BlackLitterman.AccumulateViews` | src/warehouse/decision/beliefs/black_litterman.py:150-157 | accumulates the diagonal of PᵀΩ⁻¹P and PᵀΩ⁻¹Q |
| `BlackLitterman.BlackLitterman` | src/warehouse/decision/beliefs/black_litterman.py:92-170 | the published posterior: the prior untouched without views, otherwise the blend within half of 1e-8 |
| `UnionFind.Finder.constructor` | src/warehouse/data/ledger/wash_chains.py:51-52 | every key is alone in its class |
| `UnionFind.Finder.Find` | src/warehouse/data/ledger/wash_chains.py:54-58 | returns the representative and changes no representative, although it rewrites parents; terminates on a rank |
| `UnionFind.Finder.Union` | src/warehouse/data/ledger/wash_chains.py:60-64 | merges exactly two classes and keeps the forest acyclic |
| `UnionFind.RootDetermined` | src/warehouse/data/ledger/wash_chains.py:54-58 | the parent map alone determines the representatives |
| `UnionFind.HalvingKeepsRoots` | src/warehouse/data/ledger/wash_chains.py:56 | pointing a key at its grandparent keeps the forest and every representative |
| `UnionFind.LinkMerges` | src/warehouse/data/ledger/wash_chains.py:63-64 | linking one root under another merges exactly the two classes |
| `Closure.SameRootIffConnected` | src/warehouse/data/ledger/wash_chains.py:88-115 | keys share a representative exactly when a path of links joins them |
| `Closure.MergeComputes` | src/warehouse/data/ledger/wash_chains.py:111 | merging the classes of a new link again computes the closure of all links |
| `WashChains.AssignChains` | src/warehouse/data/ledger/wash_chains.py:67-132 | meets the assignment specification: no id for a lot alone in its component, otherwise the least lot id; unknown sells refused |
| `WashChains.AddLinks` | src/warehouse/data/ledger/wash_chains.py:90-111 | one sell adds exactly its links to the computed closure, none unless at a loss |
| `WashChains.GroupByRoot` | src/warehouse/data/ledger/wash_chains.py:113-115 | groups every key exactly once by representative |
| `WashChains.LabelComponents` | src/warehouse/data/ledger/wash_chains.py:117-125 | labels every member of every component |
| `WashChains.AssignmentUnique` | src/warehouse/data/ledger/wash_chains.py:67-132 | the specification pins the result |
| `WashChains.SharedIdIffConnected` | src/warehouse/data/ledger/wash_chains.py:74-78 | two lots share an id exactly when connected by loss-sell links |
| `WashChains.NoIdIffUnlinked` | src/warehouse/data/ledger/wash_chains.py:74-78 | a lot has no id exactly when no link touches it |
| `WashChains.ChainsAreClosure` | src/warehouse/data/ledger/wash_chains.py:67-132 | lot by lot, the assigned ids are exactly the equivalence closure of the loss-sell links |
| `ChainsOnInputs.LinksOnInputs` | src/warehouse/data/ledger/wash_chains.py:90-111 | the links are exactly these: a loss sell of a lot, and another lot of the same security or group bought within the window of it |
| `ChainsOnInputs.ChainIdsOnInputs` | src/warehouse/data/ledger/wash_chains.py:113-132 | on lots and sells alone: nothing but chain ids changes, two lots share one exactly when such joins lead from one to the other, a lot has none exactly when no join touches it, and the id is the first in dictionary order |
| `ChainsOnInputs.LeIsBefore` | src/warehouse/data/ledger/wash_chains.py:123 | dictionary order: a prefix, or smaller at the first difference |
| `ChainsOnInputs.RefusalsOnInputs` | src/warehouse/data/ledger/wash_chains.py:79-86 | unknown sold ids are refused, all named, unless there are no lots |
| `ChainsOnInputs.OnlyLossesCount` | src/warehouse/data/ledger/wash_chains.py:90-92 | dropping the sells that are not at a loss changes nothing |
| `ChainsOnInputs.NoLossNoChain` | src/warehouse/data/ledger/wash_chains.py:90-92 | without a sell at a loss no lot has a chain id |
| `ChainsOnInputs.LossSellChains` | src/warehouse/data/ledger/wash_chains.py:90-111 | a lot sold at a loss and an identical lot bought within the window share a chain id |
| `ChainsOnInputs.OracleOnInputs` | src/warehouse/data/ledger/wash_chains.py:135-166 | the linked ids of one sell, from the lots |
| `WashChains.SellOrderIrrelevant` | src/warehouse/data/ledger/wash_chains.py:90-111 | neither the order of the sells nor repeating one changes the assignment |
| `WashChains.AssignmentIdempotent` | src/warehouse/data/ledger/wash_chains.py:127-132 | assigning again from the labelled lots changes nothing |
| `WashChains.LinkedLotIdsForSell` | src/warehouse/data/ledger/wash_chains.py:135-163 | computes the lots linked to one sell |
| `WashChains.LinkedIdsAreLinks` | src/warehouse/data/ledger/wash_chains.py:135-163 | the oracle and the assignment agree: the other linked ids are exactly the links of a loss sell |
| `Harvest.EvaluateWashSaleRisk` | src/warehouse/decision/constraints.py:45-69 | one trigger per offending lot, in position order |
| `Harvest.ClearIffNoTrigger` | src/warehouse/decision/constraints.py:54-69 | the guard is empty exactly when no other substantially identical lot was acquired within the window |
| `Harvest.SortFacts` | src/warehouse/decision/optimizer/heuristics.py:68-75 | the stable sort permutes and orders |
| `Harvest.CheckBands` | src/warehouse/decision/optimizer/heuristics.py:54-63 | the policy band tags of the current weights, refused exactly without market value |
| `Harvest.Decide` | src/warehouse/decision/optimizer/heuristics.py:77-87 | one loss lot: sold exactly when harvestable, otherwise the tags that say why |
| `Harvest.RunTaxAwareOptimizer` | src/warehouse/decision/optimizer/heuristics.py:39-121 | sells the harvestable losses, largest first; tax delta and binding tags stated in full |
| `Harvest.RunMipOptimizer` | src/warehouse/decision/optimizer/mip.py:26-115 | sells the best scores up to the cap; tax delta and binding tags stated in full |
| `HarvestOnInputs.HarvestableOnInputs` | src/warehouse/decision/constraints.py:23-69 | exactly the lots with a loss and a price, unrestricted, and without an identical lot bought within thirty days are harvested |
| `HarvestOnInputs.TaxOnInputs` | src/warehouse/decision/optimizer/heuristics.py:20-36 | the gain at the long-term rate from 365 days on, at the short-term rate before |
| `HarvestOnInputs.ScoreOnInputs` | src/warehouse/decision/optimizer/mip.py:67-73 | market value times score is the magnitude of the tax effect; zero without a positive value |
| `HarvestOnInputs.TotalTaxOnInputs` | src/warehouse/decision/optimizer/heuristics.py:88-91 | the tax delta is the total of the tax effects |
| `HarvestOnInputs.TradesOnInputs` | src/warehouse/decision/optimizer/heuristics.py:92-103 | a trade sells the whole lot under its own ids |
| `HarvestOnInputs.OrderOnInputs` | src/warehouse/decision/optimizer/mip.py:76-77 | largest loss first, best score first |
| `HarvestOnInputs.PlansStable` | src/warehouse/decision/optimizer/mip.py:76-77 | ties keep the order of the book |
| `HarvestOnInputs.NegativeCap` | src/warehouse/decision/optimizer/mip.py:77 | a negative cap drops that many lots from the end |
| `HarvestOnInputs.RefusalOnInputs` | src/warehouse/decision/constraints.py:23-69 | the tags of a loss lot that is not sold: the first reason, or every washing lot by name |
| `HarvestOnInputs.SameRefusals` | src/warehouse/decision/optimizer/heuristics.py:77-87 | the heuristic reports the refusals of all lots |
| `HarvestOnInputs.BandTagsOnInputs` | src/warehouse/decision/optimizer/heuristics.py:105-110 | a band tag for each target whose sleeve is above its cap or below its floor |
| `HarvestOnInputs.WeightsOnInputs` | src/warehouse/decision/optimizer/heuristics.py:53-66 | the weights the bands are held against, from the priced lots |
| `HarvestOptimality.HeuristicSellsAll` | src/warehouse/decision/optimizer/heuristics.py:68-103 | the heuristic sells exactly the harvestable lots, each as often as it is held |
| `HarvestOptimality.PlansOrdered` | src/warehouse/decision/optimizer/mip.py:76 | the heuristic sells the largest loss first, the discrete planner the best score first |
| `HarvestOptimality.MipSellsPart` | src/warehouse/decision/optimizer/mip.py:55-97 | for every cap the discrete planner sells a part of what the heuristic sells, of size min(cap, all) |
| `HarvestOptimality.HeuristicSavesMore` | src/warehouse/decision/optimizer/heuristics.py:28-36 | with non-negative rates: heuristic tax delta ≤ discrete planner tax delta ≤ 0 |
| `HarvestOptimality.MipIsOptimal` | src/warehouse/decision/optimizer/mip.py:76-78 | no choice of at most cap harvestable lots has a larger total score |
| `HarvestOptimality.PrefixIsBest` | src/warehouse/decision/optimizer/mip.py:76-78 | the first k of a descending order weigh at least as much as any k elements |
| `HarvestChains.GuardIsOracle` | src/warehouse/decision/constraints.py:37-69 | for one lot the planner guard is empty iff the ledger oracle is a singleton iff a loss sell adds no link |
| `HarvestChains.NoChainIffNoLink` | src/warehouse/data/ledger/wash_chains.py:113-132 | no lot has a chain id exactly when there is no link |
| `HarvestChains.ChainsIffGuard` | src/warehouse/data/ledger/wash_chains.py:67-132 | any choice of held lots, sold at a loss on one date, creates no chain exactly when the guard is empty for each |
| `HarvestChains.PlansMakeNoChain` | src/warehouse/decision/optimizer/heuristics.py:77-103 | all trades of either planner fed back as loss sells create no chain at all |
| `Services.StepSound` | src/warehouse/execution/oms/service.py:61-149 | one admissible call keeps the safety invariants and the agreement of log and rows, and only evolves the rows |
| `Services.Session.constructor` | src/warehouse/execution/oms/service.py:61-66 | empty tables satisfy the class invariant |
| `Services.Session.CreateApprovalRequest` | src/warehouse/decision/approval/service.py:79-91 | opens an optimization gate; keeps the class invariant |
| `Services.Session.CreateReportApprovalRequest` | src/warehouse/decision/approval/service.py:94-111 | opens a report gate; keeps the class invariant |
| `Services.Session.CreateApproval` | src/warehouse/decision/approval/service.py:30-76 | inserts a pending request and its audit entry, and nothing else |
| `Services.Session.UpdateApprovalStatus` | src/warehouse/decision/approval/service.py:152-184 | decides a pending request once, logged; otherwise the stated error and no change |
| `Services.Session.ReportApprovalStatus` | src/warehouse/decision/approval/service.py:114-132 | the status of a newest request for the snapshot; ties are open |
| `Services.Session.PersistOptimization` | src/warehouse/decision/optimizer/runner.py:34-96 | inserts the run, its trades in order, the audit entry and, when asked, the approval request |
| `Services.Session.SelectTrades` | src/warehouse/execution/oms/service.py:97-101 | the trades of a run |
| `Services.Session.StageOrdersFromApproval` | src/warehouse/execution/oms/service.py:61-149 | the gates in order, the no-op when orders exist, otherwise one staged order per trade |
| `Services.Session.UpdateOrderStatus` | src/warehouse/execution/oms/service.py:197-237 | the allowed edges, the silent repeat of a cancellation, the errors, the log entry and the fill event |
| `CallsOnInputs.MoveOnInputs` | src/warehouse/execution/oms/service.py:27-32 | a move succeeds if and only if it is staged to submitted or cancelled, submitted to filled or cancelled, or cancelled to cancelled; then the order has the requested status, with one log entry and one event for a fill; otherwise nothing changes |
| `CallsOnInputs.MoveUnknown` | src/warehouse/execution/oms/service.py:204-206 | an unknown order id is refused unchanged |
| `CallsOnInputs.StageOnInputs` | src/warehouse/execution/oms/service.py:61-149 | the gates in their order, the no-op, otherwise the orders and one log entry |
| `CallsOnInputs.StagedRows` | src/warehouse/execution/oms/service.py:97-121 | the staged orders field by field: one per row of the run, in the order of the table, under the fresh ids |
| `CallsOnInputs.RequestOnInputs` | src/warehouse/decision/approval/service.py:30-76 | one pending row and one log entry, field by field |
| `CallsOnInputs.DecideOnInputs` | src/warehouse/decision/approval/service.py:152-184 | a decision succeeds if and only if the request exists and is pending; then exactly that row and one log entry change |
| `CallsOnInputs.PersistOnInputs` | src/warehouse/decision/optimizer/runner.py:34-96 | run, trades, log entry and optional request, field by field |
| `CallsOnInputs.BreaksOnInputs` | src/warehouse/execution/reconciliation/service.py:179-227 | opening a break adds it open with a log entry |
| `CallsOnInputs.BuildOnInputs` | src/warehouse/reporting/report_writer/writer.py:215-273 | a build writes artifacts, no PDF, and one log entry that says what holds it back |
| `CallsOnInputs.SignOffOnInputs` | src/warehouse/reporting/report_writer/writer.py:314-367 | a sign-off: its row, the PDF if and only if no break is open, the gate reads approved and rendering leaves a file, and its log entries |
| `CallsOnInputs.WorkOnInputs` | src/warehouse/infra/db/base.py:28-38 | what a committed session, a rolled back one and the PDF command leave |
| `Services.Session.AttachExternalPdf` | src/warehouse/reporting/report_writer/writer.py:152-212 | breaks first, then the sign-off, then rendering; a failed rendering may leave a file |
| `Services.Session.BuildAndWriteReports` | src/warehouse/reporting/report_writer/writer.py:241-273 | the gate part of a report build |
| `Services.Session.ApproveAndRenderReport` | src/warehouse/reporting/report_writer/writer.py:314-367 | request, approve, attach, log; within the session a rendering error leaves the approval in place for the caller to commit or discard |
| `Services.Session.ReportApprove` | src/warehouse/cli.py:397-407 | the approval command: the session is committed unless the sign-off raises or the commit fails, otherwise the rows are restored and the files stay; the class invariant survives both |
| `Services.Session.ReportPdf` | src/warehouse/cli.py:450-525 | the PDF command renders without a session and without a gate; the invariants of the rows survive |
| `Services.CommandSound` | src/warehouse/infra/db/base.py:28-38 | committed or rolled back, the command keeps the invariants of the rows and the agreement of log and rows |
| `WorkflowSafety.StepEvolves` | src/warehouse/execution/oms/service.py:61-237 | every service call only evolves the rows: decided approvals and terminal orders fixed, orders forward only, log append-only |
| `WorkflowSafety.EndEvolves` | src/warehouse/infra/db/base.py:28-38 | a piece of work only evolves the rows, however it ends |
| `WorkflowSafety.RunEvolves` | src/warehouse/decision/approval/service.py:152-184 | the same between any two states of any run |
| `WorkflowSafety.PersistedTrades` | src/warehouse/decision/optimizer/runner.py:60-71 | a fresh run gets exactly its trades and every other run keeps its own |
| `WorkflowInvariants.StepSafe` | src/warehouse/execution/oms/service.py:61-149 | every admissible call keeps the safety invariants |
| `WorkflowInvariants.RunRowsSafe` | src/warehouse/execution/oms/service.py:61-149 | every state of every run of sessions, committed or rolled back: orders backed by an approved optimization request of their own run, staged orders one-to-one with trades, decided requests name their reviewer, order ids distinct |
| `WorkflowInvariants.StepUnrendered` | src/warehouse/reporting/report_writer/writer.py:152-212 | what has been rendered has no influence on the rows |
| `Rollbacks.LeavesPdfIff` | src/warehouse/reporting/report_writer/writer.py:165-185 | a sign-off leaves a PDF if and only if there was one, or artifacts exist, no break is open, the gate reads approved and rendering does not fail without a file |
| `Rollbacks.AfterPdfs` | src/warehouse/reporting/report_writer/writer.py:152-212 | the PDFs after the calls of a session are those before and those of its sign-offs that leave one |
| `Rollbacks.EndSignedIff` | src/warehouse/infra/db/base.py:28-38 | a piece of work keeps a report’s PDF signed if and only if no PDF of it is left outside a committed session, or the snapshot was already signed |
| `Rollbacks.PdfSignedIff` | src/warehouse/cli.py:384-407 | over any run a report’s PDF has at all times a named approval if and only if neither a session that was rolled back nor the PDF command left that PDF while the snapshot was unsigned |
| `Rollbacks.RunSafeIff` | src/warehouse/cli.py:384-407 | all safety invariants hold in every state of a run if and only if every PDF left that way is of a signed snapshot |
| `Rollbacks.CommandSignedIff` | src/warehouse/cli.py:397-407 | the approval command leaves an unsigned PDF if and only if the snapshot was unsigned, rendering was reached, and it either failed with a file left or the commit failed after it |
| `Rollbacks.SignOffKeptIff` | src/warehouse/cli.py:397-407 | after the command the named approval is on record if and only if nothing was raised and the commit worked; otherwise all rows are as before |
| `WorkflowWitnesses.UnsignedPdf` | src/warehouse/reporting/report_writer/pdf.py:175-184 | a concrete run: a rendering fails, its file stays, the sign-off is rolled back, and the report has a PDF and no approval at all |
| `WorkflowWitnesses.UngatedPdf` | src/warehouse/cli.py:510-525 | a concrete run: the PDF command renders a report that nobody was asked to approve |
| `WorkflowTheorems.OrdersStayApproved` | src/warehouse/execution/oms/service.py:70-87 | an order seen at any time is, then and ever after, backed by the same approved request of its own run |
| `WorkflowTheorems.TerminalOrdersFixed` | src/warehouse/execution/oms/service.py:27-32 | filled and cancelled orders never change |
| `WorkflowTheorems.StagedOneToOne` | src/warehouse/execution/oms/service.py:89-121 | after a committed session that stages an approval its orders are its run’s trades, one to one, in every later state, however often it is staged and whatever is rolled back |
| `WorkflowTheorems.RestagingAddsNothing` | src/warehouse/execution/oms/service.py:89-95 | staging again adds no order |
| `WorkflowTheorems.RunOrderedOnceIff` | src/warehouse/execution/oms/service.py:89-95 | a run with trades is ordered at most once exactly when at most one of its approvals was staged |
| `WorkflowWitnesses.DoubleStaging` | src/warehouse/execution/oms/service.py:89-95 | a concrete run of the system in which one trade is ordered twice through two approvals of one run |
| `WorkflowTheorems.PdfStaysSigned` | src/warehouse/reporting/report_writer/writer.py:152-180 | a PDF implies, then and ever after, an approved request of that snapshot with a named reviewer, provided that it was never left outside a committed session while unsigned |
| `WorkflowTheorems.BuildNeverDelivers` | src/warehouse/reporting/report_writer/writer.py:215-273 | building a report never delivers a PDF and never fails in the renderer: its snapshot is new |
| `WorkflowTheorems.AnswerExists` | src/warehouse/decision/approval/service.py:114-132 | the query for the newest request always has an answer |
| `WorkflowTheorems.GateApprovedIff` | src/warehouse/decision/approval/service.py:118-132 | whatever the requests, every answer the database may give is approved if and only if some approved request is strictly newer than every unapproved one |
| `WorkflowTheorems.DeliveredGateIff` | src/warehouse/decision/approval/service.py:118-132 | in every reachable state with such a PDF there is a named approval, and the gate still surely reads approved exactly under that condition |
| `WorkflowTheorems.SignOffOpensGate` | src/warehouse/decision/approval/service.py:118-132 | with a clock that does not run backwards, a sign-off surely opens the gate exactly when no unapproved request of the snapshot has the same instant |
| `WorkflowTheorems.ApproveDeliversIff` | src/warehouse/reporting/report_writer/writer.py:314-367 | a sign-off delivers under every answer the database may give if and only if artifacts exist, no break is open, rendering works and no unapproved request shares its instant |
| `WorkflowTheorems.SignOffRecorded` | src/warehouse/reporting/report_writer/writer.py:332-342 | within the session, whether or not a PDF results, the named approval is recorded |
| `WorkflowWitnesses.RivalBlocksDelivery` | src/warehouse/reporting/report_writer/writer.py:314-367 | a concrete run in which a sign-off in the instant of another request is recorded and delivers nothing |
| `WorkflowWitnesses.PdfOutlivesRejection` | src/warehouse/reporting/report_writer/writer.py:314-367 | a concrete run in which a delivered PDF coexists with a rejection as the newest verdict |
| `AuditReplay.StepRecorded` | src/warehouse/decision/approval/service.py:152-180 | every call keeps log, events and rows in agreement |
| `AuditReplay.AuditIsFaithful` | src/warehouse/execution/oms/service.py:215-223 | over any run, replaying the audit log yields the status of every approval and every order, and nothing for unknown approvals |
| `AuditReplay.StepFills` | src/warehouse/execution/oms/service.py:212-236 | a call raises one event per fill it makes, and no other |
| `AuditReplay.FillsAccounted` | src/warehouse/messaging/observability.py:36-46 | in every state of every run the fill events of an order are its standing fill plus one for each fill that was rolled back |
| `AuditReplay.FilledOnceIff` | src/warehouse/execution/oms/service.py:212-236 | filled exactly when the log reads submitted then filled; exactly one fill event for a filled order and none for another if and only if no fill of it was rolled back |
| `WorkflowWitnesses.FillRolledBack` | src/warehouse/messaging/observability.py:36-46 | a concrete run in which an order is not filled and its fill event is on record |
| `Reconciliation.LedgerQuantities` | src/warehouse/execution/reconciliation/service.py:49-58 | lot quantities grouped and summed |
| `Reconciliation.LedgerAsOfDate` | src/warehouse/execution/reconciliation/service.py:61-63 | the newest price date |
| `Reconciliation.Reconciler.OpenBreak` | src/warehouse/execution/reconciliation/service.py:179-227 | one row and one audit entry under one id |
| `Reconciliation.Reconciler.AsOfDateBreaks` | src/warehouse/execution/reconciliation/service.py:66-127 | mixed dates, then stale or undated ledger, logged |
| `Reconciliation.Reconciler.QuantityPass` | src/warehouse/execution/reconciliation/service.py:272-301 | one break per row that differs from the ledger; the keys and securities seen |
| `Reconciliation.Reconciler.LedgerPass` | src/warehouse/execution/reconciliation/service.py:303-330 | one break per unmentioned non-zero position of the custodian’s accounts |
| `Reconciliation.Reconciler.SharedPass` | src/warehouse/execution/reconciliation/service.py:150-175 | one break per identifier shared by two securities |
| `Reconciliation.Reconciler.SymbologyPass` | src/warehouse/execution/reconciliation/service.py:332-342 | ISINs then CUSIPs, only for a non-empty file |
| `Reconciliation.Reconciler.ReconcileIngest` | src/warehouse/execution/reconciliation/service.py:241-344 | the whole comparison: unknown run refused unchanged, otherwise exactly the specified breaks, one row and one audit entry each, in order |
| `ReconciliationOnInputs.LedgerOnInputs` | src/warehouse/execution/reconciliation/service.py:49-58 | the ledger holds of a position the total of its lots |
| `ReconciliationOnInputs.QuantityBreakIff` | src/warehouse/execution/reconciliation/service.py:275-301 | a quantity break for exactly the rows that do not state the lots’ total, the custodian’s quantity first |
| `ReconciliationOnInputs.MismatchesOnInputs` | src/warehouse/execution/reconciliation/service.py:275-301 | one per such row, in the order of the file |
| `ReconciliationOnInputs.LedgerBreakIff` | src/warehouse/execution/reconciliation/service.py:303-330 | a ledger-only break for exactly the held, unmentioned positions of the custodian’s accounts whose total is not zero |
| `ReconciliationOnInputs.MixedDatesIff` | src/warehouse/execution/reconciliation/service.py:79-101 | a mixed-date break exactly when two rows differ in date, on the account of the first row |
| `ReconciliationOnInputs.StaleLedgerIff` | src/warehouse/execution/reconciliation/service.py:103-127 | a stale-ledger break exactly when the rows share a date that is not the newest price date |
| `ReconciliationOnInputs.SymbologyBreakIff` | src/warehouse/execution/reconciliation/service.py:130-175 | a symbology break exactly for the non-empty identifiers that a touched security carries and two securities share |
| `ReconciliationOnInputs.BreaksInTurn` | src/warehouse/execution/reconciliation/service.py:241-344 | dates, quantities, ledger-only positions, ISINs, CUSIPs, in this order |
| `ReconciliationOnInputs.RecordOnInputs` | src/warehouse/execution/reconciliation/service.py:179-227 | each break becomes one open row and one log entry, numbered on |
| `ReconciliationTheorems.LedgerIsSum` | src/warehouse/execution/reconciliation/service.py:49-58 | the grouped ledger is the sum of the lots of each position and knows exactly the positions with a lot |
| `ReconciliationTheorems.CleanIffAgree` | src/warehouse/execution/reconciliation/service.py:275-330 | no quantity or ledger-only break exactly when file and summed lots agree on every position of the file and of the custodian’s accounts |
| `ReconciliationTheorems.BreaksCounted` | src/warehouse/execution/reconciliation/service.py:241-344 | the number of breaks is the disagreeing positions, plus one unless the dates agree, plus one per shared ISIN and CUSIP |
| `ReconciliationTheorems.DisagreementSplits` | src/warehouse/execution/reconciliation/service.py:275-330 | the disagreeing positions are the mismatched rows’ and the unmentioned ones, disjointly |
| `ReconciliationTheorems.DateBreakIff` | src/warehouse/execution/reconciliation/service.py:75-127 | at most one date break, none exactly when the file is empty or has one date, the newest of the ledger |
| `ReconciliationTheorems.SharedIff` | src/warehouse/execution/reconciliation/service.py:143-159 | an identifier is reported exactly when non-empty, carried by a touched security and by two different securities |
| `ReconciliationTheorems.QuantityCleanIff` | src/warehouse/execution/reconciliation/service.py:275-301 | row by row, without distinct rows: no quantity break exactly when every row states its position’s total |
| `ReconciliationTheorems.SplitRowsBreak` | src/warehouse/execution/reconciliation/service.py:275-301 | a position on two rows that together match the ledger breaks unless both are zero |
| `ReconciliationGate.NoBreakIffAgree` | src/warehouse/execution/reconciliation/service.py:241-344 | a reconciliation opens no break if and only if dates, positions and identifiers agree |
| `ReconciliationGate.BlockedIff` | src/warehouse/reporting/report_writer/pdf.py:31-33 | after a reconciliation delivery is blocked if and only if it was before or file and ledger disagree |
| `ReconciliationGate.OpenBreakBlocks` | src/warehouse/reporting/report_writer/pdf.py:31-33 | along any run of sessions that do not try to resolve an open break it stays open and no PDF appears |
| `ReconciliationGate.DisagreementBlocksDelivery` | src/warehouse/execution/reconciliation/service.py:179-227 | a committed reconciliation with breaks lets no session deliver a report until each of its breaks has been resolved |
| `Splits.ApplyStockSplit` | src/warehouse/data/ledger/corporate_actions.py:49-75 | the loop computes one split or the first error |
| `Splits.ApplyStockSplits` | src/warehouse/data/ledger/corporate_actions.py:78-86 | the loop applies the splits in order, stopping at the first error |
| `SplitsOnInputs.SplitOnInputs` | src/warehouse/data/ledger/corporate_actions.py:49-75 | one split: which refusal, and otherwise the quantity times and the per-share cost over the ratio for exactly the lots of the security |
| `SplitsOnInputs.SplitsInOrder` | src/warehouse/data/ledger/corporate_actions.py:78-86 | one after the other, up to the first refused |
| `Splits.SplitForm` | src/warehouse/data/ledger/corporate_actions.py:49-86 | splits succeed exactly when every ratio and every touched quantity is positive; then each lot is scaled by its security’s ratio product |
| `Splits.BasisKept` | src/warehouse/data/ledger/corporate_actions.py:1-4 | each lot keeps its total cost basis, identity and dates |
| `Splits.TotalsScale` | src/warehouse/data/ledger/corporate_actions.py:78-86 | every (account, security) total of the ledger is scaled by the product of the ratios |
| `Splits.SplitsCommute` | src/warehouse/data/ledger/corporate_actions.py:78-86 | the order of the splits matters neither to success nor to the result |
| `Splits.SplitThenReverse` | src/warehouse/data/ledger/corporate_actions.py:38-43 | ratio r followed by 1/r restores the lots |
| `Splits.SplitsKeepDisagreements` | src/warehouse/execution/reconciliation/service.py:275-330 | when the custodian file is restated for the same splits, exactly the same positions disagree as before |

## Left out

- Rebalance.RunMvRebalance: the Σ = 1 re-assertion is shown never to fire when bounds lie in [0, 1] with floors under caps, λ ≥ 0, and expected returns and current weights are at most 1e6 in magnitude; a turnover budget is taken as non-negative, as the policy schema demands.
- QpSolver.StopTestFires: assumes every projection hits the same mass exactly; `SolverBounds.SolverStops` is the same result with the bisection's errors in, for tolerances over 2e-6.
- SolverBounds.SolverStops: says nothing at tolerances up to 2e-6, the configured 1e-9 included; `SolverContraction.StopsByContraction` covers those for a covariance that curves, and without curvature nothing is claimed there.
- QpSolver.ConvergenceRate: assumes exact projections; `SolverBounds.SolverRate` has the bisection's errors in.
- QpSolver.SolveQp: covariance rows shorter than the universe, on which the code fails with an index error, are excluded; longer rows are covered, the gradient reading their first entries and the step size all of them.
- BlackLitterman.BlackLitterman: with views, a covariance with fewer rows or columns than sleeves, on which the code fails with an index error, is excluded.
- Turnover.BudgetMetIff: takes the totals of the current weights, the target and the projection as equal; `Turnover.BudgetMetNearly` lets the projection miss its total, and `Turnover.BudgetedTurnover` bounds what rounding adds.
- ReconciliationTheorems.CleanIffAgree: assumes one row per (account, security) in the file; `ReconciliationTheorems.QuantityCleanIff` says what holds without it.
- HarvestChains.PlansMakeNoChain: assumes distinct lot ids and that the ledger and the planner agree on each security's substitute group.
- WorkflowTheorems.SignOffOpensGate: assumes a clock that does not run backwards.
- IEEE-754 rounding in the solver and the inverse, Decimal context precision, and the precision of database columns.
- Risk contributions, covariance assembly from priors, tax overlay, stress overlay, policy drift and binding-bound labels of the rebalance.
- Rationale strings, break descriptions, tickers, config versions and the wording of error messages.
- WorkflowTheorems.SignOffRecorded: speaks of the open session; `Rollbacks.SignOffKeptIff` says when the approval is kept.
- Services.Session.ApproveAndRenderReport: leaves the rows of a failed rendering to its caller, as the code does; `Services.Session.ReportApprove` commits or restores them.
- A call cut short by a lost connection: sessions fail between calls, at the commit, or where a call raises.
- The size of the in-memory event log, which keeps the newest hundred entries of the process.
- Which trades a staging query returns first: rows are kept in insertion order.
- Foreign keys: a request may name a run that does not exist, which the schema would refuse where keys are enforced.
- The listing functions and the household-wide listing that a repeated staging call returns.
- replace_staged_order, which always raises.
- Subscribers of the order.filled event: an event is recorded, its handlers are not modelled.
- Which report the PDF command picks when no snapshot is named.
- Attribution, backtests, daily statistics, scenario priors, dashboards, the HTTP server and the message registry.
