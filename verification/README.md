# Verification of the prox_mpc navigation stack

A Dafny model of the decision-making core of prox_mpc, a model-predictive local
controller for planar robots, with proofs of what each part promises over all inputs,
horizons and runs.

- **Quadratic program** (`qp_layout`, `qp_rows`, `qp_feasible`, `qp_fill`, `qp_cost`,
  `qp_assembly`, `proxqp`, `qp_exact`, `barrier`, `linear_model`): one flat increment vector of states,
  controls and slacks; matrices filled in place every cycle; a sparse copy whose structure is declared
  once. The proofs recover what the rows mean: boxes and rate chains, dynamics under
  move-blocking, the tracking cost, and the discrete-time control-barrier chain over the
  horizon. The solver itself is an arbitrary function that is only trusted to return a
  feasible increment when it says it solved.
- **Transactional core** (`mpc`, `sqp_cap`, `model_bounds`): a cycle proposes a candidate and only a
  commit retains it; the bound tables are appended and overwritten in place.
- **Controller** (`cycle`, `controller`, `speed_limit`, `plan`, `reference`,
  `costmap_scan`, `static_slots`, `predictive_fill`, `avoidance`, `pilot`): gates, brakes,
  vetoes and commits over whole runs; speed limits and the yield; projection, direction latch
  and reference; costmap scan and obstacle slots; and one call composed of all of them, with
  the distance an accepted trajectory keeps from the movers.
- **Obstacle tracker** (`clustering`, `association`, `lifecycle`, `kalman`,
  `legacy_kalman`, `imm`, `tracker`): cyclic scan clustering, stable association, track
  lifecycle, and covariances that stay covariances through every run.

`linear`, `planar`, `sorting` and `basics` hold the vector algebra and the small shared
notions.

Doubles are modelled as reals. A square root is any function with its defining equation;
sines, cosines and angle wrapping are arbitrary functions. Non-finite numbers are explicit
flags, options, or the `NaN` cell of the structure probe. The clock, the costs of the costmap,
the footprint check, the model's Jacobians and its twist map are parameters; the costmap's
cell arithmetic is that of a grid with an origin and a resolution.

## Where the code needs a condition

Several expected properties hold only under a condition; each is proved with that condition
exact, and where it helps with a concrete counterexample.

- The objective is the cost change if and only if the weights are symmetric
  (`QpCost.GainExactIff`).
- A solved candidate starts at the measured pose, whatever the solver does within its
  contract, if and only if the cap allows one program per cycle: under a cap of one it does
  (`Mpc.MPC.SolveCandidate`), and under every larger cap a solver that keeps its contract
  takes any core without bounds and obstacles off the pose (`SqpCap.CapTwoBreaks`). In
  between, the first state has moved by the increments of the unsolved programs
  (`Mpc.FirstStateDrifts`).
- Reset and activation keep the rate anchor equal to the last command if and only if the
  anchor was zero (`Cycle.ResetSyncedIff`): they clear the controller's copy only.
- A bound update limits a component to the new interval if and only if no other entry for
  the component is tighter (`ModelBounds.UpdateTakesEffectIff`).
- Lifting a speed limit restores the declared range if and only if the model does not drive
  faster backward than forward (`SpeedLimit.RestoreIff`), and a limit below a positive
  minimum speed is refused with an exception (`SpeedLimit.SpeedGovernor.ApplySpeedLimit`).
- The yield cap is computed from the command last applied, while the program's first step
  counts from the core's anchor. It never takes away a program's last first control if and
  only if the slowest first control the anchor allows is above the range, asks for no forward
  speed, is no faster than the model's minimum, or is one the cap counts as reachable from
  the command last applied (`SpeedLimit.CapNeverBlocksIff`). While the two agree that holds at
  every speed if and only if the model may slow down or has a single speed to drive at
  (`SpeedLimit.CapHarmlessSyncedIff`); after a reset at speed and a throwing first cycle they
  do not agree, and it fails (`SpeedLimit.BlockedAfterReset`).
- A direction change skips rest and dwell if and only if a gate is off while the robot was
  driving in reverse (`Reference.UnguardedFlipIff`).
- The projection can get past a vertex if and only if the plan past it leaves the segments
  before it (`PlanPath.PassableIff`). At a cusp that is driven straight back over its
  incoming leg it cannot, and the robot is held there (`Reference.RunPassesIff`,
  `Reference.HeldAtCusp`): ties keep the earlier segment.
- For nodes on the map, the costmap scan misses no cell within its search radius if and only
  if the radius is shorter than the configured number of cells and a half
  (`CostmapScan.SeesAllIff`): a cut window can still see everything, and a larger radius can
  always be made to miss. A node off the map is not scanned at all, so for every node it
  misses none if and only if the radius is less than half a cell
  (`CostmapScan.SeesEverywhereIff`, `CostmapScan.JustOffTheMap`).
- Movers are ranked by their approach to the first two columns of the reference. That is the
  reference position, for every mover and reference, if and only if the model keeps its
  position in columns 0 and 1 (`PredictiveFill.RanksByPositionIff`); under another mapping the
  wrong mover can get the slot (`PredictiveFill.WrongMoverFirst`).
- The backward extrapolation of an obstacle is exact if and only if its speed is trusted
  (`Barrier.BackwardExactIff`).
- Track identities are unique if and only if there were at most 2^32 births
  (`Lifecycle.IdsUniqueIff`).

## Model

| member | source | states |
|---|---|---|
| QpLayout.RowsDistinct | prox_mpc_core/src/proxqp.cpp:104-140 | no two constraints of any horizon, bound count or obstacle capacity share a row of the inequality matrix |
| QpLayout.RowsCover | prox_mpc_core/src/proxqp.cpp:104-140 | every row of the inequality matrix belongs to some constraint, so no row is left unassigned |
| QpLayout.RowInBlock | prox_mpc_core/src/proxqp.cpp:115-140 | each family of constraints fills exactly the range of rows between its own start and the next family's |
| QpLayout.ColumnsFit | prox_mpc_core/src/proxqp.cpp:142-147 | the columns of states, controls and slacks lie in three disjoint ranges inside the increment vector |
| QpLayout.BuildIneqIdx | prox_mpc_core/src/proxqp.cpp:110-140 | the accumulation loops leave at entry b the first row of block b and at the last entry the number of rows |
| QpRows.FillEqOwns | prox_mpc_core/src/proxqp.cpp:456-488 | an equality row is written on a set of entries fixed by the sizes alone, with values independent of what was there, and nowhere else |
| QpRows.FillIneqOwns | prox_mpc_core/src/proxqp.cpp:518-688 | an inequality row is written on a set of entries fixed by the sizes, the bounded components and whether gamma is below one, with values independent of what was there, and nowhere else |
| QpRows.PinMeaning | prox_mpc_core/src/proxqp.cpp:458-461 | a pinning row of a fresh fill selects one component of the first state's increment |
| QpRows.DynMeaning | prox_mpc_core/src/proxqp.cpp:466-488 | a dynamics row of a fresh fill times an increment is A dx_k - dx_(k+1) + dt B du, with du at the last control block once the node is past the control horizon |
| QpFill.EqHistoryFree | prox_mpc_core/src/proxqp.cpp:456-488 | whatever was solved before, refilling a matrix that is zero off its owned entries gives the fill from zero and keeps it so |
| QpFill.IneqHistoryFree | prox_mpc_core/src/proxqp.cpp:518-688 | the same for the inequality matrix: no keep-out row is lost and no coefficient of an earlier linearisation survives |
| QpFill.EqProbe | prox_mpc_core/src/proxqp.cpp:249-266 | filling a matrix of NaN markers turns exactly the owned entries of the equality matrix into numbers, whatever iterate is used |
| QpFill.IneqProbe | prox_mpc_core/src/proxqp.cpp:249-266 | the same for the inequality matrix, whatever iterate and obstacles are used |
| QpFill.EqRepresents | prox_mpc_core/src/proxqp.cpp:231-239 | a sparse copy that lists the owned entries and holds their dense values stands for the whole equality matrix, zeros included |
| QpFill.IneqRepresents | prox_mpc_core/src/proxqp.cpp:231-239 | the same for the inequality matrix |
| QpAssembly.SetE | prox_mpc_core/src/proxqp.cpp:456-489 | the in-place loops leave every equality row as the row function describes it over what it held |
| QpAssembly.SetB | prox_mpc_core/src/proxqp.cpp:496-512 | every dynamics row's right-hand side becomes minus the defect and the pinned rows' stay as they were |
| QpAssembly.SetC | prox_mpc_core/src/proxqp.cpp:518-688 | the nested loops along the accumulated index leave every inequality row as the row function describes it, and cache for every slot the clearance and, when gamma is below one, the coupled clearance |
| QpAssembly.SetD | prox_mpc_core/src/proxqp.cpp:697-768 | the bounds of every row are those of its constraint, the keep-out ones from the cached clearances |
| QpAssembly.SetH | prox_mpc_core/src/proxqp.cpp:387-409 | from zero, the Hessian gets twice the stage weight on nodes before the last, the terminal weight on the last, the control weight on every block and the slack weight on every slack |
| QpAssembly.SetGradient | prox_mpc_core/src/proxqp.cpp:419-449 | the gradient gets twice the same weights against the error of the iterate, whatever it held |
| QpAssembly.ClampedColumn | prox_mpc_core/src/proxqp.cpp:479-485 | clamping the control column to the last block is the same as holding the last control |
| QpAssembly.WrittenPattern | prox_mpc_core/src/proxqp.cpp:215-229 | the pattern lists exactly the entries that are not NaN |
| QpAssembly.WriteInto | prox_mpc_core/src/proxqp.cpp:232-239 | every listed entry takes its dense value and the structure does not move |
| QpCost.ObjectiveIsCostChange | prox_mpc_core/src/proxqp.cpp:387-449 | for symmetric weights 1/2 d'Hd + c'd equals the tracking cost after the increment minus the cost before, for every increment and every horizon size |
| QpCost.GainExactIff | prox_mpc_core/src/mpc.cpp:36-57 | one weight block contributes the exact change of its quadratic cost for every error and increment if and only if the weight is symmetric, which is what init() demands |
| QpCost.PriceOf | prox_mpc_core/src/proxqp.cpp:387-449 | a single deviation from the goals costs its square under the stage weight before the last node, under the terminal weight at the last, under the control weight at a block, and a slack its weight times its square |
| QpFeasible.SolvedInsideBounds | prox_mpc_core/src/proxqp.cpp:518-558 | whatever the iterate, the update of a solved program satisfies every state box, control box, rate bound along the control horizon, and the first-control rate bound about the control last applied |
| QpFeasible.SolvedSlackSign | prox_mpc_core/src/proxqp.cpp:681-687 | every slack of a solved program is nonnegative |
| QpFeasible.SolvedPinned | prox_mpc_core/src/proxqp.cpp:458-461 | a solved program does not move the first state |
| QpFeasible.SolvedDynamics | prox_mpc_core/src/proxqp.cpp:463-512 | for a model with an affine step one solved program satisfies the step exactly at every node under move-blocking |
| QpFeasible.ProductMeaning | prox_mpc_core/src/proxqp.cpp:524-687 | the product of every inequality row with an increment, family by family |
| LinearModel.LinearIsAffine | prox_mpc_test_models/include/prox_mpc_test_models/asymmetric_bounds_model.hpp:47-64 | every model with constant Jacobians and a linear step meets the premise of the exact-dynamics claim |
| LinearModel.AsymmetricBoundsStep | prox_mpc_test_models/include/prox_mpc_test_models/asymmetric_bounds_model.hpp:47-64 | the step of this model moves x by dt times the speed and the heading by dt times the turn rate, and leaves y |
| Barrier.Supports | prox_mpc_core/src/proxqp.cpp:569-591 | the linearised half-plane never overstates the distance after any displacement, up to twice the normal guard in the coincidence fallback |
| Barrier.LinkHolds | prox_mpc_core/src/proxqp.cpp:604-677 | one keep-out row keeps 1 - gamma of the linearised clearance at the node before, because its cached value and gradient are that node's own linearisation |
| Barrier.KeepsOut | prox_mpc_core/src/proxqp.cpp:561-678 | for every solved program and every filled slot the true clearance stays above a recursive floor that decays by 1 - gamma, pays the slack, and restarts after an empty node |
| Barrier.FloorClosed | prox_mpc_core/src/proxqp.cpp:747-757 | with the slot filled and separated the floor is (1 - gamma)^(k+1) times the clearance now minus the discounted slacks |
| Barrier.HorizonKeepOut | prox_mpc_core/src/proxqp.cpp:561-678 | dist - d >= (1 - gamma)^(k+1) h_0 - sum of (1 - gamma)^(k-i) s_i at every node of the updated trajectory |
| Barrier.PointwiseKeepOut | prox_mpc_core/src/proxqp.cpp:747-757 | at gamma = 1 a filled slot loses at most its slack and twice the normal guard, wherever the obstacles are |
| Barrier.BackwardExactIff | prox_mpc_core/src/proxqp.cpp:621-645 | the backward extrapolation recovers the current position of a constant-velocity obstacle if and only if its step is within the trusted speed |
| ProxQp.ProxQP.constructor | prox_mpc_core/src/proxqp.cpp:44-197 | the buffers start clean, the Hessian is that of the weights, and the sparse copies list the owned entries |
| ProxQp.ProxQP.DeclarePattern | prox_mpc_core/src/proxqp.cpp:249-274 | the declared structure is the owned entries; matrices end at zero and the obstacle table as it was |
| ProxQp.ProxQP.Assemble | prox_mpc_core/src/proxqp.cpp:327-339 | after any number of earlier solves the buffers are those of a fresh fill and the sparse copies stand for them |
| ProxQp.ProxQP.CopyValues | prox_mpc_core/src/proxqp.cpp:335-339 | the sparse copies keep their structure and stand for the dense matrices |
| ProxQp.ProxQP.Handed | prox_mpc_core/src/proxqp.cpp:335-361 | the program handed over through the sparse copies is the dense program |
| ProxQp.ProxQP.Solve | prox_mpc_core/src/proxqp.cpp:323-384 | whatever was solved before, the solver is handed the program of the problem about this iterate, its answer is returned with the increments cut from it, and a solved answer of a solver that keeps its contract meets every constraint |
| ProxQp.ProxQP.ChangeBounds | prox_mpc_core/src/model.cpp:176-210 | changing bound values between solves keeps the structure and the clean state of every buffer |
| ProxQp.PosedObjective | prox_mpc_core/src/proxqp.cpp:327-339 | the objective of the program handed over is the change in tracking cost for every increment, when the weights are symmetric |
| ProxQp.FeasibleIff | prox_mpc_core/src/proxqp.cpp:323-384 | an increment is feasible for the program handed over if and only if it meets every equality and inequality of the problem: the matrices lose no constraint and add none |
| ProxQp.OwnsKept | prox_mpc_core/src/proxqp.cpp:199-211 | the owned entries depend on nothing but sizes, bounded components, position columns and whether gamma is below one |
| ProxQp.ExpandIsDense | prox_mpc_core/src/proxqp.cpp:231-239 | a faithful sparse copy expands to exactly the dense matrix |
| QpExact.FeasibleExactly | prox_mpc_core/src/proxqp.cpp:323-384 | an increment is feasible for the program handed over if and only if its update follows the linearised dynamics from the first state, keeps every bound about the anchor, has no negative slack, and at every node and slot its linearised clearance plus slack covers 1 - gamma of the clearance at the node before; clearances and dynamics spelt out without reference to rows |
| QpExact.IneqHoldIff | prox_mpc_core/src/proxqp.cpp:518-768 | the inequality half alone: the bounds and the paid slots, neither more nor less |
| QpExact.EqHoldIff | prox_mpc_core/src/proxqp.cpp:456-512 | the equality half alone: the first state stays and each next one is A dx + dt B du and the defect away, the last control held |
| QpExact.MoreSlack | prox_mpc_core/src/proxqp.cpp:681-765 | raising slacks keeps an update a solution: no slack has an upper bound |
| QpExact.KeepOutNeverBlocks | prox_mpc_core/src/proxqp.cpp:561-765 | whatever motion follows the linearised dynamics inside the bounds is feasible for the program with slacks large enough, wherever the obstacles are |
| Mpc.MPC.SolveCandidate | prox_mpc_core/src/mpc.cpp:162-240 | the cycle works on the candidate alone: the first program is about the retained iterate slid by one node, every state and control the one retained a node later, the last held, the first state the pose; each further program is about the iterate the one before left, only the last may be solved, the cap or the clock stops the rest; a solved candidate meets every bound, keeps the barrier, and starts at the pose plus the drift of the unsolved programs, so at the pose under a cap of at most one |
| Mpc.MPC.CommitCandidate | prox_mpc_core/src/mpc.cpp:247-255 | the candidate is retained, and its first control becomes the anchor, exactly when it is solved and finite; otherwise nothing changes |
| Mpc.MPC.Solve | prox_mpc_core/src/mpc.cpp:266-274 | the increments are kept whatever the solver reported, and the anchor advances only on a solved program |
| Mpc.MPC.SetU0 | prox_mpc_core/src/mpc.cpp:334 | the anchor of the next cycle's rate constraint is the control given |
| Mpc.MPC.Begin | prox_mpc_core/src/mpc.cpp:164-202 | a cycle starts at the retained trajectory slid by one node, states and controls alike, with the pose as its first state and the slacks as retained |
| Mpc.SlidOnce | prox_mpc_core/src/mpc.cpp:176-199 | there is exactly one such start |
| Mpc.FirstStateDrifts | prox_mpc_core/src/mpc.cpp:204-231 | for any number of programs the first state is the one the cycle started from plus the sum of all first-state increments |
| Mpc.SolvedCycle | prox_mpc_core/src/mpc.cpp:193-240 | a solved cycle meets every box, rate chain and first-control rate bound about the anchor however many programs it took, and its first state has moved by the unsolved programs alone |
| Mpc.SolvedAtFirst | prox_mpc_core/src/mpc.cpp:193-231 | when the first program of the cycle is solved the candidate starts at the pose, and for an affine step it obeys the step at every node |
| Mpc.SolvedKeepsOut | prox_mpc_core/src/mpc.cpp:193-240 | the barrier over the horizon holds for a solved cycle at every node and slot filled and separated along the iterate of its last program |
| SqpCap.CapTwoBreaks | prox_mpc_core/src/mpc.cpp:204-231 | for every core without bounds and obstacles, whatever its model, horizon and state, and every cap of two or more, a solver that keeps its contract leaves a solved candidate off the pose |
| SqpCap.EarlyStopKept | prox_mpc_core/src/mpc.cpp:204-231 | in any core with a cap of two or more, an early stop whose next program is feasible is kept: the solved candidate starts off the pose by exactly the stopped increment |
| SqpCap.RolloutMeets | prox_mpc_core/src/proxqp.cpp:456-512 | without bounds and obstacles the linearised dynamics can be followed from any iterate, so the program is always feasible |
| ModelBounds.Model.SetIneq | prox_mpc_core/src/model.cpp:134-167 | a bound is appended to its table or rejected for crossed sides, an unknown kind or an index out of range, in that order, and other tables stay |
| ModelBounds.Model.UpdateIneq | prox_mpc_core/src/model.cpp:176-210 | the last entry for the component is overwritten; it fails exactly on crossed sides, an unknown kind or a component with no bound, and then nothing changes |
| ModelBounds.Model.OverrideBound | prox_mpc_core/src/model.cpp:230-251 | an unknown kind is rejected, absent keys keep their side, a component without a bound is left alone, crossed sides are rejected, and a rejected override changes nothing |
| ModelBounds.UpdateTakesEffectIff | prox_mpc_core/src/model.cpp:176-210 | after an update the component is limited to exactly the new interval if and only if no other entry for it is tighter |
| ModelBounds.ShadowedUpdate | prox_mpc_core/src/model.cpp:176-210 | two entries for one component: a widening update leaves the older one in force |
| ModelBounds.UpdateKeepsIndices | prox_mpc_core/src/model.cpp:176-210 | an update never changes which component an entry bounds or how many entries there are |
| Cycle.BrakeReachesZero | prox_mpc_controller/src/prox_mpc_controller.cpp:122-128 | the ramp of a followed command covers at least the rate times the shortest period per cycle, keeps its sign, and is exactly zero once that covers the start |
| Cycle.BrakeRespectsRate | prox_mpc_controller/src/prox_mpc_controller.cpp:122-128 | a brake step changes a control by no more than its declared rate over the period |
| Cycle.PeriodClamped | prox_mpc_controller/src/prox_mpc_controller.cpp:916-921 | a configured brake period is the step; without one the step is the measured period kept between the nominal one and twice that |
| Cycle.BrakingRun | prox_mpc_controller/src/prox_mpc_controller.cpp:952-963 | a run of braking cycles on a plant that follows steps every channel along its own ramp |
| Cycle.StopsWithin | prox_mpc_controller/src/prox_mpc_controller.cpp:906-1005 | on a plant that follows its command a channel is exactly zero after n braking cycles with rate * n * step >= abs(u), the step being the configured brake period or the nominal step |
| Cycle.CycleTransacts | prox_mpc_controller/src/prox_mpc_controller.cpp:952-1002 | a cycle that returns a command leaves the anchor at it, a cycle that throws leaves anchor, command and iterate alone, and only an accepted cycle changes the iterate |
| Cycle.AnchorIsLastApplied | prox_mpc_controller/src/prox_mpc_controller.cpp:998-1002 | from the first returned command of a task on, the core's anchor is the command last applied after every cycle |
| Cycle.LastCommandReturned | prox_mpc_controller/src/prox_mpc_controller.cpp:1706-1716 | the command remembered as applied is the last one the run returned |
| Cycle.ResetSyncedIff | prox_mpc_controller/src/prox_mpc_controller.cpp:1788-1793 | reset keeps anchor and last command together if and only if the anchor is already zero |
| Cycle.EscalatesIff | prox_mpc_controller/src/prox_mpc_controller.cpp:1009-1018 | among cycles without an accepted one, a cycle raises NoValidControl if and only if it is a rejection whose own kind exceeds the budget |
| Cycle.RejectionBounded | prox_mpc_controller/src/prox_mpc_controller.cpp:1668-1689 | twice the budget plus one rejections without an accepted cycle or reset include a NoValidControl |
| Cycle.CountersCount | prox_mpc_controller/src/prox_mpc_controller.cpp:1009-1018 | the two counters hold the number of failures and of vetoes since the last accepted cycle or reset |
| Cycle.AcceptedWithinRate | prox_mpc_controller/src/prox_mpc_controller.cpp:998-1716 | over any run, an accepted command whose candidate meets the first-control bound about the core's anchor is within every declared rate of the command returned before it, accepted or braked, whatever was thrown in between |
| Cycle.VetoWalk | prox_mpc_controller/src/prox_mpc_controller.cpp:1628-1666 | the walk vetoes if and only if a node within the stopping distance is blocked |
| Cycle.StopsThere | prox_mpc_controller/src/prox_mpc_controller.cpp:1618-1621 | the stopping distance is the farthest a body gets that slows down from the speed at the constant rate, reached when its speed is used up |
| Cycle.EvenTravel | prox_mpc_controller/src/prox_mpc_controller.cpp:1656-1659 | along even steps the way to a node is its number of them |
| Cycle.JudgeDecides | prox_mpc_controller/src/prox_mpc_controller.cpp:876-1704 | which cycles are accepted, vetoed, failed, stopped or refused, each as an if and only if over the gates |
| Cycle.CycleSends | prox_mpc_controller/src/prox_mpc_controller.cpp:906-1005 | a braking command ramps each channel from its measurement or last command by its rate times the period, an accepted one is the first control; the remembered twist is the model's for what was sent or a ramp of the measured one, and the steering belief follows the candidate or the ramp |
| Controller.ProxMpcController.ComputeVelocityCommands | prox_mpc_controller/src/prox_mpc_controller.cpp:876-1716 | a cycle is accepted if and only if limit, pose, plan, transform, solve and twist are in order, no stop is requested, and no node within the stopping distance is blocked; every other verdict is told the same way from the inputs, and the run moves by the verdict alone; an accepted iterate meets every bound and keeps the barrier over the horizon, starts at the measured pose under a cap of one, its first control is the command, and while anchor and last command agree that is within every rate of the command before |
| Controller.ProxMpcController.MakeBrake | prox_mpc_controller/src/prox_mpc_controller.cpp:906-1005 | every channel is ramped from its measurement or last command, and the ramped controls become both the last command and the anchor |
| Controller.ProxMpcController.Propose | prox_mpc_controller/src/prox_mpc_controller.cpp:1558-1562 | proposing a candidate changes nothing the run remembers, and a solved proposal delivers the bounds, the barrier and the first state |
| Controller.ProxMpcController.Settle | prox_mpc_controller/src/prox_mpc_controller.cpp:1581-1716 | past the solve a cycle is accepted if and only if the candidate is solved, finite and unblocked with a finite twist, and vetoed if and only if it is solved and finite but blocked |
| Controller.ProxMpcController.Commit | prox_mpc_controller/src/prox_mpc_controller.cpp:1706-1716 | past every gate the candidate is retained, both counters restart and the command is remembered |
| Controller.ProxMpcController.Reset | prox_mpc_controller/src/prox_mpc_controller.cpp:1788-1805 | a new task clears everything but the core's anchor and iterate |
| Controller.ProxMpcController.Cancel | prox_mpc_controller/src/prox_mpc_controller.cpp:1778-1786 | a stop is granted exactly below the standstill threshold, and otherwise stays requested |
| Controller.ProxMpcController.FootprintCheck | prox_mpc_controller/src/prox_mpc_controller.cpp:1609-1666 | the veto holds exactly when the footprint has three points and a node within the stopping distance is blocked |
| SpeedLimit.YieldEnvelope | prox_mpc_controller/src/prox_mpc_controller.cpp:1421-1425 | over any run of active cycles the factor is the lower envelope of the past targets plus the time since each: it drops at once and recovers at one per second |
| SpeedLimit.YieldStep | prox_mpc_controller/src/prox_mpc_controller.cpp:1421-1425 | one step keeps the factor in [0, 1], below its target, dropping at once and rising by at most the period |
| SpeedLimit.TargetLaw | prox_mpc_controller/src/prox_mpc_controller.cpp:1418-1420 | no breach asks for no yield, a breach as deep as the band for a stop, and in between the yield is the breach's share of the band |
| SpeedLimit.CapInside | prox_mpc_controller/src/prox_mpc_controller.cpp:1446-1456 | the capped box is never empty and never above the speed limit unless the model's own minimum speed is |
| SpeedLimit.CapIsLeast | prox_mpc_controller/src/prox_mpc_controller.cpp:1438-1456 | the cap is the least top that does not fall below what the yield asks for and that one step from the last command can meet |
| SpeedLimit.CapNeverBlocksIff | prox_mpc_controller/src/prox_mpc_controller.cpp:1438-1456 | for every channel, command last applied and core anchor, the cap never makes a speed-limit box that one step from the anchor can meet unreachable, for all limits and yields, if and only if the slowest first control is above the range, not forward, no faster than the minimum speed, or reachable by the cap's own count from the command last applied |
| SpeedLimit.CapHarmlessSyncedIff | prox_mpc_controller/src/prox_mpc_controller.cpp:1438-1456 | while anchor and last command agree the cap is harmless at every speed if and only if the model may slow down or has a single speed |
| SpeedLimit.SyncedNeverBlocked | prox_mpc_controller/src/prox_mpc_controller.cpp:998-1002 | in a run, a state whose anchor and last command agree is never blocked by the cap of a model that may slow down |
| SpeedLimit.BlockedAfterReset | prox_mpc_controller/src/prox_mpc_controller.cpp:1788-1793 | at half speed, a reset and one throwing cycle under a failure budget of zero leave anchor and last command apart, and a full yield then leaves no first control although the speed limit's box has one |
| SpeedLimit.CapFeasible | prox_mpc_controller/src/prox_mpc_controller.cpp:1438-1456 | from an anchor inside the limit one step meets the capped box for every yield if and only if the slowest first control is not forward, no faster than the limit's lower side, or reachable by the cap's own count from the command last applied |
| SpeedLimit.CappedRunStays | prox_mpc_controller/src/prox_mpc_controller.cpp:1438-1456 | accepted cycles under one limit keep the premise, so every cycle of such a run has a first control |
| SpeedLimit.SpeedGovernor.ApplySpeedLimit | prox_mpc_controller/src/prox_mpc_controller.cpp:1757-1776 | the box becomes the intersection of the model's range and the limit; it fails exactly when the limit is below a positive minimum speed, and then nothing moves |
| SpeedLimit.RequestedLaw | prox_mpc_controller/src/prox_mpc_controller.cpp:1757-1767 | a request that is not positive means no limit, a percentage its share of the model's own speed, an absolute one its value, and never more than the model's own |
| SpeedLimit.SpeedGovernor.Yield | prox_mpc_controller/src/prox_mpc_controller.cpp:1387-1456 | the factor moves by the yield rule or returns to one, and the capped box is written over the entry of the speed control |
| SpeedLimit.RestoreIff | prox_mpc_controller/src/prox_mpc_controller.cpp:1768-1774 | lifting the limit restores the declared range if and only if the model does not drive faster backward than forward |
| PlanPath.ArcLengths | prox_mpc_controller/src/prox_mpc_controller.cpp:1051-1065 | the loop computes the cumulative segment lengths |
| PlanPath.ArcSteps | prox_mpc_controller/src/prox_mpc_controller.cpp:1051-1065 | from vertex to vertex the arc length grows by exactly the length of the segment |
| PlanPath.FootNearest | prox_mpc_controller/src/prox_mpc_controller.cpp:1077-1087 | the clamped foot is the nearest point of its segment |
| PlanPath.FootOfDegenerate | prox_mpc_controller/src/prox_mpc_controller.cpp:1081-1084 | a segment under the threshold is projected onto its start, which is within 1e-9 of every point of it |
| PlanPath.Project | prox_mpc_controller/src/prox_mpc_controller.cpp:1073-1099 | the projection is on the first nearest segment from the retained one on, at its foot; no later point of the plan is nearer, and the arc length lies between that segment's ends |
| PlanPath.BestIsFirst | prox_mpc_controller/src/prox_mpc_controller.cpp:1073-1093 | no segment is nearer than the kept one and every earlier one is strictly farther |
| PlanPath.PassesIff | prox_mpc_controller/src/prox_mpc_controller.cpp:1089-1093 | the projection passes a vertex if and only if some later segment is strictly nearer than every segment left before it |
| PlanPath.PassableIff | prox_mpc_controller/src/prox_mpc_controller.cpp:1073-1094 | there is a robot position for which the projection passes a vertex if and only if a later segment has a point on none of the segments left before it |
| PlanPath.Sample | prox_mpc_controller/src/prox_mpc_controller.cpp:1234-1257 | the sample is the plan point at the wanted arc length, at most 1e-9 behind it on a degenerate segment, and exactly the last vertex at the end |
| Reference.FlipsFromRest | prox_mpc_controller/src/prox_mpc_controller.cpp:1145-1156 | with every gate on, a direction change happens only at or below the standstill speed and after the dwell |
| Reference.FlipsApart | prox_mpc_controller/src/prox_mpc_controller.cpp:869-871 | two direction changes are at least the dwell apart in accumulated time |
| Reference.FlipsIff | prox_mpc_controller/src/prox_mpc_controller.cpp:1133-1156 | while the plan asks for the other direction with every gate on, the direction has changed if and only if some cycle found the robot at rest with the dwell passed, and until then the change is pending |
| Reference.UnguardedFlipIff | prox_mpc_controller/src/prox_mpc_controller.cpp:1145-1171 | in any run a cycle changes direction without rest and dwell if and only if a gate is off while the robot was in reverse |
| Reference.RunPassesIff | prox_mpc_controller/src/prox_mpc_controller.cpp:1073-1171 | from the segment into a vertex, some run of cycles gets past the vertex if and only if the plan past it is not all driven back over that segment |
| Reference.EndsByCusp | prox_mpc_controller/src/prox_mpc_controller.cpp:1160-1171 | with a segment ahead driven the other way the reference ends no later than its start |
| Reference.HeldAtCusp | prox_mpc_controller/src/prox_mpc_controller.cpp:1133-1171 | at a cusp whose later legs retrace the incoming one, over any run with the gates on the retained segment stays before the cusp and the latch keeps its direction without waiting for a change, while the leg past the cusp stays opposed to it |
| Reference.DirectionLatch.Direct | prox_mpc_controller/src/prox_mpc_controller.cpp:1133-1171 | the reference ends at the robot while a change is pending, otherwise at the first segment driven the other way or the end of the plan, and every segment it spans agrees with the direction |
| Reference.Cruise | prox_mpc_controller/src/prox_mpc_controller.cpp:1174-1428 | the cruise speed is the capped base eased by three shares of at most one, so the horizon ends within the reference and a pending change means zero |
| Reference.PaceLaw | prox_mpc_controller/src/prox_mpc_controller.cpp:1174-1428 | with no easing the cruise is the least of desired speed, limit and remaining over horizon; inside the tolerance it is in proportion to the distance left, bending divides it, the yield scales it, both are off while settling, and turning on the spot it is zero |
| Reference.NeverOvershoots | prox_mpc_controller/src/prox_mpc_controller.cpp:1462-1485 | s0 + v k dt stays between s0 and the end of the reference for every node |
| Reference.WantLaw | prox_mpc_controller/src/prox_mpc_controller.cpp:1462-1475 | the nodes start at the robot and follow each other at the cruise speed a step apart; while settling all stand at the end of the reference |
| Reference.Nodes | prox_mpc_controller/src/prox_mpc_controller.cpp:1462-1485 | every reference point is the plan point at its node's arc length, which is not past the end |
| Reference.Unwrap | prox_mpc_controller/src/prox_mpc_controller.cpp:1460-1486 | each heading is the raw one up to whole turns and none is more than half a turn from the one before, the first from the direction of travel |
| Reference.Lay | prox_mpc_controller/src/prox_mpc_controller.cpp:1460-1486 | the nodes and headings are sampled from the plan, or, turning on the spot, are the robot's own position and the goal's heading |
| Reference.Guide.Refer | prox_mpc_controller/src/prox_mpc_controller.cpp:1051-1486 | one cycle composed: project, latch, end the reference, settle, ease the cruise and lay the nodes; the horizon never spans a segment driven the other way, and while a change of direction is pending the speed is zero and every node is at the robot |
| Reference.SettlesIff | prox_mpc_controller/src/prox_mpc_controller.cpp:1292-1300 | over any run the settling mode is on if and only if it was entered inside the tolerance of the goal, or was on before, and no cycle since has left the wider band or the goal |
| Reference.SettleHolds | prox_mpc_controller/src/prox_mpc_controller.cpp:1292-1300 | once inside the tolerance, settling holds as long as the distance stays within the hysteresis band |
| StaticSlots.Pick | prox_mpc_controller/src/prox_mpc_controller.cpp:2256-2269 | representatives are at least a cluster radius apart and within the budget; every cell up to where the budget is spent, or every cell, is one or is near one |
| StaticSlots.FindMatch | prox_mpc_controller/src/prox_mpc_controller.cpp:2280-2292 | a representative matches the nearest object not yet claimed at the node within the radius, the first on ties, or none |
| StaticSlots.BindNode | prox_mpc_controller/src/prox_mpc_controller.cpp:2271-2302 | each representative becomes one sighting, in order; each continues the nearest object not yet sighted at the node within the radius, or starts a new one; objects, links and closest approaches stay consistent |
| StaticSlots.OncePerNode | prox_mpc_controller/src/prox_mpc_controller.cpp:2278-2300 | no object is sighted twice at a node |
| StaticSlots.SightingsClose | prox_mpc_controller/src/prox_mpc_controller.cpp:2276-2302 | consecutive sightings of an object are less than a cluster radius apart |
| StaticSlots.Rank | prox_mpc_controller/src/prox_mpc_controller.cpp:2316-2325 | the stable order: first node, then closest approach, then discovery |
| StaticSlots.EarlierKeepsSlot | prox_mpc_controller/src/prox_mpc_controller.cpp:2305-2330 | an object met at an earlier node, or at the same one and closer, never loses its slot to the other |
| StaticSlots.SlotLost | prox_mpc_controller/src/prox_mpc_controller.cpp:2305-2330 | an object goes without a slot only when every slot belongs to an object met earlier, or at the same node and no farther |
| StaticSlots.LeftOut | prox_mpc_controller/src/prox_mpc_controller.cpp:2256-2330 | a cell without a sighting in a slot is left out only when every static slot is taken |
| StaticSlots.SlotOfOne | prox_mpc_controller/src/prox_mpc_controller.cpp:2327-2330 | a slot belongs to one object and lies in the static range |
| StaticSlots.SlotCarriesOne | prox_mpc_controller/src/prox_mpc_controller.cpp:2331-2338 | all rows of a slot carry one object, each at its own node |
| StaticSlots.RowOnce | prox_mpc_controller/src/prox_mpc_controller.cpp:2331-2338 | no row is written twice |
| StaticSlots.DynamicUntouched | prox_mpc_controller/src/prox_mpc_controller.cpp:2327-2338 | rows of slots before the static range are left as they were |
| StaticSlots.FillStatic | prox_mpc_controller/src/prox_mpc_controller.cpp:2205-2339 | at every scanned node each cell is a sighting or within the cluster radius of one, unless nearer sightings have spent the budget; every sighting continues the nearest unclaimed object within the radius; every sighting of a slotted object is in its own row, every other row is as it was, and sightings at one node are a cluster radius apart |
| CostmapScan.ScanNode | prox_mpc_controller/src/prox_mpc_controller.cpp:2205-2254 | a node off the map has no scan; otherwise its cells are exactly the occupied cells of the window within the search radius and outside every mover's footprint, nearest first |
| CostmapScan.ClutterLimits | prox_mpc_controller/src/prox_mpc_controller.cpp:2225-2248 | a cost at the threshold is occupied and one below is not, unknown space is not, a cell at exactly the search radius is kept, one on a mover's rim is kept and one inside is not |
| CostmapScan.SeesAllIff | prox_mpc_controller/src/prox_mpc_controller.cpp:2141-2153 | whatever the map, the movers and the node on the map, the scan misses no cell to keep out of if and only if the search radius is shorter than the configured number of cells and a half |
| CostmapScan.SeesEverywhereIff | prox_mpc_controller/src/prox_mpc_controller.cpp:2213-2222 | the same for every node, on the map or off it, holds if and only if the search radius is less than half a cell, because a node off the map is not scanned |
| CostmapScan.JustOffTheMap | prox_mpc_controller/src/prox_mpc_controller.cpp:2213-2222 | a map of one cell and a node just beside it: the scan is complete for every node on the map, and still the occupied cell next to this node is missed |
| PredictiveFill.StraightBetweenKnots | prox_mpc_controller/src/prox_mpc_controller.cpp:135-155 | on every closed sampling interval the prediction runs straight from knot to knot, so it is continuous and passes through every sample |
| PredictiveFill.StraightBeyond | prox_mpc_controller/src/prox_mpc_controller.cpp:141-147 | past the last sample it keeps the velocity of the last interval |
| PredictiveFill.ThroughSamples | prox_mpc_controller/src/prox_mpc_controller.cpp:135-155 | the prediction is at the reported position now and at each sample at its time |
| PredictiveFill.ShadowCovers | prox_mpc_controller/src/prox_mpc_controller.cpp:2049-2079 | the shadowed disc covers the unshadowed one |
| PredictiveFill.ShadowReach | prox_mpc_controller/src/prox_mpc_controller.cpp:2057-2062 | along the heading the shadowed disc covers exactly from d behind to d + 2 s ahead |
| PredictiveFill.MoverReach | prox_mpc_controller/src/prox_mpc_controller.cpp:2035-2082 | along its heading a mover's disc reaches from robot, radius, margin and growth behind its predicted position to as much and twice the shadow ahead of it, and no farther; at a crawl there is no shadow |
| PredictiveFill.MoverCovered | prox_mpc_controller/src/prox_mpc_controller.cpp:2041-2082 | whatever the speed, a mover's disc covers the plain disc about its predicted position |
| PredictiveFill.PlaceMovers | prox_mpc_controller/src/prox_mpc_controller.cpp:2025-2092 | slot j carries mover j at every node |
| PredictiveFill.FillObstacles | prox_mpc_controller/src/prox_mpc_controller.cpp:1850-2113 | the movers are those of the reports that pass the screen, ranked by the closest approach of their predictions to the first two columns of the reference; the closest get a slot each at every node; every cell to keep out of in the window of a node on the map has a disc that stands for it at that node, unless all the slots the movers leave are in use; static clutter only enters those slots and is never on a mover's footprint, and an unwritten row holds the sentinel |
| PredictiveFill.ScanNodes | prox_mpc_controller/src/prox_mpc_controller.cpp:2205-2254 | a node is scanned if and only if its centre is on the map, and its scan is exactly the cells to keep out of, nearest first |
| PredictiveFill.NoWallMissed | prox_mpc_controller/src/prox_mpc_controller.cpp:2126-2339 | when the window spans the search radius, every occupied cell within robot, margin and cluster radius of a node on the map and not under a mover has a disc that stands for it, unless all the slots the movers leave are in use |
| PredictiveFill.Screened | prox_mpc_controller/src/prox_mpc_controller.cpp:1931-1973 | a report becomes a mover only when every field is well formed and it is neither too large nor too slow, and its samples are used whole or not at all |
| PredictiveFill.ScreenedIff | prox_mpc_controller/src/prox_mpc_controller.cpp:1931-1973 | the converse too: exactly the reports with finite fields, a radius neither negative nor over the limit and a speed not below the threshold become movers, each the report seen through the frame, with its samples exactly when their step is positive and all are finite |
| PredictiveFill.FrameRigid | prox_mpc_controller/src/prox_mpc_controller.cpp:1920-1948 | the frame takes the axes to a rotated pair and keeps every distance |
| PredictiveFill.SpeedFrameFree | prox_mpc_controller/src/prox_mpc_controller.cpp:1945-1950 | whether an obstacle counts as moving does not depend on the frame it is reported in |
| PredictiveFill.Score | prox_mpc_controller/src/prox_mpc_controller.cpp:1975-1991 | the priority is the least distance over the nodes between the prediction and the point in the first two columns of the reference |
| PredictiveFill.Rate | prox_mpc_controller/src/prox_mpc_controller.cpp:1931-1993 | every report that passes the screen is scored, once, in the order received |
| PredictiveFill.Choose | prox_mpc_controller/src/prox_mpc_controller.cpp:1994-2002 | the movers that get a slot are the first of all movers in order of that priority, as many as capacity and cap allow |
| PredictiveFill.RanksByPositionIff | prox_mpc_controller/src/prox_mpc_controller.cpp:1983-1990 | every priority, for every mover and reference, is the closest approach to the reference position if and only if the model keeps its position in columns 0 and 1 |
| PredictiveFill.WrongMoverFirst | prox_mpc_test_models/include/prox_mpc_test_models/permuted_planar_mapping_model.hpp:18-56 | with the heading in column 0 and the position in columns 1 and 2, two reports for which every ranking puts the mover away from the reference position before the one that comes onto it |
| Avoidance.ShadowKeepsGap | prox_mpc_controller/src/prox_mpc_controller.cpp:2049-2079 | no point looks clearer of a shadowed disc than of the disc itself |
| Avoidance.DiscWithinGap | prox_mpc_controller/src/prox_mpc_controller.cpp:2041-2082 | the clearance from a mover's disc is never more than the gap to its predicted position beyond robot, mover, margin and growth |
| Avoidance.GuardedKeepsGap | prox_mpc_core/src/proxqp.cpp:561-678 | a trajectory with the barrier keeps, at every node up to which a mover's slot is separated, a gap of at least (1 - gamma)^(k+1) times the clearance now less the discounted slacks |
| Avoidance.KeepsPlainClearance | prox_mpc_core/src/proxqp.cpp:747-757 | from a start outside the disc, or at gamma = 1 from any start, the gap to the predicted position is at least minus the discounted slacks |
| Avoidance.OnlyOwnSlack | prox_mpc_core/src/proxqp.cpp:747-757 | at gamma = 1 the discounted slacks are the slack of the node itself |
| Avoidance.GuardedKeepsOffWall | prox_mpc_core/src/proxqp.cpp:561-678 | a trajectory with the barrier stays off every cell its disc stands for by robot and margin less the cluster radius, plus the decayed clearance now and less the discounted slacks, at every node up to which the slot is separated |
| Pilot.Pilot.Drive | prox_mpc_controller/src/prox_mpc_controller.cpp:858-1716 | one call composed: a pending speed limit, the gates, the yield and its cap, the reference, the discs, the solve and the gates past it; it is accepted if and only if the limit is not below the minimum speed, every input is in order, the candidate is solved and finite, no node within the stopping distance is blocked and the twist is finite; an accepted trajectory delivers bounds, barrier and first state for the goals and discs made in this call, clutter walled off and every slotted mover kept away from, its command is under the cap of this cycle, and while anchor and last command agree it is within every rate |
| Pilot.Pilot.Limit | prox_mpc_controller/src/prox_mpc_controller.cpp:876-880 | a pending limit is refused exactly when it is below a positive minimum speed, and then nothing moves; otherwise the solver reads the new box |
| Pilot.Pilot.Yield | prox_mpc_controller/src/prox_mpc_controller.cpp:1421-1456 | the factor moves by the yield rule, and with the cap on the capped box about the command last applied is a bound of this cycle's program |
| Pilot.Pilot.Refer | prox_mpc_controller/src/prox_mpc_controller.cpp:1459-1523 | the goals hold the positions of a reference laid along the plan in the model's position columns, and the signed cruise in its speed column |
| Pilot.Pilot.Discs | prox_mpc_controller/src/prox_mpc_controller.cpp:1536-1543 | with fresh reports the movers are the first of the ranking against this cycle's goals, and each has its slot at every node; the clutter about the retained trajectory is walled off unless the slots left are all in use |
| Pilot.GoalColumns | prox_mpc_controller/src/prox_mpc_controller.cpp:1459-1523 | positions, headings and steering angles of the goals in their own columns, the cruise signed by the direction in the speed's, zero everywhere else |
| Pilot.ScansWhereLinearised | prox_mpc_controller/src/prox_mpc_controller.cpp:2155-2203 | the scan of a node is centred where the first program of the cycle linearises that node's rows, on the robot's centre |
| Pilot.DeliveredKeepsFrom | prox_mpc_controller/src/prox_mpc_controller.cpp:2025-2092 | whatever the solver did within its contract, a delivered trajectory keeps the gap of the barrier from every mover with a slot |
| Pilot.DeliveredInside | prox_mpc_core/src/proxqp.cpp:524-558 | a delivered first control is inside every entry of the control table, duplicates included |
| Sorting.SortBy | prox_mpc_controller/src/prox_mpc_controller.cpp:1994-1997 | sorting by a key orders the list and loses nothing |
| Kalman.UpdatePsd | prox_mpc_obstacle_tracker/src/imm_filter.cpp:277-297 | the innovation matrix is invertible and (I - KH) P stays symmetric positive semidefinite, for any state size |
| Kalman.UpdateShrinks | prox_mpc_obstacle_tracker/src/imm_filter.cpp:285 | an update increases the variance in no direction |
| Kalman.UpdateBelowNoise | prox_mpc_obstacle_tracker/src/tracker.cpp:132-137 | after an update each position variance is below the measurement noise |
| Kalman.InnovationInvertible | prox_mpc_obstacle_tracker/src/imm_filter.cpp:282 | the innovation matrix is positive definite |
| Kalman.CorrectedResidual | prox_mpc_obstacle_tracker/src/tracker.cpp:132-137 | S times the residual after an update is the noise times the residual before, and noise times the correction of any state entry is its prior covariance with the position times the residual left |
| Kalman.UpdatedLoss | prox_mpc_obstacle_tracker/src/imm_filter.cpp:285 | noise times what a covariance entry loses is its prior covariance with the position times the position's updated covariance with the other |
| LegacyKalman.RunKeepsAxes | prox_mpc_obstacle_tracker/src/tracker.cpp:35-63 | over every run of predicts and updates the covariance is two identical uncoupled axes, each positive semidefinite |
| LegacyKalman.MeasurementTightens | prox_mpc_obstacle_tracker/src/tracker.cpp:119-138 | each update leaves the position variance below the measurement noise and not above the prior |
| LegacyKalman.PredictAxes | prox_mpc_obstacle_tracker/src/tracker.cpp:35-63 | a predict keeps the two-axis form and gives its entries |
| LegacyKalman.UpdateAxes | prox_mpc_obstacle_tracker/src/tracker.cpp:132-137 | an update keeps the two-axis form and gives its entries |
| LegacyKalman.StepKeepsAxes | prox_mpc_obstacle_tracker/src/tracker.cpp:35-63 | one step of either kind keeps the two-axis form positive semidefinite |
| Imm.RunSound | prox_mpc_obstacle_tracker/src/imm_filter.cpp:158-309 | over every run of resets, predicts and updates the probabilities stay on the simplex, the predicted ones are positive when divided by, and both covariances stay positive semidefinite |
| Imm.DivisionSafeIff | prox_mpc_obstacle_tracker/src/imm_filter.cpp:189-201 | the predicted probabilities are positive for every point of the simplex if and only if both stay probabilities are strictly inside (0, 1) |
| Imm.MixingWeights | prox_mpc_obstacle_tracker/src/imm_filter.cpp:194-201 | the mixing weights of each model are nonnegative and sum to one |
| Imm.MixingIsBayes | prox_mpc_obstacle_tracker/src/imm_filter.cpp:185-201 | each mixing weight times the predicted probability of its mode is the probability of having been in the one mode and passed to the other |
| Imm.CvPredictMoments | prox_mpc_obstacle_tracker/src/imm_filter.cpp:203-240 | in every direction the predicted mean and second moment of the constant-velocity model are those of the two estimates before, weighted by where the mode comes from and taken through the transition, plus the process noise |
| Imm.CtrvMixing | prox_mpc_obstacle_tracker/src/imm_filter.cpp:212-236 | the mixed mean of the constant-turn model is the weighted one away from the heading, the heading moves by weighted wrapped differences, and the covariance is the weighted sum of each estimate's own and its squared deviation |
| Imm.LikelihoodIsDensity | prox_mpc_obstacle_tracker/src/imm_filter.cpp:94-103 | the likelihood is the density of the residual's squared distance in units of the innovation matrix, and zero when that has no positive determinant |
| Imm.UpdateIsBayes | prox_mpc_obstacle_tracker/src/imm_filter.cpp:273-309 | above the floor an update weighs the predicted probabilities by the likelihoods, below it leaves the probabilities alone; both models are corrected with the same measurement and the heading wrapped |
| Imm.CvToCtrvPsd | prox_mpc_obstacle_tracker/src/imm_filter.cpp:65-92 | the converted covariance stays positive semidefinite although two diagonal entries are overwritten |
| Imm.PredictSound | prox_mpc_obstacle_tracker/src/imm_filter.cpp:179-271 | a predict keeps the invariant for any step |
| Imm.UpdateSound | prox_mpc_obstacle_tracker/src/imm_filter.cpp:273-309 | an update keeps the invariant, with the prior probabilities kept on underflow |
| Imm.CombinedPsd | prox_mpc_obstacle_tracker/src/imm_filter.cpp:316-325 | the combined covariance is symmetric positive semidefinite |
| Imm.CombinedMatchesMoments | prox_mpc_obstacle_tracker/src/imm_filter.cpp:311-325 | the combined state and covariance match the mixture's first two moments in every direction |
| Imm.ImmFilter.constructor | prox_mpc_obstacle_tracker/src/imm_filter.cpp:158-177 | a new filter is sound |
| Imm.ImmFilter.Predict | prox_mpc_obstacle_tracker/src/imm_filter.cpp:179-271 | the fields take the predicted state |
| Imm.ImmFilter.Update | prox_mpc_obstacle_tracker/src/imm_filter.cpp:273-309 | the fields take the updated state |
| Clustering.GroupsAreComponents | prox_mpc_obstacle_tracker/src/clustering.cpp:36-62 | two returns are closed together if and only if they are connected in the cyclic graph of returns within the gap |
| Clustering.OnePerComponent | prox_mpc_obstacle_tracker/src/clustering.cpp:66-109 | before the cap there is exactly one cluster for each component that is neither too small nor too wide, counting its members, at their mean, with the least enclosing radius |
| Clustering.RotationInvariant | prox_mpc_obstacle_tracker/src/clustering.cpp:29-109 | rotating the point list leaves the multiset of clusters before the cap unchanged |
| Clustering.CloseRotated | prox_mpc_obstacle_tracker/src/clustering.cpp:66-97 | the cluster of a group does not depend on the order of its two ranges |
| Clustering.ClusterEncloses | prox_mpc_obstacle_tracker/src/clustering.cpp:79-97 | a cluster's disc about its centroid contains all its members and touches one |
| Clustering.Sweep | prox_mpc_obstacle_tracker/src/clustering.cpp:38-50 | the sweep cuts exactly where consecutive returns are farther apart than the gap |
| Clustering.CloseSegment | prox_mpc_obstacle_tracker/src/clustering.cpp:66-97 | the loops compute count, centroid and radius of the group, or reject it for size or radius |
| Clustering.CloseGroups | prox_mpc_obstacle_tracker/src/clustering.cpp:99-109 | every group is closed once, the seam pair spliced first |
| Clustering.Cap | prox_mpc_obstacle_tracker/src/clustering.cpp:111-118 | beyond the cap no dropped cluster has more members than a kept one |
| Clustering.ClusterPoints | prox_mpc_obstacle_tracker/src/clustering.cpp:29-120 | up to the cap the result is every cluster, beyond it a sorted selection of the largest |
| Association.Associate | prox_mpc_obstacle_tracker/src/tracker.cpp:85-114 | the association is a matching inside the gate in which every in-gate pair has a side matched at least as closely |
| Association.Greedy | prox_mpc_obstacle_tracker/src/tracker.cpp:110-114 | assigning pairs closest first gives that stable matching |
| Association.BuildPairs | prox_mpc_obstacle_tracker/src/tracker.cpp:98-107 | the pair list holds exactly the pairs inside the gate |
| Association.StableUnique | prox_mpc_obstacle_tracker/src/tracker.cpp:85-114 | with distinct distances the stable matching is unique, so sort ties are the only freedom |
| Lifecycle.RunSound | prox_mpc_obstacle_tracker/src/tracker.cpp:139-183 | over every run identities increase, the count stays within the cap, exactly one counter is positive, and a track is confirmed exactly when its history holds enough consecutive hits |
| Lifecycle.NextSound | prox_mpc_obstacle_tracker/src/tracker.cpp:139-183 | one scan keeps that invariant |
| Lifecycle.DroppedExactly | prox_mpc_obstacle_tracker/src/tracker.cpp:151-156 | a track is removed exactly on the miss after drop_count consecutive ones |
| Lifecycle.SurvivorsContinue | prox_mpc_obstacle_tracker/src/tracker.cpp:151-156 | a surviving track keeps its identity and history |
| Lifecycle.OneCounter | prox_mpc_obstacle_tracker/src/tracker.cpp:139-148 | exactly one of hits and misses is positive |
| Lifecycle.IdsUniqueIff | prox_mpc_obstacle_tracker/src/tracker.cpp:162-163 | the 32-bit identities handed out are pairwise distinct if and only if there were at most 2^32 births |
| Tracker.NextShows | prox_mpc_obstacle_tracker/src/tracker.cpp:65-184 | one scan of the tracker is one scan of the lifecycle |
| Tracker.StepSound | prox_mpc_obstacle_tracker/src/tracker.cpp:65-184 | the lifecycle invariant carries over one scan |
| Tracker.Tracker.Update | prox_mpc_obstacle_tracker/src/tracker.cpp:65-184 | the association is stable about the predicted positions; each surviving track is its own prediction, fused with the measurement it was matched to, radius halfway, position moved by the share a / (a + r), every entry corrected by its covariance with the position, or aged without one; exactly the tracks that are matched or have not missed too often survive, in order; the unmatched measurements become tracks at their own positions, in order, while there is room; and the lifecycle takes its step |
| Tracker.Tracker.Advance | prox_mpc_obstacle_tracker/src/tracker.cpp:73-183 | predict, associate, fuse or age, drop and spawn, with the same said of every track |
| Tracker.NextIsScanned | prox_mpc_obstacle_tracker/src/tracker.cpp:119-183 | the track list of a scan, track by track: who is fused with which measurement, who is aged, dropped, born where and with which identity |
| Tracker.HitIsFused | prox_mpc_obstacle_tracker/src/tracker.cpp:119-143 | a matched track is fused with the cluster it is matched to |
| Tracker.PredictIsLater | prox_mpc_obstacle_tracker/src/tracker.cpp:35-63 | a predicted track has moved with its velocity and its axes have spread by the process noise, its record unchanged |
| Tracker.Tracker.Reset | prox_mpc_obstacle_tracker/src/tracker.cpp:27-33 | a reset forgets every track and starts identities over |

## Left out

- Rounding: doubles are reals, so tolerances below floating-point noise, overflow of sums and the largest double as an initial minimum are not modelled.
- The solver's internals, iteration counts, warm-start policy and timing: only its contract on a solved answer is used; the call number stands for whatever state it keeps.
- Finiteness of the candidate is a flag reported with each answer and never recovers within a cycle; individual infinities that could cancel are not modelled.
- Weight matrices are accepted by init() when symmetric to 1e-8; the cost theorem is for exactly symmetric ones.
- The setter-ordering and size checks of the horizon (Np, Nc, T, dt, goal matrices) and the mapping checks of init(): the preconditions ValidDims and ValidConfig cover every configuration they let through, and their error paths are not modelled.
- The Hessian's own sparse view: it is built once from constant weights, and the model hands the dense Hessian over.
- Block writes into the equality matrix are modelled row by row; the order in which the rows of one block are written is not captured.
- Jacobians of the bicycle and unicycle models, the heading and steering references, curvature estimation, and the bodies of toTwist and fromTwist: they need calculus and trigonometry; the model takes them as functions.
- The constant-turn-rate closed form, the conversions between the two state spaces and the tracker's predicted samples: the formulas are taken as they are, and only that the covariances stay sound for any values the trigonometric functions take is proved of them.
- The locks around the costmap and the obstacle list, and a map that changes between the scans of two nodes: one fill sees one map.
- The frame transform's lookup: a known frame is a rotation and a translation, and an unknown one turns the fill static.
- The deepest breach that drives the yield is an input; the yield's use of the last trajectory is not modelled.
- Reference.Lay: the plan's tangent, the heading of the goal and the tests that start a turn on the spot are inputs, because they need quaternions and arc tangents; the steering and offset corrections of the heading reference are functions the pilot is given.
- Pilot.Pilot.Drive: the measurements of a call (pose, twist, period, dwell, costmap, reports) are one value given to it; whether the yield is active and the deepest breach are part of it.
- Pilot.Pilot.Refer: does not fix the headings and steering angles of the goals, which take trigonometry.
- std::sort is replaced by an insertion sort with the same promise; std::partial_sort by selection; the order among ties is left open where the original leaves it open.
- Signed overflow of hit and miss counters.
- ROS lifecycle, parameters, transforms, publishers, logging, diagnostics and markers.
- Clustering.Cap: does not fix which of several equally large clusters are kept, because the original does not either.
