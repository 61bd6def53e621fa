/** Why a cap of one program per cycle is what keeps a solved candidate at the pose: under
    any larger cap a solver that keeps its contract can leave the candidate elsewhere. */
module SqpCap {
  import opened Linear
  import opened QpLayout
  import opened QpRows
  import opened QpFeasible
  import opened QpFill
  import opened QpCost
  import opened ProxQp
  import opened Mpc

  // ----- a program that is always feasible

  /** Neither bounds nor obstacles: the dynamics are the only constraints. */
  predicate Free(s: Dims) { s.nx == 0 && s.nu == 0 && s.ndu == 0 && !s.obstacles }

  /** The state increments of the linearised dynamics with the controls kept. */
  function Rollout(g: Config, dyn: Dynamics, it: Iterate, node: nat): (v: Vec)
    requires ValidConfig(g) && ValidDynamics(g.dims, dyn) && Fits(g.dims, it) && node < g.dims.np + 1
    ensures |v| == g.dims.n
  {
    if node == 0 then Zeros(g.dims.n)
    else
      var x, u := it.x[node - 1], it.u[HeldBlock(g.dims, node - 1)];
      VAdd(MatVec(dyn.a(x, u, g.dt), Rollout(g, dyn, it, node - 1)), dyn.c(x, u, it.x[node], g.dt))
  }

  /** Rows of length n written one after another, then zeros. */
  function Flatten(rows: seq<Vec>, n: nat, len: nat): (d: Vec)
    requires n > 0 && forall k :: 0 <= k < |rows| ==> |rows[k]| == n
    ensures |d| == len
  {
    seq(len, c requires 0 <= c < len => if c / n < |rows| then rows[c / n][c % n] else 0.0)
  }

  /** The same as one increment of the decision vector. */
  function RolloutStep(g: Config, dyn: Dynamics, it: Iterate): (d: Vec)
    requires ValidConfig(g) && ValidDynamics(g.dims, dyn) && Fits(g.dims, it)
    ensures |d| == Vars(g.dims)
  {
    Flatten(seq(g.dims.np + 1, node requires 0 <= node < g.dims.np + 1 => Rollout(g, dyn, it, node)), g.dims.n, Vars(g.dims))
  }

  lemma CellSplit(node: nat, i: nat, n: nat)
    requires i < n
    ensures (Times(node, n) + i) / n == node && (Times(node, n) + i) % n == i
  {
    var x := Times(node, n) + i;
    assert x == Times(x / n, n) + x % n;
    CellUnique(node, i, x / n, x % n, n);
  }

  lemma PastStates(s: Dims, c: nat)
    requires ValidDims(s) && c >= UStart(s)
    ensures c / s.n >= s.np + 1
  {
    assert c == Times(c / s.n, s.n) + c % s.n;
    TimesNext(c / s.n, s.n);
    if c / s.n < s.np + 1 { TimesMono(c / s.n + 1, s.np + 1, s.n); }
  }

  lemma RolloutStates(g: Config, dyn: Dynamics, it: Iterate, node: nat)
    requires ValidConfig(g) && ValidDynamics(g.dims, dyn) && Fits(g.dims, it) && node < g.dims.np + 1
    ensures StateStep(g.dims, RolloutStep(g, dyn, it), node) == Rollout(g, dyn, it, node)
  {
    hide Times, Vars, Rollout, ValidDynamics;
    var v := StateStep(g.dims, RolloutStep(g, dyn, it), node);
    forall i | 0 <= i < g.dims.n ensures v[i] == Rollout(g, dyn, it, node)[i] { CellSplit(node, i, g.dims.n); }
  }

  lemma RolloutControls(g: Config, dyn: Dynamics, it: Iterate, block: nat)
    requires ValidConfig(g) && ValidDynamics(g.dims, dyn) && Fits(g.dims, it) && block < g.dims.nc
    ensures ControlStep(g.dims, RolloutStep(g, dyn, it), block) == Zeros(g.dims.m)
  {
    hide Times, Vars, Rollout, ValidDynamics, UStart;
    var v := ControlStep(g.dims, RolloutStep(g, dyn, it), block);
    forall i | 0 <= i < g.dims.m ensures v[i] == 0.0 { PastStates(g.dims, UCol(g.dims, block, i)); }
  }

  /** Without bounds and obstacles the linearised dynamics can always be followed. */
  lemma RolloutMeets(pb: Problem, it: Iterate)
    requires ValidProblem(pb) && Free(pb.g.dims) && Fits(pb.g.dims, it)
    ensures Meets(pb, it, RolloutStep(pb.g, pb.dyn, it))
  {
    hide Times, Vars, Dot, RolloutStep, StateStep, ControlStep;
    var g, s, d := pb.g, pb.g.dims, RolloutStep(pb.g, pb.dyn, it);
    forall r: EqRow {:trigger ValidEqRow(s, r)} | ValidEqRow(s, r) ensures EqProduct(g, pb.dyn, it, d, r) == EqTarget(g, pb.dyn, it, r) {
      match r
      case Pin(i) => RolloutStates(g, pb.dyn, it, 0);
      case Dyn(node, i) => RolloutRow(g, pb.dyn, it, node, i);
    }
  }

  lemma RolloutNext(g: Config, dyn: Dynamics, it: Iterate, node: nat, i: nat)
    requires ValidConfig(g) && ValidDynamics(g.dims, dyn) && Fits(g.dims, it) && node < g.dims.np && i < g.dims.n
    ensures var x, u := it.x[node], it.u[HeldBlock(g.dims, node)];
            && IsMat(dyn.a(x, u, g.dt), g.dims.n, g.dims.n) && |dyn.c(x, u, it.x[node + 1], g.dt)| == g.dims.n
            && Rollout(g, dyn, it, node + 1)[i] == Dot(dyn.a(x, u, g.dt)[i], Rollout(g, dyn, it, node)) + dyn.c(x, u, it.x[node + 1], g.dt)[i]
  {
    hide Dot;
  }

  lemma RolloutRow(g: Config, dyn: Dynamics, it: Iterate, node: nat, i: nat)
    requires ValidConfig(g) && ValidDynamics(g.dims, dyn) && Fits(g.dims, it) && node < g.dims.np && i < g.dims.n
    ensures EqProduct(g, dyn, it, RolloutStep(g, dyn, it), Dyn(node, i)) == EqTarget(g, dyn, it, Dyn(node, i))
  {
    hide Times, Vars, Dot, Rollout, RolloutStep, StateStep, ControlStep;
    RolloutStates(g, dyn, it, node);
    RolloutStates(g, dyn, it, node + 1);
    RolloutControls(g, dyn, it, HeldBlock(g.dims, node));
    RolloutNext(g, dyn, it, node, i);
    var b := dyn.b(it.x[node], it.u[HeldBlock(g.dims, node)]);
    assert IsMat(b, g.dims.n, g.dims.m);
    NoControl(g.dt, b[i]);
  }

  lemma NoControl(dt: real, b: Vec)
    ensures Mul(dt, Dot(b, Zeros(|b|))) == 0.0
  {
    DotComm(b, Zeros(|b|));
    DotZero(Zeros(|b|), b);
  }

  // ----- a solver that gives up once

  /** Converges on `next` from its second call of the cycle on, where that is feasible, and
      otherwise stops early at `kick`. */
  function Stubborn(first: nat, kick: Vec, next: Vec): Solver {
    (p, k) => if k > first && Feasible(p, next) then Answer(true, true, next) else Answer(false, true, kick)
  }

  lemma StubbornTrusted(first: nat, kick: Vec, next: Vec, vars: nat)
    requires |kick| == vars && |next| == vars
    ensures Trusted(Stubborn(first, kick, next), vars)
  {
    hide Feasible;
  }

  /** The problem the next cycle of a core poses. */
  ghost function Upcoming(core: MPC): Problem
    reads core, core.qp
  {
    Problem(core.qp.g, core.qp.root, core.qp.dyn, core.qp.wt, if core.qp.g.dims.obstacles then core.obs else [], core.u0, core.goal)
  }

  /** The two programs such a solver makes of a cycle. */
  lemma StubbornCycle(pb: Problem, kept: Iterate, pose: Vec, first: nat, kick: Vec, next: Vec, log: seq<Turn>)
    requires CycleOf(pb, kept, pose, Stubborn(first, kick, next), first, log) && |kick| == Vars(pb.g.dims) && |next| == Vars(pb.g.dims)
    requires Meets(pb, Step(pb.g.dims, WarmStart(pb.g.dims, kept, pose), kick), next)
    ensures 1 <= |log| <= 2 && log[0].answer == Answer(false, true, kick)
    ensures |log| == 2 ==> log[1].answer == Answer(true, true, next)
  {
    hide Vars, WarmStart, Meets, Poses, Feasible, ValidProblem;
    var solver := Stubborn(first, kick, next);
    assert Took(pb, solver, first + 0, log[0]);
    if |log| > 1 {
      assert Took(pb, solver, first + 1, log[1]);
      FeasibleIff(pb, log[1].at, log[1].program, next);
    }
  }

  /** In any core with a cap of two or more, an early stop that moves the first state is
      kept whenever the program about it is feasible: the candidate is reported as solved
      and starts off the pose by exactly the stopped increment. */
  method EarlyStopKept(core: MPC, kick: Vec, next: Vec)
    requires core.Valid() && core.Modelled() && core.maxIterSqp >= 2 && |kick| == Vars(core.qp.g.dims) && |next| == Vars(core.qp.g.dims)
    requires ValidProblem(Upcoming(core)) && Meets(Upcoming(core), Step(core.qp.g.dims, WarmStart(core.qp.g.dims, core.it, core.pose), kick), next)
    modifies core`cand, core`candU0, core`candSolved, core`candFinite, core`sqpIter
    modifies core.qp`eSparse, core.qp`cSparse, core.qp`calls, core.qp`obs
    modifies core.qp.c, core.qp.e, core.qp.b, core.qp.ineq, core.qp.low, core.qp.upp, core.qp.obsH, core.qp.obsHPrev
    ensures core.candSolved && Fits(core.qp.g.dims, core.cand)
    ensures forall i :: 0 <= i < core.qp.g.dims.n ==> core.cand.x[0][i] == core.pose[i] + StateStep(core.qp.g.dims, kick, 0)[i]
  {
    hide Vars, WarmStart, Meets, ProxQP.Valid, Trusted, Stubborn, Step, Delivers, Drift, ValidProblem, MPC.Cycled, MPC.Valid, ValidDynamics, ValidConfig;
    var solver := Stubborn(core.qp.calls, kick, next);
    ghost var first, pb := core.qp.calls, Upcoming(core);
    StubbornTrusted(core.qp.calls, kick, next, Vars(core.qp.g.dims));
    ghost var log := core.SolveCandidate(solver, k => false);
    assert Upcoming(core) == pb;
    CycledValid(core, solver, first, log);
    StubbornMeans(core, first, kick, next, log);
  }

  /** What such a cycle leaves in the core. */
  lemma StubbornMeans(core: MPC, first: nat, kick: Vec, next: Vec, log: seq<Turn>)
    requires core.Valid() && core.Modelled() && |kick| == Vars(core.qp.g.dims) && |next| == Vars(core.qp.g.dims)
    requires core.Cycled(Stubborn(first, kick, next), first, log) && (core.candSolved || core.sqpIter >= 2)
    requires ValidProblem(Upcoming(core)) && Meets(Upcoming(core), Step(core.qp.g.dims, WarmStart(core.qp.g.dims, core.it, core.pose), kick), next)
    requires core.candSolved ==> Delivers(core.qp.g, core.qp.root, core.obs, core.pose, core.u0, log, core.cand)
    ensures core.candSolved && Fits(core.qp.g.dims, core.cand)
    ensures forall i :: 0 <= i < core.qp.g.dims.n ==> core.cand.x[0][i] == core.pose[i] + StateStep(core.qp.g.dims, kick, 0)[i]
  {
    hide Vars, WarmStart, Meets, ProxQP.Valid, Stubborn, Step, CycleOf, Delivers, ValidProblem, ValidDynamics, ValidConfig;
    assert core.Cycle() == Upcoming(core);
    StubbornCycle(core.Cycle(), core.it, core.pose, first, kick, next, log);
    EarlyDrift(core.qp.g, core.qp.root, core.obs, core.pose, core.u0, log, core.cand);
  }

  lemma EarlyDrift(g: Config, root: real -> real, obs: seq<Disc>, pose: Vec, anchor: Vec, log: seq<Turn>, t: Iterate)
    requires Delivers(g, root, obs, pose, anchor, log, t) && |log| == 2
    ensures forall i :: 0 <= i < g.dims.n ==> t.x[0][i] == pose[i] + StateStep(g.dims, log[0].answer.d, 0)[i]
  {
    hide InsideBounds, Guarded, Vars, Drift;
    assert log[..1] == [log[0]];
    forall i | 0 <= i < g.dims.n ensures Drift(g.dims, [log[0]], i) == StateStep(g.dims, log[0].answer.d, 0)[i] { DriftOne(g.dims, log[0], i); }
  }

  lemma DriftOne(s: Dims, t: Turn, i: nat)
    requires ValidDims(s) && i < s.n && |t.answer.d| == Vars(s)
    ensures Drift(s, [t], i) == StateStep(s, t.answer.d, 0)[i]
  {
    assert [t][..0] == [];
    NoDrift(s);
  }

  /** Every core without bounds and obstacles, whatever its model and horizon, loses the
      pose under every cap of two or more. */
  method CapTwoBreaks(core: MPC)
    requires core.Valid() && core.Modelled() && core.maxIterSqp >= 2 && Free(core.qp.g.dims)
    modifies core`cand, core`candU0, core`candSolved, core`candFinite, core`sqpIter
    modifies core.qp`eSparse, core.qp`cSparse, core.qp`calls, core.qp`obs
    modifies core.qp.c, core.qp.e, core.qp.b, core.qp.ineq, core.qp.low, core.qp.upp, core.qp.obsH, core.qp.obsHPrev
    ensures core.candSolved && !AtPose(core.cand, core.pose)
  {
    hide Vars, WarmStart, Meets, ProxQP.Valid, Step, RolloutStep;
    UpcomingValid(core);
    var g := core.qp.g;
    FirstColumn(g.dims);
    var kick := Unit(Vars(g.dims), 0);
    var at := Step(g.dims, WarmStart(g.dims, core.it, core.pose), kick);
    RolloutMeets(Upcoming(core), at);
    EarlyStopKept(core, kick, RolloutStep(g, core.qp.dyn, at));
    assert StateStep(g.dims, kick, 0)[0] == 1.0;
  }

  lemma UpcomingValid(core: MPC)
    requires core.Valid() && (core.qp.g.dims.obstacles ==> |core.obs| == Slacks(core.qp.g.dims))
    ensures ValidProblem(Upcoming(core))
  {
    hide Vars, FitGoals, FitWeights, ValidDynamics;
  }

  lemma FirstColumn(s: Dims)
    requires ValidDims(s)
    ensures Vars(s) > 0 && XCol(s, 0, 0) == 0
  {
    ColumnsFit(s);
    TimesNext(0, s.n);
    assert XCol(s, 0, 0) < UStart(s);
  }
}
