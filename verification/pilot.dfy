/** The control cycle as a whole: a pending speed limit, the reference, the yield, the
    obstacle discs, the solve and its gates, in the order of one call. */
module Pilot {
  import opened Basics
  import opened Linear
  import opened QpLayout
  import opened QpRows
  import opened QpFeasible
  import opened QpCost
  import opened ProxQp
  import opened Mpc
  import opened ModelBounds
  import opened SpeedLimit
  import opened Cycle
  import opened Controller
  import Reference
  import PlanPath
  import PredictiveFill
  import CostmapScan
  import StaticSlots
  import Avoidance
  import Barrier

  /** The tables the solver reads its bounds from. */
  function TablesOf(model: Model): Bounds
    requires model.Valid()
    reads model
  {
    Bounds(model.Table(OfState), model.Table(OfControl), model.Table(OfRate))
  }

  /** What configuration fixes: the fill, the slots reserved for movers, the columns of
      position and heading, and how the costmap is scanned. */
  datatype Body = Body(f: PredictiveFill.Fill, cap: int, px: nat, py: nat, yaw: nat, cluster: real, threshold: nat, cells: nat)

  /** The heading and steering references of a node, and the offset of the model's reference
      point, which take trigonometry. */
  datatype Trig = Trig(yaw: (seq<real>, real, Reference.Gait, nat) -> real, steer: (seq<real>, real, Reference.Gait, nat) -> real, offset: real -> Point)

  /** What one call finds. The reference and the discs of its input are still to be made. */
  datatype World = World(limit: Option<(real, bool)>, input: Input,
                         plan: seq<Point>, along: seq<real>, visit: Reference.Visit, easing: Reference.Easing, look: Reference.Bearings,
                         yielding: bool, deepest: real, period: real,
                         scene: PredictiveFill.Scene, grid: CostmapScan.Grid)

  predicate FitBody(s: Dims, b: Body) {
    b.px < s.n && b.py < s.n && b.yaw < s.n && b.px != b.py && b.px != b.yaw && b.py != b.yaw && s.n >= 3 && PredictiveFill.ValidFill(b.f) && b.cluster >= 0.0
  }

  ghost predicate FitWorld(s: Dims, w: World) {
    && |w.input.pose| == s.n && Surveys(s, w.input) && w.period >= 0.0 && w.look.turn > 0.0 && Reference.ValidEasing(w.easing)
    && (!w.input.planEmpty ==> |w.plan| > 0 && |w.along| + 1 == |w.plan|)
  }

  // ----- the reference matrices

  function GoalRow(n: nat, b: Body, steering: bool, idxSteer: nat, q: Point, yaw: real, steer: real): (row: Vec)
    ensures |row| == n
  {
    seq(n, i => if i == b.px then q.x else if i == b.py then q.y else if i == b.yaw then yaw else if steering && i == idxSteer then steer else 0.0)
  }

  function SpeedRow(m: nat, idxV: nat, v: real): (row: Vec)
    ensures |row| == m
  {
    seq(m, i => if i == idxV then v else 0.0)
  }

  function StatesOf(s: Dims, b: Body, t: Trig, steering: bool, idxSteer: nat, q: seq<Point>, psi: seq<real>, v: real, gait: Reference.Gait): (x: seq<Vec>)
    requires |q| == s.np + 1
    ensures |x| == s.np + 1
    ensures forall k {:trigger x[k]} :: 0 <= k < s.np + 1 ==> x[k] == GoalRow(s.n, b, steering, idxSteer, q[k], t.yaw(psi, v, gait, k), t.steer(psi, v, gait, k))
  {
    seq(s.np + 1, k requires 0 <= k < s.np + 1 => GoalRow(s.n, b, steering, idxSteer, q[k], t.yaw(psi, v, gait, k), t.steer(psi, v, gait, k)))
  }

  /** The tracking goals of a horizon: positions, headings and steering per node, and the
      signed cruise speed per control block. */
  function GoalsOf(s: Dims, b: Body, t: Trig, steering: bool, idxSteer: nat, idxV: nat, q: seq<Point>, psi: seq<real>, v: real, gait: Reference.Gait): (goal: Goals)
    requires |q| == s.np + 1
    ensures FitGoals(s, goal)
  {
    Goals(StatesOf(s, b, t, steering, idxSteer, q, psi, v, gait),
          seq(s.nc, k => SpeedRow(s.m, idxV, if gait == Reference.Reverse then -v else v)))
  }

  /** The goals, column by column: each node's position, heading and, for a model that steers,
      steering angle in their columns, the cruise signed by the direction of travel in the
      speed's, and zero everywhere else. */
  lemma GoalColumns(s: Dims, b: Body, t: Trig, steering: bool, idxSteer: nat, idxV: nat, q: seq<Point>, psi: seq<real>, v: real, gait: Reference.Gait, k: nat, i: nat)
    requires FitBody(s, b) && |q| == s.np + 1 && k < s.np + 1 && i < s.n && (steering ==> idxSteer != b.px && idxSteer != b.py && idxSteer != b.yaw)
    ensures var goal := GoalsOf(s, b, t, steering, idxSteer, idxV, q, psi, v, gait);
            && goal.x[k][b.px] == q[k].x && goal.x[k][b.py] == q[k].y && goal.x[k][b.yaw] == t.yaw(psi, v, gait, k)
            && (steering && idxSteer < s.n ==> goal.x[k][idxSteer] == t.steer(psi, v, gait, k))
            && (i != b.px && i != b.py && i != b.yaw && !(steering && i == idxSteer) ==> goal.x[k][i] == 0.0)
            && forall block, j :: 0 <= block < s.nc && 0 <= j < s.m ==>
                 goal.u[block][j] == if j != idxV then 0.0 else if gait == Reference.Forward then v else -v
  {
  }

  /** The scan of a node looks where the node's rows are linearised: about the robot's centre at
      the state the first program of the cycle starts from. */
  lemma ScansWhereLinearised(s: Dims, b: Body, t: Trig, it: Iterate, pose: Vec, start: Iterate, grid: CostmapScan.Grid, node: nat)
    requires FitBody(s, b) && Slid(s, it, pose, start) && node < s.np
    ensures var c, shift := PredictiveFill.Centre(GroundOf(s, b, t, it.x, grid), s.np, node), t.offset(start.x[node + 1][b.yaw]);
            c == Point(start.x[node + 1][b.px] - shift.x, start.x[node + 1][b.py] - shift.y)
  {
    hide PredictiveFill.ValidFill, Slacks;
    SlidRow(s, it, pose, start, node);
  }

  lemma SlidRow(s: Dims, it: Iterate, pose: Vec, start: Iterate, node: nat)
    requires Slid(s, it, pose, start) && node < s.np
    ensures start.x[node + 1] == it.x[if node + 2 < s.np then node + 2 else s.np]
  {
    hide Slacks;
    assert node + 1 < s.np ==> start.x[node + 1] == it.x[node + 2];
  }

  /** Where the model's reference point is from the robot's centre at each node. */
  function Shifts(s: Dims, b: Body, t: Trig, x: seq<Vec>): (shift: seq<Point>)
    requires ValidDims(s) && IsMat(x, s.np + 1, s.n) && b.yaw < s.n
    ensures |shift| == s.np
  {
    seq(s.np, node requires 0 <= node < s.np => var row := if node + 2 < s.np then node + 2 else s.np; t.offset(x[row][b.yaw]))
  }

  function GroundOf(s: Dims, b: Body, t: Trig, x: seq<Vec>, grid: CostmapScan.Grid): (w: PredictiveFill.Ground)
    requires ValidDims(s) && IsMat(x, s.np + 1, s.n) && FitBody(s, b)
    ensures PredictiveFill.ValidGround(w, s.np) && w.shift == Shifts(s, b, t, x)
  {
    PredictiveFill.Ground(grid, b.threshold, b.cells, seq(s.np + 1, k requires 0 <= k < s.np + 1 => Point(x[k][b.px], x[k][b.py])), Shifts(s, b, t, x), b.cluster)
  }

  // ----- what an accepted call guarantees

  /** Every mover has its slot. */
  ghost predicate Slotted(s: Dims, root: real -> real, f: PredictiveFill.Fill, discs: seq<Disc>, movers: seq<PredictiveFill.Track>, age: real, shift: seq<Point>) {
    && ValidDims(s) && s.obstacles && |discs| == Slacks(s) && |movers| <= s.k && |shift| == s.np && PredictiveFill.ValidFill(f) && age >= 0.0
    && forall j :: 0 <= j < |movers| ==> PredictiveFill.ValidTrack(movers[j]) && Avoidance.InSlot(s, discs, f, root, movers[j], j, age, shift)
  }

  /** The trajectory keeps its distance from every mover with a slot, at every node up to
      which the slot is separated along the states the rows were linearised about. */
  ghost predicate KeepsFrom(g: Config, root: real -> real, f: PredictiveFill.Fill, discs: seq<Disc>, movers: seq<PredictiveFill.Track>, age: real, shift: seq<Point>,
                            about: seq<Vec>, it: Iterate)
    requires ValidConfig(g) && Fits(g.dims, it) && IsMat(about, g.dims.np + 1, g.dims.n) && Slotted(g.dims, root, f, discs, movers, age, shift)
  {
    forall j: nat, node: nat {:trigger Barrier.Separated(g, root, about, discs, node, j)} ::
      j < |movers| && node < g.dims.np && Barrier.Separated(g, root, about, discs, node, j) ==>
        var q := 1.0 - g.gamma;
        Avoidance.Gap(g, root, f, movers[j], it.x, node, age, shift[node])
        >= Mul(Barrier.Power(q, node + 1), Barrier.ClearanceNow(g, root, it.x, discs, j)) - Barrier.Discounted(g.dims, it.w, j, q, node, node + 1)
  }

  lemma DeliveredKeepsFrom(g: Config, root: real -> real, f: PredictiveFill.Fill, discs: seq<Disc>, movers: seq<PredictiveFill.Track>, age: real, shift: seq<Point>,
                           pose: Vec, anchor: Vec, log: seq<Turn>, it: Iterate)
    requires IsRoot(root) && Slotted(g.dims, root, f, discs, movers, age, shift) && Delivers(g, root, discs, pose, anchor, log, it)
    ensures ValidConfig(g) && Fits(g.dims, it) && |log| > 0 && IsMat(log[|log| - 1].at.x, g.dims.np + 1, g.dims.n)
    ensures KeepsFrom(g, root, f, discs, movers, age, shift, log[|log| - 1].at.x, it)
  {
    hide InsideBounds, Guarded, Drift, Barrier.Separated, Avoidance.InSlot, Avoidance.Gap, Vars;
    var about := log[|log| - 1].at.x;
    forall j: nat, node: nat {:trigger Barrier.Separated(g, root, about, discs, node, j)} |
      j < |movers| && node < g.dims.np && Barrier.Separated(g, root, about, discs, node, j)
      ensures var q := 1.0 - g.gamma;
              Avoidance.Gap(g, root, f, movers[j], it.x, node, age, shift[node])
              >= Mul(Barrier.Power(q, node + 1), Barrier.ClearanceNow(g, root, it.x, discs, j)) - Barrier.Discounted(g.dims, it.w, j, q, node, node + 1)
    {
      Avoidance.GuardedKeepsGap(g, root, f, movers[j], discs, about, it, j, age, shift, node);
    }
  }

  /** A delivered first control is inside every entry of the control table. */
  lemma DeliveredInside(g: Config, root: real -> real, discs: seq<Disc>, pose: Vec, anchor: Vec, log: seq<Turn>, it: Iterate, b: Bound)
    requires Delivers(g, root, discs, pose, anchor, log, it) && b in g.bounds.u
    ensures |it.u| > 0 && b.idx < |it.u[0]| && b.low <= it.u[0][b.idx] <= b.upp
  {
    hide Guarded, Drift, Vars;
    var j :| 0 <= j < |g.bounds.u| && g.bounds.u[j] == b;
  }

  /** What a call made of its world before the solve. */
  datatype Made = Made(goal: Goals, trace: Trace, discs: seq<Disc>, movers: seq<PredictiveFill.Track>, ranking: seq<PredictiveFill.Ranked>, ground: PredictiveFill.Ground)

  /** Where the controller writes besides position and heading. */
  datatype Columns = Columns(steering: bool, idxSteer: nat, idxV: nat)

  /** The clutter of the map has its discs about the retained trajectory, and the rest goes
      without only when every slot the movers leave is in use. */
  ghost predicate Walls(s: Dims, b: Body, discs: seq<Disc>, movers: seq<PredictiveFill.Track>, ground: PredictiveFill.Ground) {
    && PredictiveFill.ValidFill(b.f) && PredictiveFill.ValidGround(ground, s.np)
    && (ground.grid.res > 0.0 ==>
          PredictiveFill.Walled(discs, b.f, ground, PredictiveFill.Footprints(movers, ground.cluster), |movers|, s.k, s.np))
  }

  /** The goals are those of a reference laid along the plan; with obstacles the clutter is
      walled off about the retained states x, and with fresh reports the movers are the first
      of the ranking against these goals, each in its slot. */
  ghost predicate MadeOf(g: Config, root: real -> real, b: Body, t: Trig, col: Columns, w: World, x: seq<Vec>, settling: bool, gait: Reference.Gait, m: Made) {
    && ValidDims(g.dims) && FitBody(g.dims, b) && Referred(g.dt, g.dims.np, w, settling, gait, m.trace)
    && m.goal == GoalsOf(g.dims, b, t, col.steering, col.idxSteer, col.idxV, m.trace.q, m.trace.psi, m.trace.v, gait)
    && (g.dims.obstacles ==>
          && IsMat(x, g.dims.np + 1, g.dims.n) && m.ground == GroundOf(g.dims, b, t, x, w.grid)
          && Walls(g.dims, b, m.discs, m.movers, m.ground) && (!PredictiveFill.Fresh(w.scene) ==> m.movers == []))
    && (g.dims.obstacles && PredictiveFill.Fresh(w.scene) ==>
          && Chosen(b, root, g.dims, w.scene.(reference := m.goal.x), m.movers, m.ranking)
          && Slotted(g.dims, root, b.f, m.discs, m.movers, w.scene.age.value, m.ground.shift))
  }

  lemma MadeMeans(g: Config, root: real -> real, b: Body, t: Trig, col: Columns, w: World, x: seq<Vec>, settling: bool, gait: Reference.Gait, m: Made)
    requires ValidDims(g.dims) && FitBody(g.dims, b) && Referred(g.dt, g.dims.np, w, settling, gait, m.trace)
    requires m.goal == GoalsOf(g.dims, b, t, col.steering, col.idxSteer, col.idxV, m.trace.q, m.trace.psi, m.trace.v, gait)
    requires g.dims.obstacles ==> IsMat(x, g.dims.np + 1, g.dims.n) && m.ground == GroundOf(g.dims, b, t, x, w.grid)
    requires g.dims.obstacles ==> Walls(g.dims, b, m.discs, m.movers, m.ground) && (!PredictiveFill.Fresh(w.scene) ==> m.movers == [])
    requires g.dims.obstacles && PredictiveFill.Fresh(w.scene) ==>
               Chosen(b, root, g.dims, w.scene.(reference := m.goal.x), m.movers, m.ranking) && Slotted(g.dims, root, b.f, m.discs, m.movers, w.scene.age.value, m.ground.shift)
    ensures MadeOf(g, root, b, t, col, w, x, settling, gait, m)
  {
    hide Walls, Slotted, Chosen, Referred, GoalsOf, GroundOf;
  }

  ghost predicate Avoids(g: Config, root: real -> real, f: PredictiveFill.Fill, m: Made, age: real, log: seq<Turn>, it: Iterate) {
    && Slotted(g.dims, root, f, m.discs, m.movers, age, m.ground.shift) && ValidConfig(g) && Fits(g.dims, it)
    && |log| > 0 && IsMat(log[|log| - 1].at.x, g.dims.np + 1, g.dims.n)
    && KeepsFrom(g, root, f, m.discs, m.movers, age, m.ground.shift, log[|log| - 1].at.x, it)
  }

  /** A command inside a box. */
  predicate Inside(r: Result, b: Bound) { r.Command? && b.idx < |r.u| && b.low <= r.u[b.idx] <= b.upp }

  /** The gates that are decided before the reference is built. */
  predicate Passes(i: Input, cancelling: bool) { i.limitOk && i.poseFinite && !cancelling && !i.planEmpty && !i.tfFails && i.planFinite }

  /** The command is the first control of a trajectory. */
  predicate Leads(it: Iterate, r: Result) { r.Command? && |it.u| > 0 && r.u == it.u[0] }

  /** What an accepted call gets from what was made for it and what was delivered. */
  lemma AcceptedMeans(g: Config, root: real -> real, b: Body, t: Trig, col: Columns, w: World, x: seq<Vec>, settling: bool, gait: Reference.Gait, m: Made,
                      pose: Vec, anchor: Vec, log: seq<Turn>, it: Iterate, r: Result, box: Bound)
    requires IsRoot(root) && MadeOf(g, root, b, t, col, w, x, settling, gait, m) && Delivers(g, root, m.discs, pose, anchor, log, it) && Leads(it, r)
    ensures g.dims.obstacles && PredictiveFill.Fresh(w.scene) ==> Avoids(g, root, b.f, m, w.scene.age.value, log, it)
    ensures box in g.bounds.u ==> Inside(r, box)
  {
    hide Slotted, Delivers, KeepsFrom, Chosen, Referred, GoalsOf;
    if g.dims.obstacles && PredictiveFill.Fresh(w.scene) {
      DeliveredKeepsFrom(g, root, b.f, m.discs, m.movers, w.scene.age.value, m.ground.shift, pose, anchor, log, it);
    }
    if box in g.bounds.u { DeliveredInside(g, root, m.discs, pose, anchor, log, it, box); }
  }

  class Pilot {
    const ctl: ProxMpcController
    const gov: SpeedGovernor
    const guide: Reference.Guide
    const body: Body
    const trig: Trig

    /** The parts agree: they drive one speed control, and the solver's bounds are the model's
        tables. */
    ghost predicate Valid()
      reads this, ctl, ctl.core, ctl.core.qp, ctl.core.qp.h, ctl.core.qp.b, ctl.core.qp.e, ctl.core.qp.ineq, gov, gov.model
    {
      Whole() && ctl.core.qp.g.bounds == TablesOf(gov.model)
    }

    /** The same while the solver's bounds still lag the model's tables. */
    ghost predicate Whole()
      reads this, ctl, ctl.core, ctl.core.qp, ctl.core.qp.h, ctl.core.qp.b, ctl.core.qp.e, ctl.core.qp.ineq, gov, gov.model
    {
      && ctl.Valid() && gov.Valid() && gov.idxV == ctl.idxV && FitBody(ctl.core.qp.g.dims, body) && IsRoot(ctl.core.qp.root)
      && SameIndices(ctl.core.qp.g.bounds, TablesOf(gov.model))
    }

    constructor (ctl: ProxMpcController, gov: SpeedGovernor, guide: Reference.Guide, body: Body, trig: Trig)
      requires ctl.Valid() && gov.Valid() && gov.idxV == ctl.idxV && FitBody(ctl.core.qp.g.dims, body) && IsRoot(ctl.core.qp.root)
      requires ctl.core.qp.g.bounds == TablesOf(gov.model)
      ensures Valid() && this.ctl == ctl && this.gov == gov && this.guide == guide && this.body == body && this.trig == trig
    {
      hide ProxMpcController.Valid, SpeedGovernor.Valid;
      this.ctl, this.gov, this.guide, this.body, this.trig := ctl, gov, guide, body, trig;
    }

    /** The solver reads the tables as they are now. */
    method Sync()
      requires Whole()
      modifies ctl.core.qp`g
      ensures Valid() && ctl.Now() == old(ctl.Now()) && ctl.core.qp.g == old(ctl.core.qp.g).(bounds := TablesOf(gov.model))
    {
      hide ProxMpcController.Valid, FitBody;
      ctl.ChangeBounds(TablesOf(gov.model));
    }

    /** A pending speed limit is applied before anything else. It is refused exactly when it
        is below a positive minimum speed, and then nothing moves. */
    method Limit(request: Option<(real, bool)>) returns (ok: bool)
      requires Valid()
      modifies gov`maxLinear, gov.model`x, gov.model`u, gov.model`du, gov.model`w, ctl.core.qp`g
      ensures Valid() && ctl.Now() == old(ctl.Now()) && ctl.core.qp.g.(bounds := old(ctl.core.qp.g.bounds)) == old(ctl.core.qp.g)
      ensures ok <==> request.None? || gov.Requested(request.value.0, request.value.1) >= gov.c.vMin
      ensures ok && request.Some? ==> gov.maxLinear == gov.Requested(request.value.0, request.value.1)
      ensures !ok || request.None? ==> gov.maxLinear == old(gov.maxLinear) && ctl.core.qp.g == old(ctl.core.qp.g)
    {
      hide ProxMpcController.Valid, SpeedGovernor.Valid, FitBody;
      ok := true;
      if request.Some? {
        var (limit, percentage) := request.value;
        var o, at := gov.ApplySpeedLimit(limit, percentage);
        ok := o.Done?;
        Sync();
      }
    }

    /** The yield of the cycle, and the capped box into the solver. */
    method Yield(active: bool, deepest: real, period: real)
      requires Valid() && period >= 0.0 && (active ==> gov.band > 0.0)
      modifies gov`factor, gov.model`x, gov.model`u, gov.model`du, gov.model`w, ctl.core.qp`g
      ensures Valid() && ctl.Now() == old(ctl.Now()) && ctl.core.qp.g.(bounds := old(ctl.core.qp.g.bounds)) == old(ctl.core.qp.g)
      ensures gov.factor == if active then YieldNext(old(gov.factor), Target(deepest, gov.band), period) else 1.0
      ensures gov.caps && gov.band > 0.0 ==> CapBox(old(ctl.lastU)) in ctl.core.qp.g.bounds.u
      ensures !(gov.caps && gov.band > 0.0) ==> ctl.core.qp.g == old(ctl.core.qp.g)
    {
      hide ProxMpcController.Valid, SpeedGovernor.Valid, FitBody, Cap, YieldNext;
      SpeedChannel(ctl);
      ghost var at := gov.Yield(active, deepest, period, ctl.lastU[ctl.idxV]);
      Sync();
      assert gov.caps && gov.band > 0.0 ==> ctl.core.qp.g.bounds.u[at] == CapBox(ctl.lastU);
    }

    /** The reference of the cycle as tracking goals, eased by the yield. */
    method Refer(w: World) returns (goal: Goals, ghost tr: Trace)
      requires Valid() && FitWorld(ctl.core.qp.g.dims, w) && !w.input.planEmpty
      modifies guide, guide.latch
      ensures Valid() && FitGoals(ctl.core.qp.g.dims, goal)
      ensures Referred(ctl.core.qp.g.dt, ctl.core.qp.g.dims.np, w, guide.settling, guide.latch.gait, tr)
      ensures goal == GoalsOf(ctl.core.qp.g.dims, body, trig, ctl.limits.steering, ctl.idxSteer, ctl.idxV, tr.q, tr.psi, tr.v, guide.latch.gait)
    {
      hide ProxMpcController.Valid, SpeedGovernor.Valid, FitBody, Surveys, Reference.ValidEasing, Referred;
      CycleStep(ctl);
      FactorKept(gov);
      EasedKept(w.easing, gov.factor);
      var q, psi, v;
      q, psi, v, tr := Lay(guide, ctl.core.qp.root, w, gov.factor, ctl.core.qp.g.dt, ctl.core.qp.g.dims.np);
      goal := GoalsOf(ctl.core.qp.g.dims, body, trig, ctl.limits.steering, ctl.idxSteer, ctl.idxV, q, psi, v, guide.latch.gait);
    }

    /** The obstacle discs of the cycle: movers first, clutter after them. */
    method Discs(goal: Goals, w: World) returns (discs: seq<Disc>, ghost movers: seq<PredictiveFill.Track>, ghost ranking: seq<PredictiveFill.Ranked>)
      requires Valid() && FitGoals(ctl.core.qp.g.dims, goal) && ctl.core.qp.g.dims.obstacles
      ensures |discs| == Slacks(ctl.core.qp.g.dims)
      ensures !PredictiveFill.Fresh(w.scene) ==> movers == []
      ensures PredictiveFill.Fresh(w.scene) ==> FitBody(ctl.core.qp.g.dims, body) && Chosen(body, ctl.core.qp.root, ctl.core.qp.g.dims, w.scene.(reference := goal.x), movers, ranking)
      ensures PredictiveFill.Fresh(w.scene) ==> Slotted(ctl.core.qp.g.dims, ctl.core.qp.root, body.f, discs, movers, w.scene.age.value, GroundNow(w).shift)
      ensures Walls(ctl.core.qp.g.dims, body, discs, movers, GroundNow(w))
    {
      hide ProxMpcController.Valid, SpeedGovernor.Valid, PredictiveFill.Ranking, Avoidance.InSlot, Times, PredictiveFill.MoverDisc, PredictiveFill.ValidFill,
           PredictiveFill.ValidTrack, PredictiveFill.IsStatic, PredictiveFill.Walled;
      CycleStep(ctl);
      var s := ctl.core.qp.g.dims;
      var sc := w.scene.(reference := goal.x);
      var ground := GroundOf(s, body, trig, ctl.core.it.x, w.grid);
      var obs := new Disc[Times(s.np, s.k)](r => Disc(0.0, 0.0, 0.0));
      ghost var hits, slots;
      movers, ranking, hits, slots := PredictiveFill.FillObstacles(obs, body.f, ctl.core.qp.root, sc, ground, s.k, s.np, body.cap);
      discs := obs[..];
      if PredictiveFill.Fresh(sc) {
        PredictiveFill.MoverCountFits(|ranking|, s.k, body.cap);
        DiscsInSlots(s, ctl.core.qp.root, body.f, discs, movers, sc.age.value, ground.shift);
      }
    }

    /** Reference and discs, on the bounds as they are. */
    method Build(w: World) returns (goal: Goals, discs: seq<Disc>, ghost m: Made)
      requires Valid() && FitWorld(ctl.core.qp.g.dims, w) && !w.input.planEmpty
      modifies guide, guide.latch
      ensures Valid() && FitGoals(ctl.core.qp.g.dims, goal) && m.goal == goal && m.discs == discs && (ctl.core.qp.g.dims.obstacles ==> |discs| == Slacks(ctl.core.qp.g.dims))
      ensures MadeOf(ctl.core.qp.g, ctl.core.qp.root, body, trig, Writes(), w, ctl.core.it.x, guide.settling, guide.latch.gait, m)
    {
      hide ProxMpcController.Valid, SpeedGovernor.Valid, FitBody, Surveys, Referred, Chosen, Slotted, GoalsOf, Whole, Walls, GroundOf, MadeOf, Cap;
      ghost var trace, movers, ranking;
      goal, trace := Refer(w);
      discs, movers, ranking := [], [], [];
      if ctl.core.qp.g.dims.obstacles {
        discs, movers, ranking := Discs(goal, w);
      }
      m := Made(goal, trace, discs, movers, ranking, GroundNow(w));
      BodyFits(this);
      GroundIs(this, w);
      MadeMeans(ctl.core.qp.g, ctl.core.qp.root, body, trig, Writes(), w, ctl.core.it.x, guide.settling, guide.latch.gait, m);
    }

    /** Everything past the first gates and before the solve. */
    method Make(w: World) returns (goal: Goals, discs: seq<Disc>, ghost m: Made)
      requires Valid() && FitWorld(ctl.core.qp.g.dims, w) && !w.input.planEmpty && (w.yielding ==> gov.band > 0.0)
      modifies gov`factor, gov.model`x, gov.model`u, gov.model`du, gov.model`w, ctl.core.qp`g, guide, guide.latch
      ensures Valid() && ctl.Now() == old(ctl.Now()) && ctl.core.qp.g.(bounds := old(ctl.core.qp.g.bounds)) == old(ctl.core.qp.g)
      ensures FitGoals(ctl.core.qp.g.dims, goal) && m.goal == goal && m.discs == discs && (ctl.core.qp.g.dims.obstacles ==> |discs| == Slacks(ctl.core.qp.g.dims))
      ensures gov.caps && gov.band > 0.0 ==> CapBox(old(ctl.lastU)) in ctl.core.qp.g.bounds.u
      ensures MadeOf(ctl.core.qp.g, ctl.core.qp.root, body, trig, Writes(), w, old(ctl.core.it.x), guide.settling, guide.latch.gait, m)
    {
      hide ProxMpcController.Valid, SpeedGovernor.Valid, FitBody, Surveys, Reference.ValidEasing, Whole, Valid, MadeOf, Cap, Slacks, FitGoals;
      Yield(w.yielding, w.deepest, w.period);
      goal, discs, m := Build(w);
    }

    /** The input of the solve: made when the first gates pass, otherwise as it came. */
    method Complete(w: World, ok: bool) returns (i: Input, ghost m: Made)
      requires Valid() && FitWorld(ctl.core.qp.g.dims, w) && (w.yielding ==> gov.band > 0.0)
      modifies gov`factor, gov.model`x, gov.model`u, gov.model`du, gov.model`w, ctl.core.qp`g, guide, guide.latch
      ensures Valid() && ctl.Now() == old(ctl.Now()) && ctl.core.qp.g.(bounds := old(ctl.core.qp.g.bounds)) == old(ctl.core.qp.g)
      ensures FitInput(ctl.core.qp.g.dims, i) && Surveys(ctl.core.qp.g.dims, i) && i.limitOk == ok && Ready(w, i, m)
    {
      hide ProxMpcController.Valid, SpeedGovernor.Valid, FitBody, Surveys, FitInput, MadeOf, Whole, Vars, Slacks, Cap;
      BodyFits(this);
      var goal, discs := ctl.core.goal, ctl.core.obs;
      m := Made(goal, Trace([], [], 0.0, [], PlanPath.Place(0, 0.0, 0.0), 0.0, []), discs, [], [], GroundNow(w));
      var passes := Passes(w.input.(limitOk := ok), ctl.cancelling);
      if passes {
        goal, discs, m := Make(w);
      }
      i := w.input.(limitOk := ok, goal := goal, obs := discs);
      InputFits(ctl.core.qp.g.dims, w, i);
    }

    /** The solve and the gates, on an input that is complete. */
    method Finish(i: Input, solver: Solver, late: nat -> bool) returns (r: Result, ghost e: Event, ghost log: seq<Turn>)
      requires Valid() && FitInput(ctl.core.qp.g.dims, i) && Surveys(ctl.core.qp.g.dims, i) && Trusted(solver, Vars(ctl.core.qp.g.dims))
      modifies ctl`lastU, ctl`steer, ctl`v, ctl`w, ctl`failures, ctl`vetoes, ctl.core`u0, ctl.core`it, ctl.core`finite
      modifies ctl.core`pose, ctl.core`goal, ctl.core`obs, ctl.core`cand, ctl.core`candU0, ctl.core`candSolved, ctl.core`candFinite, ctl.core`sqpIter
      modifies ctl.core.qp`eSparse, ctl.core.qp`cSparse, ctl.core.qp`calls, ctl.core.qp`obs
      modifies ctl.core.qp.c, ctl.core.qp.e, ctl.core.qp.b, ctl.core.qp.ineq, ctl.core.qp.low, ctl.core.qp.upp, ctl.core.qp.obsH, ctl.core.qp.obsHPrev
      ensures Valid() && FitEvent(e, |old(ctl.lastU)|) && (ctl.Now(), r) == Next(ctl.limits, old(ctl.Now()), e)
      ensures DecidedBy(ctl, i, old(ctl.cancelling), e.verdict)
      ensures e.verdict.Accept? ==> Passes(i, old(ctl.cancelling)) && r == Command(ctl.lastU) && Leads(ctl.core.it, r)
      ensures e.verdict.Accept? ==> Delivers(ctl.core.qp.g, ctl.core.qp.root, i.obs, i.pose, old(ctl.core.u0), log, ctl.core.it)
      ensures e.verdict.Accept? && Synced(old(ctl.Now())) ==> RatesKept(ctl.core.qp.g, r, old(ctl.lastU))
    {
      hide ProxMpcController.Valid, SpeedGovernor.Valid, FitBody, Surveys, Delivers, RatesKept, CycleOf, AtPose, Trusted, Vars, Slacks, FitInput, Braked, BrakeU,
           ProxMpcController.Blocked;
      r, e, log := ctl.ComputeVelocityCommands(i, solver, late);
      SpeedControl(ctl);
    }

    /** The solve and the gates on what this call made, and what an accepted call gets. */
    method Conclude(w: World, i: Input, ghost m: Made, solver: Solver, late: nat -> bool) returns (r: Result, ghost e: Event, ghost log: seq<Turn>)
      requires Valid() && FitInput(ctl.core.qp.g.dims, i) && Surveys(ctl.core.qp.g.dims, i) && Trusted(solver, Vars(ctl.core.qp.g.dims))
      requires Ready(w, i, m)
      modifies ctl`lastU, ctl`steer, ctl`v, ctl`w, ctl`failures, ctl`vetoes, ctl.core`u0, ctl.core`it, ctl.core`finite
      modifies ctl.core`pose, ctl.core`goal, ctl.core`obs, ctl.core`cand, ctl.core`candU0, ctl.core`candSolved, ctl.core`candFinite, ctl.core`sqpIter
      modifies ctl.core.qp`eSparse, ctl.core.qp`cSparse, ctl.core.qp`calls, ctl.core.qp`obs
      modifies ctl.core.qp.c, ctl.core.qp.e, ctl.core.qp.b, ctl.core.qp.ineq, ctl.core.qp.low, ctl.core.qp.upp, ctl.core.qp.obsH, ctl.core.qp.obsHPrev
      ensures Valid() && FitEvent(e, |old(ctl.lastU)|) && (ctl.Now(), r) == Next(ctl.limits, old(ctl.Now()), e)
      ensures DecidedBy(ctl, w.input.(limitOk := i.limitOk), old(ctl.cancelling), e.verdict)
      ensures e.verdict.Accept? ==> MadeOf(ctl.core.qp.g, ctl.core.qp.root, body, trig, Writes(), w, old(ctl.core.it.x), guide.settling, guide.latch.gait, m)
      ensures e.verdict.Accept? ==> Delivers(ctl.core.qp.g, ctl.core.qp.root, m.discs, w.input.pose, old(ctl.core.u0), log, ctl.core.it)
      ensures e.verdict.Accept? && ctl.core.qp.g.dims.obstacles && PredictiveFill.Fresh(w.scene) ==>
                Avoids(ctl.core.qp.g, ctl.core.qp.root, body.f, m, w.scene.age.value, log, ctl.core.it)
      ensures e.verdict.Accept? && gov.caps && gov.band > 0.0 ==> Inside(r, CapBox(old(ctl.lastU)))
      ensures e.verdict.Accept? && Synced(old(ctl.Now())) ==> RatesKept(ctl.core.qp.g, r, old(ctl.lastU))
    {
      hide ProxMpcController.Valid, SpeedGovernor.Valid, FitBody, Surveys, FitInput, FitWorld, MadeOf, Whole, Delivers, Avoids, RatesKept, Inside, Next, DecidedBy,
           Trusted, Vars, Slacks, Leads, Passes, Valid, FitEvent, ValidLimits;
      ghost var anchor, box := ctl.core.u0, CapBox(ctl.lastU);
      r, e, log := Finish(i, solver, late);
      MadeDecides(ctl, i, w.input.(limitOk := i.limitOk), old(ctl.cancelling), e.verdict);
      if e.verdict.Accept? {
        RootFits(this);
        AcceptedMeans(ctl.core.qp.g, ctl.core.qp.root, body, trig, Writes(), w, old(ctl.core.it.x), guide.settling, guide.latch.gait, m,
                      w.input.pose, anchor, log, ctl.core.it, r, box);
      }
    }

    /** Everything past the pending limit. */
    method Act(w: World, ok: bool, solver: Solver, late: nat -> bool) returns (r: Result, ghost e: Event, ghost log: seq<Turn>, ghost m: Made)
      requires Valid() && FitWorld(ctl.core.qp.g.dims, w) && (w.yielding ==> gov.band > 0.0) && Trusted(solver, Vars(ctl.core.qp.g.dims))
      modifies gov`factor, gov.model`x, gov.model`u, gov.model`du, gov.model`w, ctl.core.qp`g, guide, guide.latch
      modifies ctl`lastU, ctl`steer, ctl`v, ctl`w, ctl`failures, ctl`vetoes, ctl.core`u0, ctl.core`it, ctl.core`finite
      modifies ctl.core`pose, ctl.core`goal, ctl.core`obs, ctl.core`cand, ctl.core`candU0, ctl.core`candSolved, ctl.core`candFinite, ctl.core`sqpIter
      modifies ctl.core.qp`eSparse, ctl.core.qp`cSparse, ctl.core.qp`calls, ctl.core.qp`obs
      modifies ctl.core.qp.c, ctl.core.qp.e, ctl.core.qp.b, ctl.core.qp.ineq, ctl.core.qp.low, ctl.core.qp.upp, ctl.core.qp.obsH, ctl.core.qp.obsHPrev
      ensures Valid() && FitEvent(e, |old(ctl.lastU)|) && (ctl.Now(), r) == Next(ctl.limits, old(ctl.Now()), e)
      ensures DecidedBy(ctl, w.input.(limitOk := ok), old(ctl.cancelling), e.verdict)
      ensures e.verdict.Accept? ==> MadeOf(ctl.core.qp.g, ctl.core.qp.root, body, trig, Writes(), w, old(ctl.core.it.x), guide.settling, guide.latch.gait, m)
      ensures e.verdict.Accept? ==> Delivers(ctl.core.qp.g, ctl.core.qp.root, m.discs, w.input.pose, old(ctl.core.u0), log, ctl.core.it)
      ensures e.verdict.Accept? && ctl.core.qp.g.dims.obstacles && PredictiveFill.Fresh(w.scene) ==>
                Avoids(ctl.core.qp.g, ctl.core.qp.root, body.f, m, w.scene.age.value, log, ctl.core.it)
      ensures e.verdict.Accept? && gov.caps && gov.band > 0.0 ==> Inside(r, CapBox(old(ctl.lastU)))
      ensures e.verdict.Accept? && Synced(old(ctl.Now())) ==> RatesKept(ctl.core.qp.g, r, old(ctl.lastU))
    {
      hide ProxMpcController.Valid, SpeedGovernor.Valid, FitBody, Surveys, FitInput, FitWorld, MadeOf, Whole, Delivers, Avoids, RatesKept, Inside, Next, DecidedBy,
           Trusted, Vars, Slacks, Leads, Passes, Valid, FitEvent, ValidLimits;
      var i;
      i, m := Complete(w, ok);
      r, e, log := Conclude(w, i, m, solver, late);
    }

    /** One call. A refused speed limit throws before anything else; otherwise the gates on
        the inputs, the reference, the yield and its cap, the discs, the solve and the gates
        past it. The run moves by the verdict alone. An accepted trajectory delivers the
        bounds, the barrier and the first state; it keeps its distance from every mover with
        a slot; its command is under the cap of this cycle; and while anchor and last command
        agree it is within every rate of the command before. */
    method Drive(w: World, solver: Solver, late: nat -> bool) returns (r: Result, ghost e: Event, ghost log: seq<Turn>, ghost m: Made)
      requires Valid() && FitWorld(ctl.core.qp.g.dims, w) && (w.yielding ==> gov.band > 0.0) && Trusted(solver, Vars(ctl.core.qp.g.dims))
      modifies gov`maxLinear, gov`factor, gov.model`x, gov.model`u, gov.model`du, gov.model`w, ctl.core.qp`g, guide, guide.latch
      modifies ctl`lastU, ctl`steer, ctl`v, ctl`w, ctl`failures, ctl`vetoes, ctl.core`u0, ctl.core`it, ctl.core`finite
      modifies ctl.core`pose, ctl.core`goal, ctl.core`obs, ctl.core`cand, ctl.core`candU0, ctl.core`candSolved, ctl.core`candFinite, ctl.core`sqpIter
      modifies ctl.core.qp`eSparse, ctl.core.qp`cSparse, ctl.core.qp`calls, ctl.core.qp`obs
      modifies ctl.core.qp.c, ctl.core.qp.e, ctl.core.qp.b, ctl.core.qp.ineq, ctl.core.qp.low, ctl.core.qp.upp, ctl.core.qp.obsH, ctl.core.qp.obsHPrev
      ensures Valid() && FitEvent(e, |old(ctl.lastU)|) && (ctl.Now(), r) == Next(ctl.limits, old(ctl.Now()), e)
      ensures DecidedBy(ctl, w.input.(limitOk := w.limit.None? || gov.Requested(w.limit.value.0, w.limit.value.1) >= gov.c.vMin), old(ctl.cancelling), e.verdict)
      ensures e.verdict.Accept? ==> MadeOf(ctl.core.qp.g, ctl.core.qp.root, body, trig, Writes(), w, old(ctl.core.it.x), guide.settling, guide.latch.gait, m)
      ensures e.verdict.Accept? ==> Delivers(ctl.core.qp.g, ctl.core.qp.root, m.discs, w.input.pose, old(ctl.core.u0), log, ctl.core.it)
      ensures e.verdict.Accept? && ctl.core.qp.g.dims.obstacles && PredictiveFill.Fresh(w.scene) ==>
                Avoids(ctl.core.qp.g, ctl.core.qp.root, body.f, m, w.scene.age.value, log, ctl.core.it)
      ensures e.verdict.Accept? && gov.caps && gov.band > 0.0 ==> Inside(r, CapBox(old(ctl.lastU)))
      ensures e.verdict.Accept? && Synced(old(ctl.Now())) ==> RatesKept(ctl.core.qp.g, r, old(ctl.lastU))
    {
      hide ProxMpcController.Valid, SpeedGovernor.Valid, FitBody, Surveys, FitInput, FitWorld, MadeOf, Whole, Delivers, Avoids, RatesKept, Inside, Next, DecidedBy,
           Trusted, Vars, Slacks, Leads, Passes, Valid, FitEvent, ValidLimits;
      var ok := Limit(w.limit);
      r, e, log, m := Act(w, ok, solver, late);
    }

    /** The input of the solve is the call's, with what was made for it. */
    ghost predicate Ready(w: World, i: Input, m: Made)
      reads this, ctl, ctl.core, ctl.core.qp, gov, guide, guide.latch
    {
      i == w.input.(limitOk := i.limitOk, goal := i.goal, obs := m.discs) && (Passes(i, ctl.cancelling) ==> Prepared(w, m))
    }

    /** Everything of a call is made, and its capped box is in the solver. */
    ghost predicate Prepared(w: World, m: Made)
      reads this, ctl, ctl.core, ctl.core.qp, gov, guide, guide.latch
    {
      && MadeOf(ctl.core.qp.g, ctl.core.qp.root, body, trig, Writes(), w, ctl.core.it.x, guide.settling, guide.latch.gait, m)
      && (gov.caps && gov.band > 0.0 ==> CapBox(ctl.lastU) in ctl.core.qp.g.bounds.u)
    }

    /** The map and the nominal positions at the retained trajectory. */
    function GroundNow(w: World): PredictiveFill.Ground
      requires Valid()
      reads this, ctl, ctl.core, ctl.core.qp, ctl.core.qp.h, ctl.core.qp.b, ctl.core.qp.e, ctl.core.qp.ineq, gov, gov.model
    {
      CycleStep(ctl);
      GroundOf(ctl.core.qp.g.dims, body, trig, ctl.core.it.x, w.grid)
    }

    /** The columns of the goals. */
    function Writes(): Columns { Columns(ctl.limits.steering, ctl.idxSteer, ctl.idxV) }

    /** The box the cap leaves the speed control after a command. */
    function CapBox(last: Vec): Bound
      reads gov
    {
      Bound(ctl.idxV, LimitLow(gov.c, gov.maxLinear), Cap(gov.c, gov.maxLinear, gov.factor, if ctl.idxV < |last| then last[ctl.idxV] else 0.0))
    }
  }

  /** How a call ended, from its inputs and its candidate: accepted exactly when everything is
      in order and no node a stop comes near is blocked, and every other way as it is told. */
  ghost predicate DecidedBy(ctl: ProxMpcController, i: Input, cancelling: bool, verdict: Verdict)
    reads ctl, ctl.core
  {
    && ctl.idxV < |ctl.core.candU0|
    && Decided(GatesOf(i, ctl.core.candSolved, ctl.core.candFinite, ctl.core.cand, ctl.core.candU0, ctl.idxV, ctl.limits.rampLin), cancelling, verdict)
  }

  /** What a call makes of its input does not bear on how it ends. */
  lemma MadeDecides(ctl: ProxMpcController, i: Input, j: Input, cancelling: bool, verdict: Verdict)
    requires DecidedBy(ctl, i, cancelling, verdict) && j == i.(goal := j.goal, obs := j.obs)
    ensures DecidedBy(ctl, j, cancelling, verdict)
  {
    hide StopDistance, Travelled, Decided;
    var c, v, r := ctl.core.cand, Abs(ctl.core.candU0[ctl.idxV]), ctl.limits.rampLin;
    assert Clear(i, c, v, r) <==> Clear(j, c, v, r);
  }

  /** The reference of one call. */
  datatype Trace = Trace(q: seq<Point>, psi: seq<real>, v: real, s: seq<real>, pl: PlanPath.Place, sEnd: real, at: seq<real>)

  /** It is laid along the plan, ends within it, and no node passes its end. */
  ghost predicate Referred(dt: real, np: nat, w: World, settling: bool, gait: Reference.Gait, tr: Trace) {
    && |tr.s| == |w.plan| && |tr.q| == np + 1 && |tr.s| > 0 && tr.pl.s0 <= tr.sEnd <= tr.s[|tr.s| - 1]
    && Reference.Horizon(w.plan, tr.s, tr.pl, tr.sEnd, tr.v, w.look, dt, np, settling, w.easing.rotate && settling, gait, tr.q, tr.psi, tr.at)
  }

  /** The reference of the guide for one call. */
  method Lay(guide: Reference.Guide, root: real -> real, w: World, factor: real, dt: real, np: nat)
      returns (q: seq<Point>, psi: seq<real>, v: real, ghost tr: Trace)
    requires IsRoot(root) && |w.plan| > 0 && |w.along| + 1 == |w.plan| && Reference.ValidEasing(w.easing.(yieldFactor := factor))
    requires w.look.turn > 0.0 && dt > 0.0 && np > 0
    modifies guide, guide.latch
    ensures |q| == np + 1 && tr.q == q && tr.psi == psi && tr.v == v
    ensures Referred(dt, np, w, guide.settling, guide.latch.gait, tr)
  {
    hide Reference.Horizon, Reference.EndsAt, Reference.Pace, Reference.NextLatch, Reference.Pending, Reference.Eased, Reference.Settle, Reference.IsPlace,
         Reference.Agrees, PlanPath.IsArc, PlanPath.Segment, Reference.CycleAt, Reference.ValidEasing;
    ghost var s, pl, sEnd, at;
    q, psi, v, s, pl, sEnd, at := guide.Refer(root, w.plan, w.along, w.visit, w.easing.(yieldFactor := factor), w.look, dt, np);
    tr := Trace(q, psi, v, s, pl, sEnd, at);
    Reference.ArcSize(root, w.plan, s);
    EndInside(s, w.along, pl, guide.latch.gait, sEnd);
    HorizonSize(w.plan, s, pl, sEnd, v, w.look, dt, np, guide.settling, w.easing.rotate && guide.settling, guide.latch.gait, q, psi, at);
  }

  lemma EndInside(s: seq<real>, along: seq<real>, pl: PlanPath.Place, gait: Reference.Gait, sEnd: real)
    requires |along| + 1 == |s|
    ensures forall gates: bool, pending: bool {:trigger Reference.EndsAt(s, along, pl, gates, pending, gait, sEnd)} ::
              Reference.EndsAt(s, along, pl, gates, pending, gait, sEnd) ==> pl.s0 <= sEnd <= s[|s| - 1]
  {
  }

  /** The movers with a slot are the first of the ranking, as many as fit. */
  ghost predicate Chosen(b: Body, root: real -> real, s: Dims, sc: PredictiveFill.Scene, movers: seq<PredictiveFill.Track>, ranking: seq<PredictiveFill.Ranked>)
    requires PredictiveFill.Fresh(sc) && PredictiveFill.ValidFill(b.f)
  {
    && PredictiveFill.Rows(sc.reference) && PredictiveFill.Ranking(b.f, root, sc, ranking)
    && |movers| == PredictiveFill.MoverCount(|ranking|, s.k, b.cap) <= |ranking|
    && forall j :: 0 <= j < |movers| ==> movers[j] == ranking[j].track
  }

  /** Rows of movers are their slots. */
  lemma DiscsInSlots(s: Dims, root: real -> real, f: PredictiveFill.Fill, discs: seq<Disc>, movers: seq<PredictiveFill.Track>, age: real, shift: seq<Point>)
    requires ValidDims(s) && s.obstacles && |discs| == Times(s.np, s.k) && |movers| <= s.k && |shift| == s.np && PredictiveFill.ValidFill(f) && age >= 0.0
    requires forall j :: 0 <= j < |movers| ==> PredictiveFill.ValidTrack(movers[j])
    requires forall node: nat, j: nat {:trigger StaticSlots.RowOf(s.k, node, j)} :: node < s.np && j < |movers| && j < s.k ==>
               StaticSlots.RowOf(s.k, node, j) < |discs| && discs[StaticSlots.RowOf(s.k, node, j)] == PredictiveFill.MoverDisc(f, root, movers[j], node, age, shift[node])
    ensures Slotted(s, root, f, discs, movers, age, shift)
  {
    hide Times, PredictiveFill.MoverDisc, PredictiveFill.ValidFill, PredictiveFill.ValidTrack;
    forall j | 0 <= j < |movers| ensures Avoidance.InSlot(s, discs, f, root, movers[j], j, age, shift) {
      forall node: nat | node < s.np ensures DiscAt(s, discs, node, j) == PredictiveFill.MoverDisc(f, root, movers[j], node, age, shift[node]) {
        TableCell(node, s.np, s.k, j);
        assert StaticSlots.RowOf(s.k, node, j) < |discs|;
      }
    }
  }

  lemma RootFits(p: Pilot)
    requires p.Valid()
    ensures IsRoot(p.ctl.core.qp.root)
  {
    hide ProxMpcController.Valid, SpeedGovernor.Valid;
  }

  lemma BodyFits(p: Pilot)
    requires p.Valid()
    ensures FitBody(p.ctl.core.qp.g.dims, p.body) && ValidDims(p.ctl.core.qp.g.dims)
    ensures FitGoals(p.ctl.core.qp.g.dims, p.ctl.core.goal) && (p.ctl.core.qp.g.dims.obstacles ==> |p.ctl.core.obs| == Slacks(p.ctl.core.qp.g.dims))
  {
  }

  lemma GroundIs(p: Pilot, w: World)
    requires p.Valid()
    ensures var s, x := p.ctl.core.qp.g.dims, p.ctl.core.it.x;
            && ValidDims(s) && FitBody(s, p.body) && IsMat(x, s.np + 1, s.n)
            && p.GroundNow(w) == GroundOf(s, p.body, p.trig, x, w.grid)
  {
    hide GroundOf;
    CycleStep(p.ctl);
  }

  lemma InputFits(s: Dims, w: World, i: Input)
    requires FitWorld(s, w) && FitGoals(s, i.goal) && (s.obstacles ==> |i.obs| == Slacks(s))
    requires i == w.input.(limitOk := i.limitOk, goal := i.goal, obs := i.obs)
    ensures FitInput(s, i) && Surveys(s, i)
  {
    hide Slacks, FitGoals, Fits;
  }

  lemma EasedKept(z: Reference.Easing, factor: real)
    requires Reference.ValidEasing(z) && 0.0 <= factor <= 1.0
    ensures Reference.ValidEasing(z.(yieldFactor := factor))
  {
  }

  lemma FactorKept(gov: SpeedGovernor)
    requires gov.Valid()
    ensures 0.0 <= gov.factor <= 1.0
  {
  }

  lemma HorizonSize(p: seq<Point>, s: seq<real>, pl: PlanPath.Place, sEnd: real, v: real, look: Reference.Bearings, dt: real, np: nat, settling: bool, rotate: bool,
                    gait: Reference.Gait, q: seq<Point>, psi: seq<real>, at: seq<real>)
    requires |s| == |p| && Reference.Horizon(p, s, pl, sEnd, v, look, dt, np, settling, rotate, gait, q, psi, at)
    ensures |q| == np + 1
  {
  }

  /** What the core of a controller fixes. */
  lemma CycleStep(ctl: ProxMpcController)
    requires ctl.Valid()
    ensures ValidDims(ctl.core.qp.g.dims) && ctl.core.qp.g.dt > 0.0 && IsMat(ctl.core.it.x, ctl.core.qp.g.dims.np + 1, ctl.core.qp.g.dims.n)
  {
  }

  lemma SpeedControl(ctl: ProxMpcController)
    requires ctl.Valid() && |ctl.core.candU0| == ctl.core.qp.g.dims.m
    ensures ctl.idxV < |ctl.core.candU0|
  {
  }

  lemma SpeedChannel(ctl: ProxMpcController)
    requires ctl.Valid()
    ensures ctl.idxV < |ctl.lastU|
  {
  }
}
