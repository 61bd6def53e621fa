/** The program in the problem's own terms: which increments are feasible, with the dynamics,
    the bounds and the clearances spelt out and no reference to rows. */
module QpExact {
  import opened Basics
  import opened Linear
  import opened Planar
  import opened QpLayout
  import opened QpRows
  import opened QpFeasible
  import opened ProxQp

  // ----- clearances

  /** The distance from a point, linearised: how far a position is along the direction in
      which another one was seen. Seen from nearly on top of the point the direction is
      that of x, and the distance starts from `floor`. */
  function AlongSight(root: real -> real, o: Disc, was: Point, now: Point, floor: real): real {
    var ax, ay := was.x - o.x, was.y - o.y;
    var raw := root(Norm2(ax, ay));
    if raw < NORMAL_EPS then floor + (now.x - was.x) else Mul(ax / raw, now.x - o.x) + Mul(ay / raw, now.y - o.y)
  }

  function Position(g: Config, x: seq<Vec>, node: nat): Point
    requires ValidConfig(g) && g.dims.obstacles && IsMat(x, g.dims.np + 1, g.dims.n) && node < g.dims.np + 1
  {
    Point(x[node][g.px], x[node][g.py])
  }

  /** Where a slot's obstacle is now, judged from its first two discs: where it came from,
      if it is filled at both and its step is one a trusted speed can make. */
  function Present(g: Config, obs: seq<Disc>, slot: nat): Disc
    requires ValidConfig(g) && |obs| == Times(g.dims.np, g.dims.k) && slot < g.dims.k
  {
    var o := DiscAt(g.dims, obs, 0, slot);
    if g.dims.np < 2 then o
    else
      var o2 := DiscAt(g.dims, obs, 1, slot);
      if o2.x < 0.5 * FAR_SENTINEL && Dist2(Point(o.x, o.y), Point(o2.x, o2.y)) <= Square(MAX_OBS_SPEED * g.dt)
      then Disc(2.0 * o.x - o2.x, 2.0 * o.y - o2.y, o.clearance) else o
  }

  /** The clearance a node has to keep a share of: the one at the node before, while the slot
      is filled at both. */
  function Owed(g: Config, root: real -> real, obs: seq<Disc>, x: seq<Vec>, t: seq<Vec>, node: nat, slot: nat): real
    requires ValidConfig(g) && g.dims.obstacles && |obs| == Slacks(g.dims) && node < g.dims.np && slot < g.dims.k
    requires IsMat(x, g.dims.np + 1, g.dims.n) && IsMat(t, g.dims.np + 1, g.dims.n)
  {
    if DiscAt(g.dims, obs, node, slot).x >= 0.5 * FAR_SENTINEL then 0.0
    else if node == 0 then
      var o, p := Present(g, obs, slot), Position(g, x, 0);
      root(Norm2(p.x - o.x, p.y - o.y)) - o.clearance
    else
      var o, p := DiscAt(g.dims, obs, node - 1, slot), Position(g, x, node);
      if o.x >= 0.5 * FAR_SENTINEL then 0.0
      else AlongSight(root, o, p, Position(g, t, node), root(Norm2(p.x - o.x, p.y - o.y))) - o.clearance
  }

  /** A slot at a node: its slack is not negative, and the linearised clearance with the slack
      keeps 1 - gamma of the clearance before. */
  ghost predicate Pays(g: Config, root: real -> real, obs: seq<Disc>, x: seq<Vec>, t: Iterate, node: nat, slot: nat)
    requires ValidConfig(g) && g.dims.obstacles && |obs| == Slacks(g.dims) && node < g.dims.np && slot < g.dims.k
    requires IsMat(x, g.dims.np + 1, g.dims.n) && Fits(g.dims, t)
  {
    var o, w := DiscAt(g.dims, obs, node, slot), SlackAt(g.dims, t.w, node, slot);
    && w >= 0.0
    && AlongSight(root, o, Position(g, x, node + 1), Position(g, t.x, node + 1), NORMAL_EPS) - o.clearance + w
       >= Mul(1.0 - g.gamma, Owed(g, root, obs, x, t.x, node, slot))
  }

  /** Bounds about the applied control, and every slot paid for. */
  ghost predicate Admissible(g: Config, root: real -> real, obs: seq<Disc>, x: seq<Vec>, applied: Vec, t: Iterate)
    requires ValidConfig(g) && |obs| == Slacks(g.dims) && IsMat(x, g.dims.np + 1, g.dims.n) && Fits(g.dims, t) && |applied| == g.dims.m
  {
    && InsideBounds(g, t, applied)
    && (g.dims.obstacles ==> forall node: nat, slot: nat ::
          node < g.dims.np && slot < g.dims.k ==> Pays(g, root, obs, x, t, node, slot))
  }

  lemma SightIsHalf(root: real -> real, o: Disc, was: Point, now: Point)
    requires IsRoot(root)
    ensures var h := Linearize(root, was.x - o.x, was.y - o.y);
            && AlongSight(root, o, was, now, NORMAL_EPS) == h.dist + Mul(h.nx, now.x - was.x) + Mul(h.ny, now.y - was.y)
            && AlongSight(root, o, was, now, h.raw) == h.raw + Mul(h.nx, now.x - was.x) + Mul(h.ny, now.y - was.y)
  {
    var ax, ay := was.x - o.x, was.y - o.y;
    NormNonneg(ax, ay);
    var raw := root(Norm2(ax, ay));
    assert Mul(1.0, now.x - was.x) == now.x - was.x && Mul(0.0, now.y - was.y) == 0.0;
    if raw >= NORMAL_EPS {
      UnitNormal(ax, ay, raw);
      Ahead(ax / raw, ax, now.x - was.x, now.x - o.x);
      Ahead(ay / raw, ay, now.y - was.y, now.y - o.y);
      hide Mul, Norm2;
      assert Linearize(root, ax, ay) == Half(ax / raw, ay / raw, raw, raw);
    }
  }

  lemma Ahead(n: real, a: real, e: real, b: real)
    requires b == a + e
    ensures Mul(n, b) == Mul(n, a) + Mul(n, e)
  {
  }

  lemma PresentIsBefore(g: Config, obs: seq<Disc>, slot: nat)
    requires ValidConfig(g) && |obs| == Times(g.dims.np, g.dims.k) && slot < g.dims.k
    ensures Present(g, obs, slot) == DiscBefore(g, obs, 0, slot)
  {
    hide Times;
  }

  /** What the keep-out row of a slot says about the update. */
  lemma RowPays(g: Config, root: real -> real, obs: seq<Disc>, it: Iterate, applied: Vec, d: Vec, node: nat, slot: nat)
    requires ValidConfig(g) && g.dims.obstacles && Fits(g.dims, it) && |applied| == g.dims.m && |d| == Vars(g.dims) && |obs| == Slacks(g.dims)
    requires node < g.dims.np && slot < g.dims.k && IsRoot(root)
    ensures RowHolds(g, root, obs, it, applied, d, KeepOut(node, slot)) && RowHolds(g, root, obs, it, applied, d, SlackSign(node, slot))
            <==> Pays(g, root, obs, it.x, Step(g.dims, it, d), node, slot)
  {
    hide Mul, Times, Linearize, Vars, UStart, WStart, SlackAt, Norm2, AlongSight;
    var t, q, keep := Step(g.dims, it, d), 1.0 - g.gamma, KeepAt(g, root, it.x, obs, node, slot);
    SlackStep(g.dims, it, d, node, slot);
    ColumnsFit(g.dims);
    var v, v' := StateStep(g.dims, d, node + 1), StateStep(g.dims, d, node);
    assert t.x[node + 1] == VAdd(it.x[node + 1], v) && t.x[node] == VAdd(it.x[node], v');
    assert v[g.px] == d[XCol(g.dims, node + 1, g.px)] && v[g.py] == d[XCol(g.dims, node + 1, g.py)];
    assert v'[g.px] == d[XCol(g.dims, node, g.px)] && v'[g.py] == d[XCol(g.dims, node, g.py)];
    SightIsHalf(root, DiscAt(g.dims, obs, node, slot), Position(g, it.x, node + 1), Position(g, t.x, node + 1));
    PreviousOwed(g, root, obs, it.x, t.x, v'[g.px], v'[g.py], node, slot);
  }

  lemma NowOwed(g: Config, root: real -> real, obs: seq<Disc>, x: seq<Vec>, t: seq<Vec>, slot: nat)
    requires ValidConfig(g) && g.dims.obstacles && |obs| == Slacks(g.dims) && slot < g.dims.k
    requires IsMat(x, g.dims.np + 1, g.dims.n) && IsMat(t, g.dims.np + 1, g.dims.n)
    ensures g.gamma < 1.0 ==> KeepAt(g, root, x, obs, 0, slot).hPrev == Owed(g, root, obs, x, t, 0, slot)
  {
    hide Times, AlongSight, DiscBefore, Present, Norm2, Mul;
    PresentIsBefore(g, obs, slot);
  }

  /** The cached clearance and gradient of a row are the clearance it owes. */
  lemma PreviousOwed(g: Config, root: real -> real, obs: seq<Disc>, x: seq<Vec>, t: seq<Vec>, ex: real, ey: real, node: nat, slot: nat)
    requires ValidConfig(g) && g.dims.obstacles && |obs| == Slacks(g.dims) && node < g.dims.np && slot < g.dims.k && IsRoot(root)
    requires IsMat(x, g.dims.np + 1, g.dims.n) && IsMat(t, g.dims.np + 1, g.dims.n)
    requires t[node][g.px] == x[node][g.px] + ex && t[node][g.py] == x[node][g.py] + ey
    ensures var keep := KeepAt(g, root, x, obs, node, slot);
            Mul(1.0 - g.gamma, keep.hPrev) - (if g.gamma < 1.0 && node > 0 then Mul(keep.gx, ex) + Mul(keep.gy, ey) else 0.0)
            == Mul(1.0 - g.gamma, Owed(g, root, obs, x, t, node, slot))
  {
    hide Mul, Times, AlongSight, Norm2;
    var q, keep := 1.0 - g.gamma, KeepAt(g, root, x, obs, node, slot);
    Nil(keep.hPrev, Owed(g, root, obs, x, t, node, slot), ex, ey);
    if node == 0 {
      NowOwed(g, root, obs, x, t, slot);
    } else if g.gamma < 1.0 && Coupled(g, obs, node, slot) {
      var p := DiscAt(g.dims, obs, node - 1, slot);
      var prev := Linearize(root, x[node][g.px] - p.x, x[node][g.py] - p.y);
      SightIsHalf(root, p, Position(g, x, node), Position(g, t, node));
      hide Linearize;
      Distribute(q, prev.raw - p.clearance, prev.nx, prev.ny, ex, ey);
    }
  }

  lemma Nil(a: real, b: real, ex: real, ey: real)
    ensures Mul(0.0, a) == 0.0 && Mul(0.0, b) == 0.0 && Mul(0.0, ex) == 0.0 && Mul(0.0, ey) == 0.0
    ensures forall q: real {:trigger Mul(q, 0.0)} :: Mul(q, 0.0) == 0.0
  {
  }

  lemma Distribute(q: real, h: real, nx: real, ny: real, ex: real, ey: real)
    ensures Mul(q, h) - (Mul(Mul(-q, nx), ex) + Mul(Mul(-q, ny), ey)) == Mul(q, h + Mul(nx, ex) + Mul(ny, ey))
  {
  }

  lemma HeldIsAdmissible(g: Config, root: real -> real, obs: seq<Disc>, it: Iterate, applied: Vec, d: Vec)
    requires ValidConfig(g) && Fits(g.dims, it) && |applied| == g.dims.m && |d| == Vars(g.dims) && |obs| == Slacks(g.dims) && IsRoot(root)
    requires IneqHold(g, root, obs, it, applied, d)
    ensures Admissible(g, root, obs, it.x, applied, Step(g.dims, it, d))
  {
    hide Times, Vars, Pays, Step, LowOf, UppOf, Product, KeepOf, Mul, RateStep, InsideBounds;
    var t := Step(g.dims, it, d);
    SolvedInsideBounds(g, root, obs, it, applied, d);
    if g.dims.obstacles {
      forall node: nat, slot: nat | node < g.dims.np && slot < g.dims.k
        ensures Pays(g, root, obs, it.x, t, node, slot)
      {
        assert RowHolds(g, root, obs, it, applied, d, KeepOut(node, slot)) && RowHolds(g, root, obs, it, applied, d, SlackSign(node, slot));
        RowPays(g, root, obs, it, applied, d, node, slot);
      }
    }  }

  lemma AdmissibleHolds(g: Config, root: real -> real, obs: seq<Disc>, it: Iterate, applied: Vec, d: Vec, r: Row)
    requires ValidConfig(g) && Fits(g.dims, it) && |applied| == g.dims.m && |d| == Vars(g.dims) && |obs| == Slacks(g.dims) && IsRoot(root)
    requires Admissible(g, root, obs, it.x, applied, Step(g.dims, it, d)) && ValidRow(g.dims, r)
    ensures RowHolds(g, root, obs, it, applied, d, r)
  {
    hide Times, Vars, Pays, Step, LowOf, UppOf, Product, KeepOf, SlackAt, Mul, RateStep;
    if r.KeepOut? || r.SlackSign? {
      RowPays(g, root, obs, it, applied, d, r.node, r.slot);
    } else {
      BoundRows(g, root, obs, it, applied, d, r);
    }
  }

  /** The inequality half of the program is the bounds and the paid slots, nothing more and
      nothing less. */
  lemma IneqHoldIff(g: Config, root: real -> real, obs: seq<Disc>, it: Iterate, applied: Vec, d: Vec)
    requires ValidConfig(g) && Fits(g.dims, it) && |applied| == g.dims.m && |d| == Vars(g.dims) && |obs| == Slacks(g.dims) && IsRoot(root)
    ensures IneqHold(g, root, obs, it, applied, d) <==> Admissible(g, root, obs, it.x, applied, Step(g.dims, it, d))
  {
    hide Times, Vars, Step, RowHolds, Admissible, Slacks;
    if IneqHold(g, root, obs, it, applied, d) {
      HeldIsAdmissible(g, root, obs, it, applied, d);
    }
    if Admissible(g, root, obs, it.x, applied, Step(g.dims, it, d)) {
      forall r: Row | ValidRow(g.dims, r) ensures RowHolds(g, root, obs, it, applied, d, r) {
        AdmissibleHolds(g, root, obs, it, applied, d, r);
      }
    }
  }

  /** A bound row of the program holds when the update keeps the bound. */
  lemma BoundRows(g: Config, root: real -> real, obs: seq<Disc>, it: Iterate, applied: Vec, d: Vec, r: Row)
    requires ValidConfig(g) && Fits(g.dims, it) && |applied| == g.dims.m && |d| == Vars(g.dims) && |obs| == Slacks(g.dims)
    requires ValidRow(g.dims, r) && !r.KeepOut? && !r.SlackSign? && InsideBounds(g, Step(g.dims, it, d), applied)
    ensures RowHolds(g, root, obs, it, applied, d, r)
  {
    hide Mul, KeepOf, Times, UStart, WStart, Vars, UCol, XCol, Slacks;
    ColumnsFit(g.dims);
    var t, s := Step(g.dims, it, d), g.dims;
    match r
    case FirstRate(j) => assert t.u[0] == VAdd(it.u[0], ControlStep(s, d, 0));
    case StateBox(j, node) => assert t.x[node] == VAdd(it.x[node], StateStep(s, d, node));
    case ControlBox(j, block) => assert t.u[block] == VAdd(it.u[block], ControlStep(s, d, block));
    case RateChain(j, block) =>
      assert RateStep(g, t, j, block);
      assert t.u[block] == VAdd(it.u[block], ControlStep(s, d, block));
      assert t.u[block + 1] == VAdd(it.u[block + 1], ControlStep(s, d, block + 1));
    case _ =>
  }

  // ----- dynamics

  /** The first state stays, and every other one follows the linearised dynamics of the node
      before, with the last control held past the control horizon. */
  ghost predicate Linearised(g: Config, dyn: Dynamics, it: Iterate, t: Iterate)
    requires ValidConfig(g) && ValidDynamics(g.dims, dyn) && Fits(g.dims, it) && Fits(g.dims, t)
  {
    t.x[0] == it.x[0] && forall node :: 0 <= node < g.dims.np ==> LinearStep(g, dyn, it, t, node)
  }

  ghost predicate LinearStep(g: Config, dyn: Dynamics, it: Iterate, t: Iterate, node: nat)
    requires ValidConfig(g) && ValidDynamics(g.dims, dyn) && Fits(g.dims, it) && Fits(g.dims, t) && node < g.dims.np
  {
    VSub(t.x[node + 1], it.x[node + 1]) == Stepped(g, dyn, it, t, node)
  }

  /** How far the linearised dynamics take a node: A dx + dt B du and the defect. */
  ghost function Stepped(g: Config, dyn: Dynamics, it: Iterate, t: Iterate, node: nat): (v: Vec)
    requires ValidConfig(g) && ValidDynamics(g.dims, dyn) && Fits(g.dims, it) && Fits(g.dims, t) && node < g.dims.np
    ensures |v| == g.dims.n
  {
    var h := if node < g.dims.nc then node else g.dims.nc - 1;
    var x, u := it.x[node], it.u[h];
    VAdd(VAdd(MatVec(dyn.a(x, u, g.dt), VSub(t.x[node], x)), VScale(g.dt, MatVec(dyn.b(x, u), VSub(t.u[h], u)))), dyn.c(x, u, it.x[node + 1], g.dt))
  }

  lemma StepBack(s: Dims, it: Iterate, d: Vec, node: nat, block: nat)
    requires ValidDims(s) && Fits(s, it) && |d| == Vars(s) && node < s.np + 1 && block < s.nc
    ensures VSub(Step(s, it, d).x[node], it.x[node]) == StateStep(s, d, node)
    ensures VSub(Step(s, it, d).u[block], it.u[block]) == ControlStep(s, d, block)
  {
    hide Vars, StateStep, ControlStep, WStart;
    var t := Step(s, it, d);
    assert t.x[node] == VAdd(it.x[node], StateStep(s, d, node)) && t.u[block] == VAdd(it.u[block], ControlStep(s, d, block));
  }

  lemma LinearisationFits(s: Dims, dyn: Dynamics, x: Vec, u: Vec, y: Vec, dt: real)
    requires ValidDynamics(s, dyn) && |x| == s.n && |u| == s.m && |y| == s.n
    ensures IsMat(dyn.a(x, u, dt), s.n, s.n) && IsMat(dyn.b(x, u), s.n, s.m) && |dyn.c(x, u, y, dt)| == s.n
  {
  }

  lemma StepEntry(a: Mat, dx: Vec, b: Mat, du: Vec, c: Vec, dt: real, i: nat)
    requires IsMat(a, |dx|, |dx|) && IsMat(b, |dx|, |du|) && |c| == |dx| && i < |dx|
    ensures VAdd(VAdd(MatVec(a, dx), VScale(dt, MatVec(b, du))), c)[i] == Dot(a[i], dx) + Mul(dt, Dot(b[i], du)) + c[i]
  {
    hide Dot, Mul;
  }

  /** One dynamics row, in terms of the update. */
  lemma RowSteps(g: Config, dyn: Dynamics, it: Iterate, d: Vec, node: nat, i: nat)
    requires ValidConfig(g) && ValidDynamics(g.dims, dyn) && Fits(g.dims, it) && |d| == Vars(g.dims) && node < g.dims.np && i < g.dims.n
    ensures EqProduct(g, dyn, it, d, Dyn(node, i)) == EqTarget(g, dyn, it, Dyn(node, i))
            <==> VSub(Step(g.dims, it, d).x[node + 1], it.x[node + 1])[i] == Stepped(g, dyn, it, Step(g.dims, it, d), node)[i]
  {
    hide Dot, Vars, StateStep, ControlStep, Step, Mul, VAdd, VSub, VScale, MatVec, FitBounds, ValidDynamics, Slacks;
    var s, h := g.dims, HeldBlock(g.dims, node);
    StepBack(s, it, d, node, h);
    StepBack(s, it, d, node + 1, h);
    var x, u := it.x[node], it.u[h];
    var a, b, c := dyn.a(x, u, g.dt), dyn.b(x, u), dyn.c(x, u, it.x[node + 1], g.dt);
    LinearisationFits(s, dyn, x, u, it.x[node + 1], g.dt);
    StepEntry(a, StateStep(s, d, node), b, ControlStep(s, d, h), c, g.dt, i);
  }

  /** The equality half of the program is the linearised dynamics from the first state. */
  lemma EqHoldIff(g: Config, dyn: Dynamics, it: Iterate, d: Vec)
    requires ValidConfig(g) && ValidDynamics(g.dims, dyn) && Fits(g.dims, it) && |d| == Vars(g.dims)
    ensures EqHold(g, dyn, it, d) <==> Linearised(g, dyn, it, Step(g.dims, it, d))
  {
    hide Vars, StateStep, Step, Stepped, EqProduct, EqTarget;
    var s, t := g.dims, Step(g.dims, it, d);
    if EqHold(g, dyn, it, d) {
      SolvedPinned(g, dyn, it, d);
      forall node {:trigger LinearStep(g, dyn, it, t, node)} | 0 <= node < s.np ensures LinearStep(g, dyn, it, t, node) {
        forall i | 0 <= i < s.n ensures VSub(t.x[node + 1], it.x[node + 1])[i] == Stepped(g, dyn, it, t, node)[i] {
          assert ValidEqRow(s, Dyn(node, i));
          RowSteps(g, dyn, it, d, node, i);
        }
      }
    }
    if Linearised(g, dyn, it, t) {
      forall r: EqRow {:trigger ValidEqRow(s, r)} | ValidEqRow(s, r) ensures EqProduct(g, dyn, it, d, r) == EqTarget(g, dyn, it, r) {
        match r
        case Pin(i) => PinStays(g, dyn, it, d, i);
        case Dyn(node, i) =>
          assert LinearStep(g, dyn, it, t, node);
          RowSteps(g, dyn, it, d, node, i);
      }
    }
  }

  lemma PinStays(g: Config, dyn: Dynamics, it: Iterate, d: Vec, i: nat)
    requires ValidConfig(g) && ValidDynamics(g.dims, dyn) && Fits(g.dims, it) && |d| == Vars(g.dims) && i < g.dims.n
    requires Step(g.dims, it, d).x[0] == it.x[0]
    ensures EqProduct(g, dyn, it, d, Pin(i)) == EqTarget(g, dyn, it, Pin(i))
  {
    hide Vars, StateStep;
    StepBack(g.dims, it, d, 0, 0);
  }

  // ----- the program

  /** An update that solves the problem about an iterate. */
  ghost predicate Solves(pb: Problem, it: Iterate, t: Iterate)
    requires ValidProblem(pb) && Fits(pb.g.dims, it) && Fits(pb.g.dims, t)
  {
    Linearised(pb.g, pb.dyn, it, t) && Admissible(pb.g, pb.root, pb.obs, it.x, pb.applied, t)
  }

  /** Feasible increments of the program handed over are exactly those whose update follows
      the linearised dynamics, keeps every bound and pays for every slot. */
  lemma FeasibleExactly(pb: Problem, it: Iterate, p: Program, d: Vec)
    requires ValidProblem(pb) && IsRoot(pb.root) && Fits(pb.g.dims, it) && Poses(pb, it, p) && |d| == Vars(pb.g.dims)
    ensures Feasible(p, d) <==> Solves(pb, it, Step(pb.g.dims, it, d))
  {
    hide Vars, Slacks, Poses, Feasible, EqHold, IneqHold, Linearised, Admissible, Step, ValidDynamics;
    FeasibleIff(pb, it, p, d);
    EqHoldIff(pb.g, pb.dyn, it, d);
    IneqHoldIff(pb.g, pb.root, pb.obs, it, pb.applied, d);
  }

  // ----- the keep-out is soft

  /** Updates that differ in their slacks alone. */
  predicate SameMotion(t: Iterate, r: Iterate) { t.x == r.x && t.u == r.u }

  lemma MotionOf(s: Dims, it: Iterate, d: Vec, e: Vec)
    requires ValidDims(s) && Fits(s, it) && |d| == Vars(s) && |e| == Vars(s) && d[..WStart(s)] == e[..WStart(s)]
    ensures SameMotion(Step(s, it, d), Step(s, it, e))
  {
    hide Times, Vars, WStart, UStart, XCol, UCol;
    ColumnsFit(s);
    var t, r := Step(s, it, d), Step(s, it, e);
    forall node | 0 <= node < s.np + 1 ensures t.x[node] == r.x[node] {
      var v, v' := StateStep(s, d, node), StateStep(s, e, node);
      forall i | 0 <= i < s.n ensures v[i] == v'[i] { assert d[..WStart(s)][XCol(s, node, i)] == e[..WStart(s)][XCol(s, node, i)]; }
      assert v == v';
    }
    forall block | 0 <= block < s.nc ensures t.u[block] == r.u[block] {
      var v, v' := ControlStep(s, d, block), ControlStep(s, e, block);
      forall i | 0 <= i < s.m ensures v[i] == v'[i] { assert d[..WStart(s)][UCol(s, block, i)] == e[..WStart(s)][UCol(s, block, i)]; }
      assert v == v';
    }
  }

  lemma SameBounds(g: Config, dyn: Dynamics, it: Iterate, applied: Vec, t: Iterate, r: Iterate)
    requires ValidConfig(g) && ValidDynamics(g.dims, dyn) && Fits(g.dims, it) && Fits(g.dims, t) && Fits(g.dims, r) && |applied| == g.dims.m && SameMotion(t, r)
    ensures Linearised(g, dyn, it, t) ==> Linearised(g, dyn, it, r)
    ensures InsideBounds(g, t, applied) ==> InsideBounds(g, r, applied)
  {
    hide Mul;
    if Linearised(g, dyn, it, t) {
      forall node | 0 <= node < g.dims.np ensures LinearStep(g, dyn, it, r, node) { assert LinearStep(g, dyn, it, t, node); }
    }
    if InsideBounds(g, t, applied) {
      forall j, block | 0 <= j < g.dims.ndu && 0 <= block < g.dims.nc - 1 ensures RateStep(g, r, j, block) { assert RateStep(g, t, j, block); }
    }
  }

  /** Raising slacks keeps an update a solution. */
  lemma MoreSlack(pb: Problem, it: Iterate, t: Iterate, r: Iterate)
    requires ValidProblem(pb) && Fits(pb.g.dims, it) && Fits(pb.g.dims, t) && Fits(pb.g.dims, r) && Solves(pb, it, t)
    requires SameMotion(t, r) && forall i :: 0 <= i < |t.w| ==> t.w[i] <= r.w[i]
    ensures Solves(pb, it, r)
  {
    hide Times, InsideBounds, Linearised, AlongSight, Owed, Mul;
    SameBounds(pb.g, pb.dyn, it, pb.applied, t, r);
    if pb.g.dims.obstacles {
      forall node: nat, slot: nat | node < pb.g.dims.np && slot < pb.g.dims.k ensures Pays(pb.g, pb.root, pb.obs, it.x, r, node, slot) {
        assert Pays(pb.g, pb.root, pb.obs, it.x, t, node, slot);
        TableCell(node, pb.g.dims.np, pb.g.dims.k, slot);
      }
    }
  }

  /** What a slot is short of at a node. */
  function Short(g: Config, root: real -> real, obs: seq<Disc>, x: seq<Vec>, t: seq<Vec>, node: nat, slot: nat): real
    requires ValidConfig(g) && g.dims.obstacles && |obs| == Slacks(g.dims) && node < g.dims.np && slot < g.dims.k
    requires IsMat(x, g.dims.np + 1, g.dims.n) && IsMat(t, g.dims.np + 1, g.dims.n)
  {
    var o := DiscAt(g.dims, obs, node, slot);
    Max(0.0, Mul(1.0 - g.gamma, Owed(g, root, obs, x, t, node, slot)) - AlongSight(root, o, Position(g, x, node + 1), Position(g, t, node + 1), NORMAL_EPS) + o.clearance)
  }

  lemma CellBack(s: Dims, c: nat)
    requires s.k > 0 && c < Times(s.np, s.k)
    ensures c / s.k < s.np && c % s.k < s.k && c == Times(c / s.k, s.k) + c % s.k
  {
    if c / s.k >= s.np { TimesMono(s.np, c / s.k, s.k); }
  }

  /** The slacks that make up for every shortfall. */
  ghost function Enough(g: Config, root: real -> real, obs: seq<Disc>, x: seq<Vec>, t: seq<Vec>): (w: Vec)
    requires ValidConfig(g) && |obs| == Slacks(g.dims) && IsMat(x, g.dims.np + 1, g.dims.n) && IsMat(t, g.dims.np + 1, g.dims.n)
    ensures |w| == Slacks(g.dims)
  {
    seq(Slacks(g.dims), c requires 0 <= c < Slacks(g.dims) => CellBack(g.dims, c); Short(g, root, obs, x, t, c / g.dims.k, c % g.dims.k))
  }

  lemma EnoughAt(g: Config, root: real -> real, obs: seq<Disc>, x: seq<Vec>, t: seq<Vec>, node: nat, slot: nat)
    requires ValidConfig(g) && g.dims.obstacles && |obs| == Slacks(g.dims) && IsMat(x, g.dims.np + 1, g.dims.n) && IsMat(t, g.dims.np + 1, g.dims.n)
    requires node < g.dims.np && slot < g.dims.k
    ensures SlackAt(g.dims, Enough(g, root, obs, x, t), node, slot) == Short(g, root, obs, x, t, node, slot)
  {
    hide Times, Short;
    TableCell(node, g.dims.np, g.dims.k, slot);
    var c := Times(node, g.dims.k) + slot;
    CellBack(g.dims, c);
    CellUnique(c / g.dims.k, c % g.dims.k, node, slot, g.dims.k);
  }

  /** The keep-out never makes a program infeasible: whatever motion follows the linearised
      dynamics inside the bounds is feasible for the program with slack enough. */
  lemma KeepOutNeverBlocks(pb: Problem, it: Iterate, p: Program, d: Vec) returns (e: Vec)
    requires ValidProblem(pb) && IsRoot(pb.root) && Fits(pb.g.dims, it) && Poses(pb, it, p) && |d| == Vars(pb.g.dims)
    requires Linearised(pb.g, pb.dyn, it, Step(pb.g.dims, it, d)) && InsideBounds(pb.g, Step(pb.g.dims, it, d), pb.applied)
    ensures |e| == |d| && Feasible(p, e) && SameMotion(Step(pb.g.dims, it, d), Step(pb.g.dims, it, e))
  {
    hide Times, Vars, Poses, Feasible, Linearised, InsideBounds, Step, UStart, WStart, ValidDynamics, Short;
    var s := pb.g.dims;
    var t := Step(s, it, d);
    SlackTail(s);
    var w := Enough(pb.g, pb.root, pb.obs, it.x, t.x);
    e := d[..WStart(s)] + VSub(w, it.w);
    assert d[..WStart(s)] == e[..WStart(s)];
    MotionOf(s, it, d, e);
    var r := Step(s, it, e);
    assert e[WStart(s)..] == VSub(w, it.w);
    assert r.w == w;
    SameBounds(pb.g, pb.dyn, it, pb.applied, t, r);
    if s.obstacles {
      forall node: nat, slot: nat | node < s.np && slot < s.k ensures Pays(pb.g, pb.root, pb.obs, it.x, r, node, slot) {
        EnoughAt(pb.g, pb.root, pb.obs, it.x, t.x, node, slot);
        ShortPays(pb.g, pb.root, pb.obs, it.x, r, node, slot);
      }
    }
    FeasibleExactly(pb, it, p, e);
  }

  lemma SlackTail(s: Dims)
    ensures Vars(s) == WStart(s) + Slacks(s)
  {
  }

  lemma ShortPays(g: Config, root: real -> real, obs: seq<Disc>, x: seq<Vec>, t: Iterate, node: nat, slot: nat)
    requires ValidConfig(g) && g.dims.obstacles && |obs| == Slacks(g.dims) && node < g.dims.np && slot < g.dims.k
    requires IsMat(x, g.dims.np + 1, g.dims.n) && Fits(g.dims, t)
    requires SlackAt(g.dims, t.w, node, slot) == Short(g, root, obs, x, t.x, node, slot)
    ensures Pays(g, root, obs, x, t, node, slot)
  {
    hide Times, SlackAt, AlongSight, Owed, Mul;
  }
}
