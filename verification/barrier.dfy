/** The discrete-time barrier: what the keep-out rows of a solved program guarantee about
    the distance to an obstacle over the whole horizon. */
module Barrier {
  import opened Basics
  import opened Linear
  import opened Planar
  import opened QpLayout
  import opened QpRows
  import opened QpFeasible

  // ----- one half-plane

  /** What the coincidence fallback gives up: the normal is arbitrary there. */
  function Blur(h: Half): real { if h.raw < NORMAL_EPS then NORMAL_EPS else 0.0 }

  /** The half-plane supports the distance: after any displacement the true distance is at
      least the linearised one, up to the blur of the coincidence fallback. */
  lemma Supports(root: real -> real, dx: real, dy: real, ex: real, ey: real)
    requires IsRoot(root)
    ensures var h := Linearize(root, dx, dy);
            root(Norm2(dx + ex, dy + ey)) >= h.dist + Mul(h.nx, ex) + Mul(h.ny, ey) - 2.0 * Blur(h)
  {
    var h := Linearize(root, dx, dy);
    var vx, vy := dx + ex, dy + ey;
    NormNonneg(dx, dy);
    NormNonneg(vx, vy);
    var raw, r := root(Norm2(dx, dy)), root(Norm2(vx, vy));
    assert raw >= 0.0 && raw * raw == Norm2(dx, dy) && r >= 0.0 && r * r == Norm2(vx, vy);
    if raw < NORMAL_EPS {
      SquareOrder(dx, raw);
      CauchySchwarz(1.0, 0.0, vx, vy, r);
    } else {
      UnitNormal(dx, dy, raw);
      CauchySchwarz(h.nx, h.ny, vx, vy, r);
      Spread(h.nx, h.ny, dx, dy, ex, ey);
    }
  }

  lemma Spread(a: real, b: real, x: real, y: real, u: real, v: real)
    ensures Mul(a, x + u) + Mul(b, y + v) == Mul(a, x) + Mul(b, y) + (Mul(a, u) + Mul(b, v))
  {
  }

  // ----- the chain over the horizon

  /** The half-plane of a slot at a node and its displacement term. */
  function HalfAt(g: Config, root: real -> real, x: seq<Vec>, obs: seq<Disc>, node: nat, slot: nat): Half
    requires ValidConfig(g) && g.dims.obstacles && IsMat(x, g.dims.np + 1, g.dims.n) && |obs| == Slacks(g.dims)
    requires node < g.dims.np && slot < g.dims.k
  {
    var o := DiscAt(g.dims, obs, node, slot);
    Linearize(root, x[node + 1][g.px] - o.x, x[node + 1][g.py] - o.y)
  }

  function Shift(g: Config, h: Half, d: Vec, node: nat): real
    requires ValidConfig(g) && g.dims.obstacles && |d| == Vars(g.dims) && node < g.dims.np + 1
  {
    Mul(h.nx, StateStep(g.dims, d, node)[g.px]) + Mul(h.ny, StateStep(g.dims, d, node)[g.py])
  }

  /** The linearised clearance after the step. */
  function Linearized(g: Config, root: real -> real, x: seq<Vec>, obs: seq<Disc>, d: Vec, node: nat, slot: nat): real
    requires ValidConfig(g) && g.dims.obstacles && IsMat(x, g.dims.np + 1, g.dims.n) && |obs| == Slacks(g.dims)
    requires |d| == Vars(g.dims) && node < g.dims.np && slot < g.dims.k
  {
    var h := HalfAt(g, root, x, obs, node, slot);
    h.dist - DiscAt(g.dims, obs, node, slot).clearance + Shift(g, h, d, node + 1)
  }

  /** The true clearance of an iterate from a slot's obstacle, the robot at node + 1. */
  function Clearance(g: Config, root: real -> real, x: seq<Vec>, obs: seq<Disc>, node: nat, slot: nat): real
    requires ValidConfig(g) && g.dims.obstacles && IsMat(x, g.dims.np + 1, g.dims.n) && |obs| == Slacks(g.dims)
    requires node < g.dims.np && slot < g.dims.k
  {
    var o := DiscAt(g.dims, obs, node, slot);
    root(Norm2(x[node + 1][g.px] - o.x, x[node + 1][g.py] - o.y)) - o.clearance
  }

  /** The clearance now, against the obstacle at the current time. */
  function ClearanceNow(g: Config, root: real -> real, x: seq<Vec>, obs: seq<Disc>, slot: nat): real
    requires ValidConfig(g) && g.dims.obstacles && IsMat(x, g.dims.np + 1, g.dims.n) && |obs| == Slacks(g.dims)
    requires slot < g.dims.k
  {
    var o := DiscBefore(g, obs, 0, slot);
    root(Norm2(x[0][g.px] - o.x, x[0][g.py] - o.y)) - o.clearance
  }

  /** The guaranteed clearance, node by node: it decays by 1 - gamma and pays the slack,
      and starts over after a node where the slot is empty. */
  function Floor(g: Config, root: real -> real, x: seq<Vec>, obs: seq<Disc>, w: Vec, node: nat, slot: nat): real
    requires ValidConfig(g) && g.dims.obstacles && IsMat(x, g.dims.np + 1, g.dims.n) && |obs| == Slacks(g.dims)
    requires |w| == Slacks(g.dims) && node < g.dims.np && slot < g.dims.k
  {
    var s := SlackAt(g.dims, w, node, slot);
    if node == 0 then Mul(1.0 - g.gamma, ClearanceNow(g, root, x, obs, slot)) - s
    else if Filled(DiscAt(g.dims, obs, node - 1, slot)) then
      Mul(1.0 - g.gamma, Floor(g, root, x, obs, w, node - 1, slot) - Blur(HalfAt(g, root, x, obs, node - 1, slot))) - s
    else -s
  }

  /** The keep-out row of a slot, rewritten: the linearised clearance plus the slack covers
      1 - gamma of the linearised clearance at the node before. */
  lemma RowMeans(g: Config, root: real -> real, obs: seq<Disc>, it: Iterate, applied: Vec, d: Vec, node: nat, slot: nat)
    requires ValidConfig(g) && g.dims.obstacles && Fits(g.dims, it) && |applied| == g.dims.m && |d| == Vars(g.dims) && |obs| == Slacks(g.dims)
    requires IneqHold(g, root, obs, it, applied, d) && node < g.dims.np && slot < g.dims.k
    ensures var keep := KeepAt(g, root, it.x, obs, node, slot);
            var back := if g.gamma < 1.0 && node > 0 then Mul(keep.gx, StateStep(g.dims, d, node)[g.px]) + Mul(keep.gy, StateStep(g.dims, d, node)[g.py]) else 0.0;
            Linearized(g, root, it.x, obs, d, node, slot) + SlackAt(g.dims, Step(g.dims, it, d).w, node, slot) + back >= Mul(1.0 - g.gamma, keep.hPrev)
  {
    hide Mul, Times, Linearize, Vars, UStart, WStart;
    assert RowHolds(g, root, obs, it, applied, d, KeepOut(node, slot));
    SlackStep(g.dims, it, d, node, slot);
    ColumnsFit(g.dims);
    var v, v' := StateStep(g.dims, d, node + 1), StateStep(g.dims, d, node);
    assert v[g.px] == d[XCol(g.dims, node + 1, g.px)] && v[g.py] == d[XCol(g.dims, node + 1, g.py)];
    assert v'[g.px] == d[XCol(g.dims, node, g.px)] && v'[g.py] == d[XCol(g.dims, node, g.py)];
  }

  lemma Coupling(q: real, gx: real, gy: real, nx: real, ny: real, dx: real, dy: real)
    requires gx == Mul(-q, nx) && gy == Mul(-q, ny)
    ensures Mul(gx, dx) + Mul(gy, dy) == -Mul(q, Mul(nx, dx) + Mul(ny, dy))
  {
  }

  lemma Scale(q: real, x: real, y: real)
    ensures q >= 0.0 && x >= y ==> Mul(q, x) >= Mul(q, y)
    ensures Mul(q, x + y) == Mul(q, x) + Mul(q, y) && Mul(0.0, x) == 0.0
  {
    if q >= 0.0 && x >= y { MonoProduct(q, y, x); }
  }

  /** One link: the linearised clearance keeps 1 - gamma of the one before. */
  lemma LinkHolds(g: Config, root: real -> real, obs: seq<Disc>, it: Iterate, applied: Vec, d: Vec, node: nat, slot: nat)
    requires ValidConfig(g) && g.dims.obstacles && Fits(g.dims, it) && |applied| == g.dims.m && |d| == Vars(g.dims) && |obs| == Slacks(g.dims)
    requires IneqHold(g, root, obs, it, applied, d) && 0 < node < g.dims.np && slot < g.dims.k && IsRoot(root)
    requires Filled(DiscAt(g.dims, obs, node, slot)) && Filled(DiscAt(g.dims, obs, node - 1, slot))
    ensures Linearized(g, root, it.x, obs, d, node, slot) + SlackAt(g.dims, Step(g.dims, it, d).w, node, slot)
         >= Mul(1.0 - g.gamma, Linearized(g, root, it.x, obs, d, node - 1, slot) - Blur(HalfAt(g, root, it.x, obs, node - 1, slot)))
  {
    hide Mul, Times, Linearize, Vars, UStart, WStart, SlackAt, Step, StateStep, Blur;
    RowMeans(g, root, obs, it, applied, d, node, slot);
    var keep, q := KeepAt(g, root, it.x, obs, node, slot), 1.0 - g.gamma;
    var o := DiscAt(g.dims, obs, node - 1, slot);
    var h := HalfAt(g, root, it.x, obs, node - 1, slot);
    RawAboveDist(root, it.x[node][g.px] - o.x, it.x[node][g.py] - o.y);
    var sh := Shift(g, h, d, node);
    if g.gamma < 1.0 {
      Coupling(q, keep.gx, keep.gy, h.nx, h.ny, StateStep(g.dims, d, node)[g.px], StateStep(g.dims, d, node)[g.py]);
      Scale(q, h.raw - o.clearance, sh);
      Scale(q, h.raw - o.clearance + sh, h.dist - Blur(h) - o.clearance + sh);
    } else {
      Scale(q, keep.hPrev, 0.0);
      Scale(q, Linearized(g, root, it.x, obs, d, node - 1, slot) - Blur(h), 0.0);
    }
  }

  lemma RawAboveDist(root: real -> real, dx: real, dy: real)
    requires IsRoot(root)
    ensures var h := Linearize(root, dx, dy); h.raw >= h.dist - Blur(h)
  {
    NormNonneg(dx, dy);
  }

  /** The linearised clearance of a filled slot stays above its floor. */
  lemma {:induction false} LinearizedFloor(g: Config, root: real -> real, obs: seq<Disc>, it: Iterate, applied: Vec, d: Vec, node: nat, slot: nat)
    requires ValidConfig(g) && g.dims.obstacles && Fits(g.dims, it) && |applied| == g.dims.m && |d| == Vars(g.dims) && |obs| == Slacks(g.dims)
    requires IneqHold(g, root, obs, it, applied, d) && node < g.dims.np && slot < g.dims.k && IsRoot(root)
    requires Filled(DiscAt(g.dims, obs, node, slot))
    ensures Linearized(g, root, it.x, obs, d, node, slot) >= Floor(g, root, it.x, obs, Step(g.dims, it, d).w, node, slot)
  {
    hide Mul, Times, Linearize, Vars, UStart, WStart, SlackAt, Step, StateStep, Blur, Linearized, HalfAt;
    var w, q := Step(g.dims, it, d).w, 1.0 - g.gamma;
    RowMeans(g, root, obs, it, applied, d, node, slot);
    var keep := KeepAt(g, root, it.x, obs, node, slot);
    if node > 0 && Filled(DiscAt(g.dims, obs, node - 1, slot)) {
      LinearizedFloor(g, root, obs, it, applied, d, node - 1, slot);
      LinkHolds(g, root, obs, it, applied, d, node, slot);
      var l, f, e := Linearized(g, root, it.x, obs, d, node - 1, slot), Floor(g, root, it.x, obs, w, node - 1, slot), Blur(HalfAt(g, root, it.x, obs, node - 1, slot));
      Scale(q, l - e, f - e);
    } else {
      StartHolds(g, root, obs, it.x, node, slot);
      Scale(0.0, ClearanceNow(g, root, it.x, obs, slot), 0.0);
    }
  }

  /** Where a chain starts: at the first node the cached value is the clearance now, and
      after an empty slot nothing is coupled. */
  lemma StartHolds(g: Config, root: real -> real, obs: seq<Disc>, x: seq<Vec>, node: nat, slot: nat)
    requires ValidConfig(g) && g.dims.obstacles && IsMat(x, g.dims.np + 1, g.dims.n) && |obs| == Slacks(g.dims)
    requires node < g.dims.np && slot < g.dims.k
    requires Filled(DiscAt(g.dims, obs, node, slot)) && (node > 0 ==> !Filled(DiscAt(g.dims, obs, node - 1, slot)))
    ensures var keep := KeepAt(g, root, x, obs, node, slot);
            if node == 0 then Mul(1.0 - g.gamma, keep.hPrev) == Mul(1.0 - g.gamma, ClearanceNow(g, root, x, obs, slot))
            else keep.hPrev == 0.0 && Mul(1.0 - g.gamma, keep.hPrev) == 0.0 && keep.gx == 0.0 && keep.gy == 0.0 && forall v: real :: Mul(0.0, v) == 0.0
  {
    hide Times;
  }

  /** Keep-out over the whole horizon. For every solved program and every node where the
      slot is filled, the clearance of the updated trajectory from the slot's obstacle
      stays above the floor, less the blur of the coincidence fallback. */
  lemma KeepsOut(g: Config, root: real -> real, dyn: Dynamics, obs: seq<Disc>, it: Iterate, applied: Vec, d: Vec, node: nat, slot: nat)
    requires ValidConfig(g) && g.dims.obstacles && Fits(g.dims, it) && |applied| == g.dims.m && |d| == Vars(g.dims) && |obs| == Slacks(g.dims)
    requires IneqHold(g, root, obs, it, applied, d) && ValidDynamics(g.dims, dyn) && EqHold(g, dyn, it, d)
    requires node < g.dims.np && slot < g.dims.k && IsRoot(root) && Filled(DiscAt(g.dims, obs, node, slot))
    ensures var t := Step(g.dims, it, d);
            && t.x[0] == it.x[0] && SlackAt(g.dims, t.w, node, slot) >= 0.0
            && Clearance(g, root, t.x, obs, node, slot)
               >= Floor(g, root, it.x, obs, t.w, node, slot) - 2.0 * Blur(HalfAt(g, root, it.x, obs, node, slot))
  {
    hide Mul, Times, Linearize, Vars, UStart, WStart, SlackAt, StateStep, Blur, Floor, Norm2, IneqHold, EqHold;
    SolvedPinned(g, dyn, it, d);
    SolvedSlackSign(g, root, obs, it, applied, d, node, slot);
    LinearizedFloor(g, root, obs, it, applied, d, node, slot);
    var t, v, o := Step(g.dims, it, d), StateStep(g.dims, d, node + 1), DiscAt(g.dims, obs, node, slot);
    assert t.x[node + 1] == VAdd(it.x[node + 1], v);
    var dx, dy := it.x[node + 1][g.px] - o.x, it.x[node + 1][g.py] - o.y;
    Supports(root, dx, dy, v[g.px], v[g.py]);
    assert t.x[node + 1][g.px] - o.x == dx + v[g.px] && t.x[node + 1][g.py] - o.y == dy + v[g.py];
  }

  // ----- closed form

  function Power(q: real, k: nat): real { if k == 0 then 1.0 else Mul(q, Power(q, k - 1)) }

  /** The slacks of a slot at the nodes before `upto`, discounted to `node`. */
  function Discounted(s: Dims, w: Vec, slot: nat, q: real, node: nat, upto: nat): real
    requires s.obstacles && |w| == Slacks(s) && slot < s.k && node < s.np && upto <= node + 1
  {
    if upto == 0 then 0.0
    else Discounted(s, w, slot, q, node, upto - 1) + Mul(Power(q, node - (upto - 1)), SlackAt(s, w, upto - 1, slot))
  }

  lemma {:induction false} DiscountedShift(s: Dims, w: Vec, slot: nat, q: real, node: nat, upto: nat)
    requires s.obstacles && |w| == Slacks(s) && slot < s.k && node + 1 < s.np && upto <= node + 1
    ensures Discounted(s, w, slot, q, node + 1, upto) == Mul(q, Discounted(s, w, slot, q, node, upto))
  {
    hide Mul, SlackAt, Times;
    if upto == 0 {
      Factor(q, 0.0, 0.0);
    } else {
      DiscountedShift(s, w, slot, q, node, upto - 1);
      Factor(q, Power(q, node - (upto - 1)), SlackAt(s, w, upto - 1, slot));
      Scale(q, Discounted(s, w, slot, q, node, upto - 1), Mul(Power(q, node - (upto - 1)), SlackAt(s, w, upto - 1, slot)));
    }
  }

  lemma Factor(q: real, p: real, x: real)
    ensures Mul(Mul(q, p), x) == Mul(q, Mul(p, x)) && Mul(q, 0.0) == 0.0 && Mul(1.0, x) == x
  {
  }

  /** The slot is filled at a node and clear of coincidence. */
  predicate Apart(g: Config, root: real -> real, x: seq<Vec>, obs: seq<Disc>, node: nat, slot: nat)
    requires ValidConfig(g) && g.dims.obstacles && IsMat(x, g.dims.np + 1, g.dims.n) && |obs| == Slacks(g.dims)
    requires node < g.dims.np && slot < g.dims.k
  {
    Filled(DiscAt(g.dims, obs, node, slot)) && HalfAt(g, root, x, obs, node, slot).raw >= NORMAL_EPS
  }

  ghost predicate Separated(g: Config, root: real -> real, x: seq<Vec>, obs: seq<Disc>, node: nat, slot: nat)
    requires ValidConfig(g) && g.dims.obstacles && IsMat(x, g.dims.np + 1, g.dims.n) && |obs| == Slacks(g.dims)
    requires node < g.dims.np && slot < g.dims.k
  {
    forall k :: 0 <= k <= node ==> Apart(g, root, x, obs, k, slot)
  }

  lemma {:induction false} FloorClosed(g: Config, root: real -> real, x: seq<Vec>, obs: seq<Disc>, w: Vec, node: nat, slot: nat)
    requires ValidConfig(g) && g.dims.obstacles && IsMat(x, g.dims.np + 1, g.dims.n) && |obs| == Slacks(g.dims)
    requires |w| == Slacks(g.dims) && node < g.dims.np && slot < g.dims.k && Separated(g, root, x, obs, node, slot)
    ensures Floor(g, root, x, obs, w, node, slot)
         == Mul(Power(1.0 - g.gamma, node + 1), ClearanceNow(g, root, x, obs, slot)) - Discounted(g.dims, w, slot, 1.0 - g.gamma, node, node + 1)
  {
    hide Mul, SlackAt, Times, Linearize, DiscBefore;
    var q, h0 := 1.0 - g.gamma, ClearanceNow(g, root, x, obs, slot);
    Factor(q, 1.0, SlackAt(g.dims, w, node, slot));
    assert Discounted(g.dims, w, slot, q, node, node + 1) == Discounted(g.dims, w, slot, q, node, node) + SlackAt(g.dims, w, node, slot);
    if node == 0 {
      Factor(q, 1.0, h0);
      OneRight(q);
    } else {
      var h := HalfAt(g, root, x, obs, node - 1, slot);
      assert Apart(g, root, x, obs, node - 1, slot);
      FloorClosed(g, root, x, obs, w, node - 1, slot);
      DiscountedShift(g.dims, w, slot, q, node - 1, node);
      var a, b := Mul(Power(q, node), h0), Discounted(g.dims, w, slot, q, node - 1, node);
      Difference(q, a, b);
      Factor(q, Power(q, node), h0);
    }
  }

  lemma OneRight(q: real)
    ensures Mul(q, 1.0) == q
  {
  }

  lemma Difference(q: real, a: real, b: real)
    ensures Mul(q, a - b) == Mul(q, a) - Mul(q, b) && Mul(q, a - b - 0.0) == Mul(q, a) - Mul(q, b)
  {
  }

  /** The barrier over the horizon: with the slot filled and separated up to a node, the
      clearance there is at least (1 - gamma)^(k+1) of the clearance now, less the slacks
      spent on the way, each discounted by the nodes since. */
  lemma HorizonKeepOut(g: Config, root: real -> real, dyn: Dynamics, obs: seq<Disc>, it: Iterate, applied: Vec, d: Vec, node: nat, slot: nat)
    requires ValidConfig(g) && g.dims.obstacles && Fits(g.dims, it) && |applied| == g.dims.m && |d| == Vars(g.dims) && |obs| == Slacks(g.dims)
    requires IneqHold(g, root, obs, it, applied, d) && ValidDynamics(g.dims, dyn) && EqHold(g, dyn, it, d)
    requires node < g.dims.np && slot < g.dims.k && IsRoot(root) && Separated(g, root, it.x, obs, node, slot)
    ensures var t, q := Step(g.dims, it, d), 1.0 - g.gamma;
            && ClearanceNow(g, root, t.x, obs, slot) == ClearanceNow(g, root, it.x, obs, slot)
            && Clearance(g, root, t.x, obs, node, slot)
               >= Mul(Power(q, node + 1), ClearanceNow(g, root, t.x, obs, slot)) - Discounted(g.dims, t.w, slot, q, node, node + 1)
  {
    hide Mul, Times, Linearize, Vars, UStart, WStart, SlackAt, StateStep, Floor, Norm2, Step, DiscBefore, Discounted, Power, Clearance;
    assert Apart(g, root, it.x, obs, node, slot);
    KeepsOut(g, root, dyn, obs, it, applied, d, node, slot);
    FloorClosed(g, root, it.x, obs, Step(g.dims, it, d).w, node, slot);
  }

  /** At gamma = 1 only the node's own slack and the coincidence blur are given up,
      wherever the obstacles are. */
  lemma PointwiseKeepOut(g: Config, root: real -> real, dyn: Dynamics, obs: seq<Disc>, it: Iterate, applied: Vec, d: Vec, node: nat, slot: nat)
    requires ValidConfig(g) && g.dims.obstacles && Fits(g.dims, it) && |applied| == g.dims.m && |d| == Vars(g.dims) && |obs| == Slacks(g.dims)
    requires IneqHold(g, root, obs, it, applied, d) && ValidDynamics(g.dims, dyn) && EqHold(g, dyn, it, d)
    requires node < g.dims.np && slot < g.dims.k && IsRoot(root) && Filled(DiscAt(g.dims, obs, node, slot)) && g.gamma == 1.0
    ensures var t := Step(g.dims, it, d);
            Clearance(g, root, t.x, obs, node, slot) >= -SlackAt(g.dims, t.w, node, slot) - 2.0 * NORMAL_EPS
  {
    hide Times, Linearize, Vars, UStart, WStart, SlackAt, StateStep, Norm2, Step, DiscBefore, Clearance;
    KeepsOut(g, root, dyn, obs, it, applied, d, node, slot);
  }

  /** The backward extrapolation recovers the current position of an obstacle that moves
      with constant velocity exactly when its speed is at most the trusted one. */
  lemma BackwardExactIff(g: Config, obs: seq<Disc>, slot: nat, cx: real, cy: real, vx: real, vy: real)
    requires ValidConfig(g) && g.dims.obstacles && g.dims.np >= 2 && |obs| == Slacks(g.dims) && slot < g.dims.k
    requires var o, o2 := DiscAt(g.dims, obs, 0, slot), DiscAt(g.dims, obs, 1, slot);
             Filled(o2) && o.x == cx + vx && o.y == cy + vy && o2.x == cx + 2.0 * vx && o2.y == cy + 2.0 * vy
    ensures var b := DiscBefore(g, obs, 0, slot);
            (b.x == cx && b.y == cy) <==> vx * vx + vy * vy <= (MAX_OBS_SPEED * g.dt) * (MAX_OBS_SPEED * g.dt)
  {
    hide Times;
    var o, o2 := DiscAt(g.dims, obs, 0, slot), DiscAt(g.dims, obs, 1, slot);
    assert o.x - o2.x == -vx && o.y - o2.y == -vy;
    assert (o.x - o2.x) * (o.x - o2.x) == vx * vx && (o.y - o2.y) * (o.y - o2.y) == vy * vy;
    var step := MAX_OBS_SPEED * g.dt;
    assert step * step >= 0.0;
  }
}
