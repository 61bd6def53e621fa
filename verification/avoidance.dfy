/** What the barrier means for a mover: the robot keeps the plain clearance from where the
    mover is predicted to be, whatever shadow its disc carries. */
module Avoidance {
  import opened Basics
  import opened Linear
  import opened Planar
  import opened QpLayout
  import opened QpRows
  import opened QpFeasible
  import Barrier
  import opened Mpc
  import opened PredictiveFill
  import StaticSlots

  /** How far the robot is from a mover's predicted position at a node, beyond the plain
      clearance of robot, mover, margin and growth. */
  function Gap(g: Config, root: real -> real, f: Fill, t: Track, x: seq<Vec>, node: nat, age: real, shift: Point): real
    requires ValidConfig(g) && g.dims.obstacles && IsMat(x, g.dims.np + 1, g.dims.n) && node < g.dims.np
    requires ValidFill(f) && ValidTrack(t) && age >= 0.0
  {
    AheadNonneg(f, node, age);
    var time := (node + 1) as real * f.dt + age;
    var p := Predict(t, time);
    root(Norm2(x[node + 1][g.px] - (p.x + shift.x), x[node + 1][g.py] - (p.y + shift.y))) - (f.robot + t.radius + f.margin + Mul(f.growth, time))
  }

  /** Moving and growing a disc by the same length never makes a point look clearer of it. */
  lemma ShadowKeepsGap(root: real -> real, o: Disc, ux: real, uy: real, s: real, x: real, y: real)
    requires IsRoot(root) && ux * ux + uy * uy == 1.0 && s >= 0.0
    ensures var w := Shadowed(o, ux, uy, s);
            root(Norm2(x - o.x, y - o.y)) - o.clearance >= root(Norm2(x - w.x, y - w.y)) - w.clearance
  {
    hide Mul, Norm2;
    var vx, vy := x - o.x, y - o.y;
    var w := Shadowed(o, ux, uy, s);
    NormNonneg(vx, vy);
    NormNonneg(x - w.x, y - w.y);
    var a, b := root(Norm2(vx, vy)), root(Norm2(x - w.x, y - w.y));
    Rooted(root, Norm2(vx, vy));
    Rooted(root, Norm2(x - w.x, y - w.y));
    ProjectionBounded(ux, uy, vx, vy, a);
    Shifted(vx, vy, ux, uy, s);
    assert x - w.x == vx - Mul(s, ux) && y - w.y == vy - Mul(s, uy);
    Grown(a, s);
    Slides(s, Mul(ux, vx) + Mul(uy, vy), a);
    assert Mul(b, b) <= Mul(a + s, a + s);
    Smaller(b, a + s);
  }

  lemma Rooted(root: real -> real, v: real)
    requires IsRoot(root) && v >= 0.0
    ensures root(v) >= 0.0 && Mul(root(v), root(v)) == v
  {
  }

  lemma Smaller(b: real, r: real)
    requires r >= 0.0 && Mul(b, b) <= Mul(r, r)
    ensures b <= r
  {
    SquareOrder(b, r);
  }

  /** The gap in the fill's own terms. */
  lemma GapIs(g: Config, root: real -> real, f: Fill, t: Track, x: seq<Vec>, node: nat, age: real, shift: Point)
    requires ValidConfig(g) && g.dims.obstacles && IsMat(x, g.dims.np + 1, g.dims.n) && node < g.dims.np
    requires ValidFill(f) && ValidTrack(t) && age >= 0.0
    ensures Ahead(f, node, age) >= 0.0
    ensures var time := Ahead(f, node, age); var p := Predict(t, time);
            Gap(g, root, f, t, x, node, age, shift) == root(Norm2(x[node + 1][g.px] - (p.x + shift.x), x[node + 1][g.py] - (p.y + shift.y))) - Clearance(f, t, time)
  {
    hide Norm2, Mul, Predict;
    AheadNonneg(f, node, age);
  }

  /** The clearance from a mover's disc never exceeds the gap to the mover. */
  lemma DiscWithinGap(g: Config, root: real -> real, f: Fill, t: Track, x: seq<Vec>, obs: seq<Disc>, node: nat, slot: nat, age: real, shift: Point)
    requires ValidConfig(g) && g.dims.obstacles && IsMat(x, g.dims.np + 1, g.dims.n) && |obs| == Slacks(g.dims) && node < g.dims.np && slot < g.dims.k
    requires ValidFill(f) && ValidTrack(t) && age >= 0.0 && IsRoot(root)
    requires DiscAt(g.dims, obs, node, slot) == MoverDisc(f, root, t, node, age, shift)
    ensures Gap(g, root, f, t, x, node, age, shift) >= Barrier.Clearance(g, root, x, obs, node, slot)
  {
    hide Norm2, Mul, Times, Predict, Ahead, Gap, Clearance;
    GapIs(g, root, f, t, x, node, age, shift);
    var time := Ahead(f, node, age);
    var p := Predict(t, time);
    var o := Disc(p.x + shift.x, p.y + shift.y, Clearance(f, t, time));
    NormNonneg(t.vx, t.vy);
    var speed := root(Norm2(t.vx, t.vy));
    if f.shadow > 0.0 && speed > MIN_SHADOW_SPEED {
      Rooted(root, Norm2(t.vx, t.vy));
      SpeedUnit(t.vx, t.vy, speed);
      PositiveProduct(f.shadow, speed);
      ShadowKeepsGap(root, o, t.vx / speed, t.vy / speed, Mul(f.shadow, speed), x[node + 1][g.px], x[node + 1][g.py]);
    }
  }

  lemma SpeedUnit(vx: real, vy: real, speed: real)
    requires speed > 0.0 && Mul(speed, speed) == Norm2(vx, vy)
    ensures (vx / speed) * (vx / speed) + (vy / speed) * (vy / speed) == 1.0
  {
    UnitNormal(vx, vy, speed);
  }

  /** The rows of a mover's slot hold its discs at every node. */
  ghost predicate InSlot(s: Dims, obs: seq<Disc>, f: Fill, root: real -> real, t: Track, slot: nat, age: real, shift: seq<Point>)
    requires ValidDims(s) && s.obstacles && |obs| == Slacks(s) && slot < s.k && |shift| == s.np && ValidFill(f) && ValidTrack(t) && age >= 0.0
  {
    forall node: nat :: node < s.np ==> DiscAt(s, obs, node, slot) == MoverDisc(f, root, t, node, age, shift[node])
  }

  /** How far a guarded trajectory stays from a mover in a slot: at every node up to which the
      slot is separated, the gap is at least (1 - gamma)^(k+1) of the clearance now, less the
      discounted slacks. */
  lemma GuardedKeepsGap(g: Config, root: real -> real, f: Fill, t: Track, obs: seq<Disc>, about: seq<Vec>, it: Iterate, slot: nat, age: real, shift: seq<Point>, node: nat)
    requires ValidConfig(g) && g.dims.obstacles && Fits(g.dims, it) && IsMat(about, g.dims.np + 1, g.dims.n) && |obs| == Slacks(g.dims)
    requires slot < g.dims.k && node < g.dims.np && |shift| == g.dims.np && ValidFill(f) && ValidTrack(t) && age >= 0.0 && IsRoot(root)
    requires InSlot(g.dims, obs, f, root, t, slot, age, shift) && Guarded(g, root, obs, about, it) && Barrier.Separated(g, root, about, obs, node, slot)
    ensures var q := 1.0 - g.gamma;
            Gap(g, root, f, t, it.x, node, age, shift[node])
            >= Mul(Barrier.Power(q, node + 1), Barrier.ClearanceNow(g, root, it.x, obs, slot)) - Barrier.Discounted(g.dims, it.w, slot, q, node, node + 1)
  {
    hide Mul, Times, MoverDisc, Gap, Barrier.Power, Barrier.Discounted, Barrier.Clearance, Barrier.ClearanceNow, Barrier.Separated, ValidFill, ValidTrack;
    assert GuardedAt(g, root, obs, it, node, slot);
    DiscWithinGap(g, root, f, t, it.x, obs, node, slot, age, shift[node]);
  }

  lemma {:induction false} PowerNonneg(q: real, k: nat)
    requires q >= 0.0
    ensures Barrier.Power(q, k) >= 0.0 && (q == 0.0 && k > 0 ==> Barrier.Power(q, k) == 0.0)
  {
    if k > 0 {
      PowerNonneg(q, k - 1);
      NonnegProduct(q, Barrier.Power(q, k - 1));
    }
  }

  /** From a start outside the mover's disc the robot keeps at least the plain clearance, less
      the discounted slacks spent on the way. */
  lemma KeepsPlainClearance(g: Config, root: real -> real, f: Fill, t: Track, obs: seq<Disc>, about: seq<Vec>, it: Iterate, slot: nat, age: real, shift: seq<Point>, node: nat)
    requires ValidConfig(g) && g.dims.obstacles && Fits(g.dims, it) && IsMat(about, g.dims.np + 1, g.dims.n) && |obs| == Slacks(g.dims)
    requires slot < g.dims.k && node < g.dims.np && |shift| == g.dims.np && ValidFill(f) && ValidTrack(t) && age >= 0.0 && IsRoot(root)
    requires InSlot(g.dims, obs, f, root, t, slot, age, shift) && Guarded(g, root, obs, about, it) && Barrier.Separated(g, root, about, obs, node, slot)
    requires Barrier.ClearanceNow(g, root, it.x, obs, slot) >= 0.0 || g.gamma == 1.0
    ensures Gap(g, root, f, t, it.x, node, age, shift[node]) >= -Barrier.Discounted(g.dims, it.w, slot, 1.0 - g.gamma, node, node + 1)
  {
    hide Mul, Times, InSlot, Guarded, Gap, Barrier.Power, Barrier.Discounted, Barrier.Clearance, Barrier.ClearanceNow, Barrier.Separated, ValidFill, ValidTrack;
    var q, h := 1.0 - g.gamma, Barrier.ClearanceNow(g, root, it.x, obs, slot);
    GuardedKeepsGap(g, root, f, t, obs, about, it, slot, age, shift, node);
    PowerNonneg(q, node + 1);
    if g.gamma == 1.0 { NoShare(h); } else { NonnegProduct(Barrier.Power(q, node + 1), h); }
  }

  lemma NoShare(h: real)
    ensures Mul(0.0, h) == 0.0
  {
  }

  /** At gamma = 1 the slacks spent on the way are the node's own. */
  lemma {:induction false} OnlyOwnSlack(s: Dims, w: Vec, slot: nat, node: nat, upto: nat)
    requires s.obstacles && |w| == Slacks(s) && slot < s.k && node < s.np && upto <= node + 1
    ensures Barrier.Discounted(s, w, slot, 0.0, node, upto) == if upto == node + 1 then SlackAt(s, w, node, slot) else 0.0
  {
    hide Mul, Times, SlackAt;
    if upto > 0 {
      OnlyOwnSlack(s, w, slot, node, upto - 1);
      PowerNonneg(0.0, node - (upto - 1));
      NoShare(SlackAt(s, w, upto - 1, slot));
      Barrier.Factor(0.0, 0.0, SlackAt(s, w, upto - 1, slot));
    }
  }

  // ----- clutter

  /** No detour is shorter: what is near a point is almost as far from everything. */
  lemma Detour(root: real -> real, ax: real, ay: real, bx: real, bz: real, r: real)
    requires IsRoot(root) && r >= 0.0 && Norm2(bx, bz) <= Mul(r, r)
    ensures root(Norm2(ax + bx, ay + bz)) <= root(Norm2(ax, ay)) + r
  {
    hide Mul;
    NormNonneg(ax, ay);
    NormNonneg(bx, bz);
    NormNonneg(ax + bx, ay + bz);
    var a, c := root(Norm2(ax, ay)), root(Norm2(ax + bx, ay + bz));
    Rooted(root, Norm2(ax, ay));
    Rooted(root, Norm2(ax + bx, ay + bz));
    InnerBound(ax, ay, bx, bz, a, r);
    InnerExpands(ax, ay, bx, bz);
    Grown(a, r);
    NonnegProduct(a, r);
    Swap(a, r);
    Smaller(c, a + r);
  }

  lemma Swap(a: real, r: real)
    ensures Mul(a, r) == Mul(r, a)
  {
  }

  lemma InnerExpands(ax: real, ay: real, bx: real, bz: real)
    ensures Norm2(ax + bx, ay + bz) == Norm2(ax, ay) + 2.0 * (Mul(ax, bx) + Mul(ay, bz)) + Norm2(bx, bz)
  {
  }

  lemma InnerBound(ax: real, ay: real, bx: real, bz: real, a: real, r: real)
    requires a >= 0.0 && r >= 0.0 && Mul(a, a) == Norm2(ax, ay) && Norm2(bx, bz) <= Mul(r, r)
    ensures Mul(ax, bx) + Mul(ay, bz) <= Mul(a, r)
  {
    var u, v := ax * bx + ay * bz, ax * bz - ay * bx;
    assert u * u + v * v == (ax * ax + ay * ay) * (bx * bx + bz * bz) by { Lagrange(ax, ay, bx, bz); }
    assert v * v >= 0.0;
    MonoProduct(a * a, bx * bx + bz * bz, r * r);
    SquareOfProduct(a, r);
    NonnegProduct(a, r);
    SquareOrder(u, a * r);
  }

  /** How far a guarded trajectory stays from a cell its disc stands for: at every node up to
      which the slot is separated, robot and margin less the cluster radius, and the decayed
      clearance less the discounted slacks on top. */
  lemma GuardedKeepsOffWall(g: Config, root: real -> real, f: Fill, w: Ground, obs: seq<Disc>, about: seq<Vec>, it: Iterate, begin: nat, node: nat, p: Point, slot: nat, q: Point)
    requires ValidConfig(g) && g.dims.obstacles && Fits(g.dims, it) && IsMat(about, g.dims.np + 1, g.dims.n) && |obs| == Slacks(g.dims)
    requires node < g.dims.np && |w.shift| == g.dims.np && w.cluster >= 0.0 && IsRoot(root) && KerbedBy(obs, f, w, begin, g.dims.k, node, p, slot, q)
    requires Guarded(g, root, obs, about, it) && Barrier.Separated(g, root, about, obs, node, slot)
    ensures var gap := 1.0 - g.gamma;
            root(Norm2(it.x[node + 1][g.px] - (p.x + w.shift[node].x), it.x[node + 1][g.py] - (p.y + w.shift[node].y)))
            >= f.robot + f.margin - w.cluster + Mul(Barrier.Power(gap, node + 1), Barrier.ClearanceNow(g, root, it.x, obs, slot))
               - Barrier.Discounted(g.dims, it.w, slot, gap, node, node + 1)
  {
    hide Mul, Times, Barrier.Power, Barrier.Discounted, Barrier.ClearanceNow, Barrier.Separated, Norm2;
    assert GuardedAt(g, root, obs, it, node, slot);
    assert DiscAt(g.dims, obs, node, slot) == Disc(q.x + w.shift[node].x, q.y + w.shift[node].y, f.robot + f.margin);
    var ax, ay := it.x[node + 1][g.px] - (p.x + w.shift[node].x), it.x[node + 1][g.py] - (p.y + w.shift[node].y);
    NearBy(p, q, w.cluster);
    Detour(root, ax, ay, p.x - q.x, p.y - q.y, w.cluster);
    assert ax + (p.x - q.x) == it.x[node + 1][g.px] - (q.x + w.shift[node].x) && ay + (p.y - q.y) == it.x[node + 1][g.py] - (q.y + w.shift[node].y);
  }

  lemma NearBy(p: Point, q: Point, r: real)
    requires r >= 0.0 && (q == p || Dist2(p, q) < Square(r))
    ensures Norm2(p.x - q.x, p.y - q.y) <= Mul(r, r)
  {
    NonnegProduct(r, r);
  }
}
