/** What feasibility of the assembled program means for the updated trajectory. */
module QpFeasible {
  import opened Linear
  import opened QpLayout
  import opened QpRows

  /** An upper bound; the obstacle rows have none. */
  datatype Upper = Finite(v: real) | Unbounded

  /** One iterate: states at all nodes, control blocks and slacks. */
  datatype Iterate = Iterate(x: seq<Vec>, u: seq<Vec>, w: Vec)

  predicate Fits(s: Dims, it: Iterate) {
    IsMat(it.x, s.np + 1, s.n) && IsMat(it.u, s.nc, s.m) && |it.w| == Slacks(s)
  }

  /** The slack of a slot at a node. */
  function SlackAt(s: Dims, w: Vec, node: nat, slot: nat): real
    requires s.obstacles && |w| == Slacks(s) && node < s.np && slot < s.k
  {
    TableCell(node, s.np, s.k, slot);
    w[Times(node, s.k) + slot]
  }

  // ----- bounds as the filler writes them

  function LowOf(g: Config, keep: Keep, it: Iterate, applied: Vec, r: Row): real
    requires ValidConfig(g) && ValidRow(g.dims, r) && Fits(g.dims, it) && |applied| == g.dims.m
  {
    match r
    case FirstRate(j) => var b := g.bounds.du[j]; Mul(b.low, g.dt) + applied[b.idx] - it.u[0][b.idx]
    case StateBox(j, node) => var b := g.bounds.x[j]; b.low - it.x[node][b.idx]
    case ControlBox(j, block) => var b := g.bounds.u[j]; b.low - it.u[block][b.idx]
    case RateChain(j, block) => var b := g.bounds.du[j]; Mul(b.low, g.dt) - it.u[block + 1][b.idx] + it.u[block][b.idx]
    case KeepOut(node, slot) => Mul(1.0 - g.gamma, keep.hPrev) - keep.h - SlackAt(g.dims, it.w, node, slot)
    case SlackSign(node, slot) => -SlackAt(g.dims, it.w, node, slot)
  }

  function UppOf(g: Config, it: Iterate, applied: Vec, r: Row): Upper
    requires ValidConfig(g) && ValidRow(g.dims, r) && Fits(g.dims, it) && |applied| == g.dims.m
  {
    match r
    case FirstRate(j) => var b := g.bounds.du[j]; Finite(Mul(b.upp, g.dt) + applied[b.idx] - it.u[0][b.idx])
    case StateBox(j, node) => var b := g.bounds.x[j]; Finite(b.upp - it.x[node][b.idx])
    case ControlBox(j, block) => var b := g.bounds.u[j]; Finite(b.upp - it.u[block][b.idx])
    case RateChain(j, block) => var b := g.bounds.du[j]; Finite(Mul(b.upp, g.dt) - it.u[block + 1][b.idx] + it.u[block][b.idx])
    case KeepOut(node, slot) => Unbounded
    case SlackSign(node, slot) => Unbounded
  }

  /** The contract of a solved program, one row at a time. */
  predicate Within(low: real, v: real, upp: Upper) {
    low <= v && (upp.Finite? ==> v <= upp.v)
  }

  // ----- the update x + dx, u + du, w + dw

  function StateStep(s: Dims, d: Vec, node: nat): (v: Vec)
    requires ValidDims(s) && |d| == Vars(s) && node < s.np + 1
    ensures |v| == s.n && forall i {:trigger v[i]} :: 0 <= i < s.n ==> XCol(s, node, i) < |d| && v[i] == d[XCol(s, node, i)]
  {
    ColumnsFit(s);
    seq(s.n, i requires 0 <= i < s.n => var c := XCol(s, node, i); d[c])
  }

  function ControlStep(s: Dims, d: Vec, block: nat): (v: Vec)
    requires ValidDims(s) && |d| == Vars(s) && block < s.nc
    ensures |v| == s.m && forall i {:trigger v[i]} :: 0 <= i < s.m ==> UCol(s, block, i) < |d| && v[i] == d[UCol(s, block, i)]
  {
    ColumnsFit(s);
    seq(s.m, i requires 0 <= i < s.m => var c := UCol(s, block, i); d[c])
  }

  lemma StepSlices(s: Dims, d: Vec, node: nat, block: nat)
    requires ValidDims(s) && |d| == Vars(s) && node < s.np + 1 && block < s.nc
    ensures XCol(s, node, 0) + s.n <= |d| && UCol(s, block, 0) + s.m <= |d|
    ensures StateStep(s, d, node) == d[XCol(s, node, 0)..XCol(s, node, 0) + s.n]
    ensures ControlStep(s, d, block) == d[UCol(s, block, 0)..UCol(s, block, 0) + s.m]
  {
    hide Times;
    ColumnsFit(s);
    TableCell(node, s.np + 1, s.n, 0);
    TableCell(block, s.nc, s.m, 0);
  }

  function Step(s: Dims, it: Iterate, d: Vec): (r: Iterate)
    requires ValidDims(s) && Fits(s, it) && |d| == Vars(s)
    ensures Fits(s, r)
    ensures forall node {:trigger r.x[node]} :: 0 <= node < s.np + 1 ==> r.x[node] == VAdd(it.x[node], StateStep(s, d, node))
    ensures forall block {:trigger r.u[block]} :: 0 <= block < s.nc ==> r.u[block] == VAdd(it.u[block], ControlStep(s, d, block))
    ensures r.w == VAdd(it.w, d[WStart(s)..])
  {
    Iterate(seq(s.np + 1, node requires 0 <= node < s.np + 1 => VAdd(it.x[node], StateStep(s, d, node))),
            seq(s.nc, block requires 0 <= block < s.nc => VAdd(it.u[block], ControlStep(s, d, block))),
            VAdd(it.w, d[WStart(s)..]))
  }

  lemma SlackStep(s: Dims, it: Iterate, d: Vec, node: nat, slot: nat)
    requires ValidDims(s) && s.obstacles && Fits(s, it) && |d| == Vars(s) && node < s.np && slot < s.k
    ensures WCol(s, node, slot) < |d|
    ensures SlackAt(s, Step(s, it, d).w, node, slot) == SlackAt(s, it.w, node, slot) + d[WCol(s, node, slot)]
  {
    TableCell(node, s.np, s.k, slot);
    assert d[WStart(s)..][Times(node, s.k) + slot] == d[WCol(s, node, slot)];
  }

  // ----- row products

  /** The product of an inequality row of a fresh fill with an increment. */
  function Product(g: Config, keep: Keep, r: Row, d: Vec): real
    requires ValidConfig(g) && ValidRow(g.dims, r) && |d| == Vars(g.dims)
  {
    var s := g.dims;
    ColumnsFit(s);
    match r
    case FirstRate(j) => d[UCol(s, 0, g.bounds.du[j].idx)]
    case StateBox(j, node) => d[XCol(s, node, g.bounds.x[j].idx)]
    case ControlBox(j, block) => d[UCol(s, block, g.bounds.u[j].idx)]
    case RateChain(j, block) => d[UCol(s, block + 1, g.bounds.du[j].idx)] - d[UCol(s, block, g.bounds.du[j].idx)]
    case KeepOut(node, slot) =>
      Mul(keep.half.nx, d[XCol(s, node + 1, g.px)]) + Mul(keep.half.ny, d[XCol(s, node + 1, g.py)]) + d[WCol(s, node, slot)]
      + (if g.gamma < 1.0 && node > 0 then Mul(keep.gx, d[XCol(s, node, g.px)]) + Mul(keep.gy, d[XCol(s, node, g.py)]) else 0.0)
    case SlackSign(node, slot) => d[WCol(s, node, slot)]
  }

  lemma One(x: real)
    ensures Mul(1.0, x) == x && Mul(-1.0, x) == -x
  {
  }

  lemma DistinctColumns(g: Config, node: nat)
    requires ValidConfig(g) && g.dims.obstacles && node < g.dims.np
    ensures XCol(g.dims, node + 1, g.px) != XCol(g.dims, node + 1, g.py) && XCol(g.dims, node, g.px) != XCol(g.dims, node, g.py)
    ensures XCol(g.dims, node, g.px) != XCol(g.dims, node + 1, g.px) && XCol(g.dims, node, g.px) != XCol(g.dims, node + 1, g.py)
    ensures XCol(g.dims, node, g.py) != XCol(g.dims, node + 1, g.px) && XCol(g.dims, node, g.py) != XCol(g.dims, node + 1, g.py)
  {
    hide Times;
    TimesNext(node, g.dims.n);
  }

  lemma ProductMeaning(g: Config, keep: Keep, r: Row, d: Vec)
    requires ValidConfig(g) && ValidRow(g.dims, r) && |d| == Vars(g.dims)
    ensures Value(FillIneq(g, keep, r, Fresh(g.dims)), d) == Product(g, keep, r, d)
  {
    hide Times, XCol, UCol, WCol, UStart, WStart, Vars, Value, Mul;
    var s, z := g.dims, Fresh(g.dims);
    ColumnsFit(s);
    ValueBlank(d);
    match r
    case FirstRate(j) =>
      var c := UCol(s, 0, g.bounds.du[j].idx);
      ValueUpdate(z, c, 1.0, d);
      One(d[c]);
    case StateBox(j, node) =>
      var c := XCol(s, node, g.bounds.x[j].idx);
      ValueUpdate(z, c, 1.0, d);
      One(d[c]);
    case ControlBox(j, block) =>
      var c := UCol(s, block, g.bounds.u[j].idx);
      ValueUpdate(z, c, 1.0, d);
      One(d[c]);
    case RateChain(j, block) => ChainMeaning(g, j, block, d);
    case KeepOut(node, slot) => KeepMeaning(g, keep, node, slot, d);
    case SlackSign(node, slot) =>
      var c := WCol(s, node, slot);
      ValueUpdate(z, c, 1.0, d);
      One(d[c]);
  }

  lemma ChainMeaning(g: Config, j: nat, block: nat, d: Vec)
    requires ValidConfig(g) && ValidRow(g.dims, RateChain(j, block)) && |d| == Vars(g.dims)
    ensures forall keep: Keep :: Value(FillIneq(g, keep, RateChain(j, block), Fresh(g.dims)), d) == Product(g, keep, RateChain(j, block), d)
  {
    var s, z := g.dims, Fresh(g.dims);
    ColumnsFit(s);
    ValueBlank(d);
    var c, e := UCol(s, block, g.bounds.du[j].idx), UCol(s, block + 1, g.bounds.du[j].idx);
    assert c != e by { TimesNext(block, s.m); }
    hide Times, XCol, UCol, WCol, UStart, WStart, Vars, Value, Mul;
    ValueUpdate(z, c, -1.0, d);
    ValueUpdate(z[c := Num(-1.0)], e, 1.0, d);
    One(d[c]);
    One(d[e]);
  }

  lemma KeepMeaning(g: Config, keep: Keep, node: nat, slot: nat, d: Vec)
    requires ValidConfig(g) && ValidRow(g.dims, KeepOut(node, slot)) && |d| == Vars(g.dims)
    ensures Value(FillIneq(g, keep, KeepOut(node, slot), Fresh(g.dims)), d) == Product(g, keep, KeepOut(node, slot), d)
  {
    hide Times, XCol, UCol, WCol, UStart, WStart, Vars, Value, Mul;
    var s := g.dims;
    ColumnsFit(s);
    DistinctColumns(g, node);
    ValueBlank(d);
    var a, b, c := XCol(s, node + 1, g.px), XCol(s, node + 1, g.py), WCol(s, node, slot);
    var r0 := Fresh(s);
    var r1 := r0[a := Num(keep.half.nx)];
    var r2 := r1[b := Num(keep.half.ny)];
    var r3 := r2[c := Num(1.0)];
    ValueUpdate(r0, a, keep.half.nx, d);
    ValueUpdate(r1, b, keep.half.ny, d);
    ValueUpdate(r2, c, 1.0, d);
    One(d[c]);
    if g.gamma < 1.0 && node > 0 {
      var e, f := XCol(s, node, g.px), XCol(s, node, g.py);
      ValueUpdate(r3, e, keep.gx, d);
      ValueUpdate(r3[e := Num(keep.gx)], f, keep.gy, d);
    }
  }

  // ----- what a solved program guarantees

  /** The rate and box constraints of the controller's problem. */
  ghost predicate InsideBounds(g: Config, it: Iterate, applied: Vec)
    requires ValidConfig(g) && Fits(g.dims, it) && |applied| == g.dims.m
  {
    var s, b := g.dims, g.bounds;
    && (forall j, node :: 0 <= j < s.nx && 0 <= node < s.np + 1 ==> b.x[j].low <= it.x[node][b.x[j].idx] <= b.x[j].upp)
    && (forall j, block :: 0 <= j < s.nu && 0 <= block < s.nc ==> b.u[j].low <= it.u[block][b.u[j].idx] <= b.u[j].upp)
    && (forall j :: 0 <= j < s.ndu ==> Mul(b.du[j].low, g.dt) <= it.u[0][b.du[j].idx] - applied[b.du[j].idx] <= Mul(b.du[j].upp, g.dt))
    && (forall j, block :: 0 <= j < s.ndu && 0 <= block < s.nc - 1 ==> RateStep(g, it, j, block))
  }

  /** Every rate bound holds from one control to the next. */
  predicate WithinRates(g: Config, u: Vec, was: Vec)
    requires ValidConfig(g) && |u| == g.dims.m && |was| == g.dims.m
  {
    var b := g.bounds;
    forall j :: 0 <= j < g.dims.ndu ==> Mul(b.du[j].low, g.dt) <= u[b.du[j].idx] - was[b.du[j].idx] <= Mul(b.du[j].upp, g.dt)
  }

  predicate RateStep(g: Config, it: Iterate, j: nat, block: nat)
    requires ValidConfig(g) && Fits(g.dims, it) && j < g.dims.ndu && block + 1 < g.dims.nc
  {
    var b := g.bounds.du[j];
    Mul(b.low, g.dt) <= it.u[block + 1][b.idx] - it.u[block][b.idx] <= Mul(b.upp, g.dt)
  }

  ghost predicate RowHolds(g: Config, root: real -> real, obs: seq<Disc>, it: Iterate, applied: Vec, d: Vec, r: Row)
    requires ValidConfig(g) && ValidRow(g.dims, r) && Fits(g.dims, it) && |applied| == g.dims.m && |d| == Vars(g.dims)
    requires |obs| == Slacks(g.dims)
  {
    var keep := KeepOf(g, root, obs, it, r);
    Within(LowOf(g, keep, it, applied, r), Product(g, keep, r, d), UppOf(g, it, applied, r))
  }

  /** The keep-out data of a row, a dummy for rows that carry none. */
  function KeepOf(g: Config, root: real -> real, obs: seq<Disc>, it: Iterate, r: Row): Keep
    requires ValidConfig(g) && ValidRow(g.dims, r) && Fits(g.dims, it) && |obs| == Slacks(g.dims)
  {
    match r
    case KeepOut(node, slot) => KeepAt(g, root, it.x, obs, node, slot)
    case _ => Keep(Half(0.0, 0.0, 0.0, 0.0), 0.0, 0.0, 0.0, 0.0)
  }

  /** The inequality half of a solved program. */
  ghost predicate IneqHold(g: Config, root: real -> real, obs: seq<Disc>, it: Iterate, applied: Vec, d: Vec)
    requires ValidConfig(g) && Fits(g.dims, it) && |applied| == g.dims.m && |d| == Vars(g.dims) && |obs| == Slacks(g.dims)
  {
    forall r: Row :: ValidRow(g.dims, r) ==> RowHolds(g, root, obs, it, applied, d, r)
  }

  lemma SolvedState(g: Config, root: real -> real, obs: seq<Disc>, it: Iterate, applied: Vec, d: Vec, j: nat, node: nat)
    requires ValidConfig(g) && Fits(g.dims, it) && |applied| == g.dims.m && |d| == Vars(g.dims) && |obs| == Slacks(g.dims)
    requires j < g.dims.nx && node < g.dims.np + 1 && RowHolds(g, root, obs, it, applied, d, StateBox(j, node))
    ensures g.bounds.x[j].low <= Step(g.dims, it, d).x[node][g.bounds.x[j].idx] <= g.bounds.x[j].upp
  {
    hide Mul, KeepOf, Times, UStart, WStart, Vars, XCol;
    ColumnsFit(g.dims);
    assert Step(g.dims, it, d).x[node] == VAdd(it.x[node], StateStep(g.dims, d, node));
  }

  lemma SolvedControl(g: Config, root: real -> real, obs: seq<Disc>, it: Iterate, applied: Vec, d: Vec, j: nat, block: nat)
    requires ValidConfig(g) && Fits(g.dims, it) && |applied| == g.dims.m && |d| == Vars(g.dims) && |obs| == Slacks(g.dims)
    requires j < g.dims.nu && block < g.dims.nc && RowHolds(g, root, obs, it, applied, d, ControlBox(j, block))
    ensures g.bounds.u[j].low <= Step(g.dims, it, d).u[block][g.bounds.u[j].idx] <= g.bounds.u[j].upp
  {
    hide Mul, KeepOf, Times, UStart, WStart, Vars, UCol;
    ColumnsFit(g.dims);
    assert Step(g.dims, it, d).u[block] == VAdd(it.u[block], ControlStep(g.dims, d, block));
  }

  lemma SolvedFirstRate(g: Config, root: real -> real, obs: seq<Disc>, it: Iterate, applied: Vec, d: Vec, j: nat)
    requires ValidConfig(g) && Fits(g.dims, it) && |applied| == g.dims.m && |d| == Vars(g.dims) && |obs| == Slacks(g.dims)
    requires j < g.dims.ndu && RowHolds(g, root, obs, it, applied, d, FirstRate(j))
    ensures var b := g.bounds.du[j];
            Mul(b.low, g.dt) <= Step(g.dims, it, d).u[0][b.idx] - applied[b.idx] <= Mul(b.upp, g.dt)
  {
    hide Mul, KeepOf, Times, UStart, WStart, Vars, UCol;
    ColumnsFit(g.dims);
    assert Step(g.dims, it, d).u[0] == VAdd(it.u[0], ControlStep(g.dims, d, 0));
  }

  lemma SolvedChain(g: Config, root: real -> real, obs: seq<Disc>, it: Iterate, applied: Vec, d: Vec, j: nat, block: nat)
    requires ValidConfig(g) && Fits(g.dims, it) && |applied| == g.dims.m && |d| == Vars(g.dims) && |obs| == Slacks(g.dims)
    requires j < g.dims.ndu && block + 1 < g.dims.nc && RowHolds(g, root, obs, it, applied, d, RateChain(j, block))
    ensures RateStep(g, Step(g.dims, it, d), j, block)
  {
    hide Mul, KeepOf, Times, UStart, WStart, Vars, UCol;
    ColumnsFit(g.dims);
    var t := Step(g.dims, it, d);
    assert t.u[block] == VAdd(it.u[block], ControlStep(g.dims, d, block));
    assert t.u[block + 1] == VAdd(it.u[block + 1], ControlStep(g.dims, d, block + 1));
  }

  /** Whatever the iterate it started from, the update of a solved program satisfies
      every state box, every control box, the first-control rate bound about the control
      last applied, and every rate bound along the control horizon. */
  lemma SolvedInsideBounds(g: Config, root: real -> real, obs: seq<Disc>, it: Iterate, applied: Vec, d: Vec)
    requires ValidConfig(g) && Fits(g.dims, it) && |applied| == g.dims.m && |d| == Vars(g.dims) && |obs| == Slacks(g.dims)
    requires IneqHold(g, root, obs, it, applied, d)
    ensures InsideBounds(g, Step(g.dims, it, d), applied)
  {
    hide Mul, KeepOf, Times, UStart, WStart, Vars, Step, RateStep;
    var s, b, t := g.dims, g.bounds, Step(g.dims, it, d);
    forall j, node | 0 <= j < s.nx && 0 <= node < s.np + 1 ensures b.x[j].low <= t.x[node][b.x[j].idx] <= b.x[j].upp {
      SolvedState(g, root, obs, it, applied, d, j, node);
    }
    forall j, block | 0 <= j < s.nu && 0 <= block < s.nc ensures b.u[j].low <= t.u[block][b.u[j].idx] <= b.u[j].upp {
      SolvedControl(g, root, obs, it, applied, d, j, block);
    }
    forall j | 0 <= j < s.ndu ensures Mul(b.du[j].low, g.dt) <= t.u[0][b.du[j].idx] - applied[b.du[j].idx] <= Mul(b.du[j].upp, g.dt) {
      SolvedFirstRate(g, root, obs, it, applied, d, j);
    }
    forall j, block | 0 <= j < s.ndu && 0 <= block < s.nc - 1 ensures RateStep(g, t, j, block) {
      SolvedChain(g, root, obs, it, applied, d, j, block);
    }
  }

  /** Every slack of a solved program is nonnegative. */
  lemma SolvedSlackSign(g: Config, root: real -> real, obs: seq<Disc>, it: Iterate, applied: Vec, d: Vec, node: nat, slot: nat)
    requires ValidConfig(g) && Fits(g.dims, it) && |applied| == g.dims.m && |d| == Vars(g.dims) && |obs| == Slacks(g.dims)
    requires IneqHold(g, root, obs, it, applied, d) && g.dims.obstacles && node < g.dims.np && slot < g.dims.k
    ensures SlackAt(g.dims, Step(g.dims, it, d).w, node, slot) >= 0.0
  {
    assert RowHolds(g, root, obs, it, applied, d, SlackSign(node, slot));
    SlackStep(g.dims, it, d, node, slot);
  }

  // ----- equalities

  /** The model's linearisation: state and control Jacobians and the defect of a step. */
  datatype Dynamics = Dynamics(a: (Vec, Vec, real) -> Mat, b: (Vec, Vec) -> Mat, c: (Vec, Vec, Vec, real) -> Vec)

  ghost predicate ValidDynamics(s: Dims, dyn: Dynamics) {
    && (forall x: Vec, u: Vec, dt: real :: |x| == s.n && |u| == s.m ==> IsMat(dyn.a(x, u, dt), s.n, s.n))
    && (forall x: Vec, u: Vec :: |x| == s.n && |u| == s.m ==> IsMat(dyn.b(x, u), s.n, s.m))
    && (forall x: Vec, u: Vec, y: Vec, dt: real :: |x| == s.n && |u| == s.m && |y| == s.n ==> |dyn.c(x, u, y, dt)| == s.n)
  }

  /** The equality rows against an increment. */
  function EqProduct(g: Config, dyn: Dynamics, it: Iterate, d: Vec, r: EqRow): real
    requires ValidConfig(g) && ValidEqRow(g.dims, r) && Fits(g.dims, it) && |d| == Vars(g.dims)
    requires r.Dyn? ==> IsMat(dyn.a(it.x[r.node], it.u[HeldBlock(g.dims, r.node)], g.dt), g.dims.n, g.dims.n)
    requires r.Dyn? ==> IsMat(dyn.b(it.x[r.node], it.u[HeldBlock(g.dims, r.node)]), g.dims.n, g.dims.m)
  {
    match r
    case Pin(i) => StateStep(g.dims, d, 0)[i]
    case Dyn(node, i) =>
      var x, u := it.x[node], it.u[HeldBlock(g.dims, node)];
      Dot(dyn.a(x, u, g.dt)[i], StateStep(g.dims, d, node)) - StateStep(g.dims, d, node + 1)[i]
      + Mul(g.dt, Dot(dyn.b(x, u)[i], ControlStep(g.dims, d, HeldBlock(g.dims, node))))
  }

  function EqTarget(g: Config, dyn: Dynamics, it: Iterate, r: EqRow): real
    requires ValidConfig(g) && ValidEqRow(g.dims, r) && Fits(g.dims, it)
    requires r.Dyn? ==> |dyn.c(it.x[r.node], it.u[HeldBlock(g.dims, r.node)], it.x[r.node + 1], g.dt)| == g.dims.n
  {
    match r
    case Pin(i) => 0.0
    case Dyn(node, i) => -dyn.c(it.x[node], it.u[HeldBlock(g.dims, node)], it.x[node + 1], g.dt)[i]
  }

  lemma EqMeaning(g: Config, dyn: Dynamics, it: Iterate, d: Vec, r: EqRow)
    requires ValidConfig(g) && ValidEqRow(g.dims, r) && Fits(g.dims, it) && |d| == Vars(g.dims) && ValidDynamics(g.dims, dyn)
    ensures var node := if r.Dyn? then r.node else 0;
            var x, u := it.x[node], it.u[HeldBlock(g.dims, node)];
            Value(FillEq(g.dims, g.dt, dyn.a(x, u, g.dt), dyn.b(x, u), r, Fresh(g.dims)), d) == EqProduct(g, dyn, it, d, r)
  {
    hide Value, Mul, Dot, Times, FillEq, UStart, WStart, Vars, XCol, UCol;
    var s := g.dims;
    ColumnsFit(s);
    var node := if r.Dyn? then r.node else 0;
    var h := HeldBlock(s, node);
    var x, u := it.x[node], it.u[h];
    var a, b := dyn.a(x, u, g.dt), dyn.b(x, u);
    assert IsMat(a, s.n, s.n) && IsMat(b, s.n, s.m);
    match r
    case Pin(i) => PinProduct(s, g.dt, a, b, d, i);
    case Dyn(k, i) => DynProduct(s, g.dt, a, b, d, k, i);
  }

  lemma PinProduct(s: Dims, dt: real, a: Mat, b: Mat, d: Vec, i: nat)
    requires ValidDims(s) && |d| == Vars(s) && i < s.n
    ensures Value(FillEq(s, dt, a, b, Pin(i), Fresh(s)), d) == StateStep(s, d, 0)[i]
  {
    hide Value, Mul, Dot, Times, FillEq, UStart, WStart, Vars, XCol, UCol;
    PinMeaning(s, dt, a, b, i, d);
    ColumnsFit(s);
    assert StateStep(s, d, 0)[i] == d[XCol(s, 0, i)];
  }

  lemma DynProduct(s: Dims, dt: real, a: Mat, b: Mat, d: Vec, k: nat, i: nat)
    requires ValidDims(s) && |d| == Vars(s) && k < s.np && i < s.n && IsMat(a, s.n, s.n) && IsMat(b, s.n, s.m)
    ensures Value(FillEq(s, dt, a, b, Dyn(k, i), Fresh(s)), d)
         == Dot(a[i], StateStep(s, d, k)) - StateStep(s, d, k + 1)[i] + Mul(dt, Dot(b[i], ControlStep(s, d, HeldBlock(s, k))))
  {
    hide Value, Mul, Dot, Times, FillEq, UStart, WStart, Vars, XCol, UCol;
    DynMeaning(s, dt, a, b, k, i, d);
    StepSlices(s, d, k, HeldBlock(s, k));
    ColumnsFit(s);
    assert StateStep(s, d, k + 1)[i] == d[XCol(s, k + 1, i)];
  }

  /** The equality half of a solved program. */
  ghost predicate EqHold(g: Config, dyn: Dynamics, it: Iterate, d: Vec)
    requires ValidConfig(g) && Fits(g.dims, it) && |d| == Vars(g.dims) && ValidDynamics(g.dims, dyn)
  {
    forall r: EqRow {:trigger ValidEqRow(g.dims, r)} :: ValidEqRow(g.dims, r) ==> EqProduct(g, dyn, it, d, r) == EqTarget(g, dyn, it, r)
  }

  /** A solved program does not move the first state. */
  lemma SolvedPinned(g: Config, dyn: Dynamics, it: Iterate, d: Vec)
    requires ValidConfig(g) && Fits(g.dims, it) && |d| == Vars(g.dims) && ValidDynamics(g.dims, dyn) && EqHold(g, dyn, it, d)
    ensures Step(g.dims, it, d).x[0] == it.x[0]
  {
    var v := StateStep(g.dims, d, 0);
    forall i | 0 <= i < g.dims.n ensures v[i] == 0.0 {
      assert ValidEqRow(g.dims, Pin(i));
    }
  }

  /** The defect is that of an affine one-step map with exactly these Jacobians. */
  ghost predicate AffineStep(s: Dims, dyn: Dynamics, dt: real, f: (Vec, Vec) -> Vec) {
    && (forall x: Vec, u: Vec :: |x| == s.n && |u| == s.m ==> |f(x, u)| == s.n)
    && (forall x: Vec, u: Vec, y: Vec {:trigger dyn.c(x, u, y, dt)} :: |x| == s.n && |u| == s.m && |y| == s.n ==> dyn.c(x, u, y, dt) == VSub(f(x, u), y))
    && (forall x: Vec, u: Vec, dx: Vec, du: Vec {:trigger f(VAdd(x, dx), VAdd(u, du))} ::
          |x| == s.n && |dx| == s.n && |u| == s.m && |du| == s.m ==>
            && IsMat(dyn.a(x, u, dt), s.n, s.n) && IsMat(dyn.b(x, u), s.n, s.m)
            && f(VAdd(x, dx), VAdd(u, du)) == VAdd(f(x, u), VAdd(MatVec(dyn.a(x, u, dt), dx), VScale(dt, MatVec(dyn.b(x, u), du)))))
  }

  /** For a model whose step is affine, one solved program gives a trajectory that obeys
      the step exactly at every node, with the last control held past the control
      horizon. */
  lemma SolvedDynamics(g: Config, dyn: Dynamics, it: Iterate, d: Vec, f: (Vec, Vec) -> Vec, node: nat)
    requires ValidConfig(g) && Fits(g.dims, it) && |d| == Vars(g.dims) && ValidDynamics(g.dims, dyn) && EqHold(g, dyn, it, d)
    requires AffineStep(g.dims, dyn, g.dt, f) && node < g.dims.np
    ensures var t := Step(g.dims, it, d);
            t.x[node + 1] == f(t.x[node], t.u[HeldBlock(g.dims, node)])
  {
    hide Dot, Times, Mul, ValidDynamics, UStart, WStart, Vars, XCol, UCol;
    var s, h, t := g.dims, HeldBlock(g.dims, node), Step(g.dims, it, d);
    var x, u, y := it.x[node], it.u[h], it.x[node + 1];
    var dx, du, dy := StateStep(s, d, node), ControlStep(s, d, h), StateStep(s, d, node + 1);
    assert t.x[node] == VAdd(x, dx) && t.u[h] == VAdd(u, du) && t.x[node + 1] == VAdd(y, dy);
    var a, b := dyn.a(x, u, g.dt), dyn.b(x, u);
    var next := f(VAdd(x, dx), VAdd(u, du));
    assert IsMat(a, s.n, s.n) && IsMat(b, s.n, s.m) && next == VAdd(f(x, u), VAdd(MatVec(a, dx), VScale(g.dt, MatVec(b, du))));
    assert dyn.c(x, u, y, g.dt) == VSub(f(x, u), y);
    forall i | 0 <= i < s.n ensures VAdd(y, dy)[i] == next[i] {
      assert ValidEqRow(s, Dyn(node, i));
      assert Dot(a[i], dx) - dy[i] + Mul(g.dt, Dot(b[i], du)) == -VSub(f(x, u), y)[i];
    }
  }
}
