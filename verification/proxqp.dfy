/** The solver object: dense buffers filled in place cycle after cycle, a sparse copy whose
    structure is declared once, and the solve step that hands the program to the solver. */
module ProxQp {
  import opened Linear
  import opened QpLayout
  import opened QpRows
  import opened QpFeasible
  import opened QpFill
  import opened QpCost
  import opened QpAssembly

  /** The quadratic program as the solver receives it. */
  datatype Program = Program(h: Mat, c: Vec, e: Mat, b: Vec, ineq: Mat, low: Vec, upp: seq<Upper>)

  /** What the solver answers: whether it converged, whether the numbers are finite, and
      the increment. */
  datatype Answer = Answer(solved: bool, finite: bool, d: Vec)

  /** The solver, as an arbitrary function of the program and the number of the call, so
      that warm starts may influence it. */
  type Solver = (Program, nat) -> Answer

  predicate Feasible(p: Program, d: Vec) {
    && |p.b| == |p.e| && |p.low| == |p.ineq| && |p.upp| == |p.ineq|
    && IsMat(p.e, |p.e|, |d|) && IsMat(p.ineq, |p.ineq|, |d|)
    && (forall i {:trigger p.b[i]} :: 0 <= i < |p.e| ==> Dot(p.e[i], d) == p.b[i])
    && (forall i {:trigger p.low[i]} :: 0 <= i < |p.ineq| ==> Within(p.low[i], Dot(p.ineq[i], d), p.upp[i]))
  }

  /** A solver keeps its contract when a solved answer is feasible; otherwise the
      increment is anything of the right length. */
  ghost predicate Trusted(solver: Solver, vars: nat) {
    forall p: Program, k: nat {:trigger solver(p, k)} :: |solver(p, k).d| == vars && (solver(p, k).solved ==> Feasible(p, solver(p, k).d))
  }

  // ----- dense and sparse views of the same matrix

  function DenseOf(rows: seq<CellRow>): (m: Mat)
    ensures |m| == |rows| && forall i :: 0 <= i < |rows| ==> m[i] == Reals(rows[i])
  {
    seq(|rows|, i requires 0 <= i < |rows| => Reals(rows[i]))
  }

  /** The matrix a sparse copy stands for. */
  function Expand(sparse: map<(nat, nat), real>, n: nat, w: nat): (m: Mat)
    ensures IsMat(m, n, w)
    ensures forall i: nat, c: nat {:trigger m[i][c]} :: i < n && c < w ==> m[i][c] == if (i, c) in sparse then sparse[(i, c)] else 0.0
  {
    seq(n, i requires 0 <= i < n => seq(w, c requires 0 <= c < w => if (i, c) in sparse then sparse[(i, c)] else 0.0))
  }

  /** A faithful sparse copy expands to the dense matrix. */
  lemma ExpandIsDense(sparse: map<(nat, nat), real>, rows: seq<CellRow>, n: nat, w: nat)
    requires Shaped(rows, n, w) && Represents(sparse, rows)
    ensures Expand(sparse, n, w) == DenseOf(rows)
  {
    forall i | 0 <= i < n ensures Expand(sparse, n, w)[i] == DenseOf(rows)[i] {
      var p, q := Expand(sparse, n, w)[i], DenseOf(rows)[i];
      forall c | 0 <= c < w ensures p[c] == q[c] {
        assert Real(rows[i][c]) == if (i, c) in sparse then sparse[(i, c)] else 0.0;
      }
    }
  }

  // ----- what feasibility of the assembled program means

  ghost predicate Targets(g: Config, dyn: Dynamics, it: Iterate, b: Vec)
    requires ValidConfig(g) && Fits(g.dims, it) && ValidDynamics(g.dims, dyn)
  {
    && |b| == EqRows(g.dims)
    && forall r: EqRow {:trigger ValidEqRow(g.dims, r)} :: ValidEqRow(g.dims, r) ==> EqIndex(g.dims, r) < |b| && b[EqIndex(g.dims, r)] == EqTarget(g, dyn, it, r)
  }

  /** What init() and the cycle fix of a program: everything but the iterate. */
  datatype Problem = Problem(g: Config, root: real -> real, dyn: Dynamics, wt: Weights, obs: seq<Disc>, applied: Vec, goal: Goals)

  ghost predicate ValidProblem(pb: Problem) {
    && ValidConfig(pb.g) && ValidDynamics(pb.g.dims, pb.dyn) && FitWeights(pb.g.dims, pb.wt)
    && |pb.obs| == Slacks(pb.g.dims) && |pb.applied| == pb.g.dims.m && FitGoals(pb.g.dims, pb.goal)
  }

  ghost predicate EqMatrix(g: Config, dyn: Dynamics, it: Iterate, m: Mat)
    requires ValidConfig(g) && DynamicsFit(g, dyn, it)
  {
    && |m| == EqRows(g.dims)
    && forall i {:trigger m[i]} :: 0 <= i < |m| ==> m[i] == Reals(EqRowOf(g, dyn, it, EqRowAt(g.dims, i), Fresh(g.dims)))
  }

  ghost predicate IneqMatrix(g: Config, root: real -> real, obs: seq<Disc>, it: Iterate, m: Mat)
    requires ValidConfig(g) && Fits(g.dims, it) && |obs| == Slacks(g.dims)
  {
    && |m| == IneqRows(g.dims)
    && forall i {:trigger m[i]} :: 0 <= i < |m| ==> m[i] == Reals(IneqRowOf(g, root, obs, it, RowAt(g.dims, i), Fresh(g.dims)))
  }

  /** The program is the one of the problem about an iterate, entry by entry. */
  ghost predicate Poses(pb: Problem, it: Iterate, p: Program)
    requires ValidProblem(pb) && Fits(pb.g.dims, it)
  {
    && DynamicsFit(pb.g, pb.dyn, it)
    && IsHessian(pb.g.dims, pb.wt, p.h) && IsGradient(pb.g.dims, pb.wt, pb.goal, it, p.c)
    && EqMatrix(pb.g, pb.dyn, it, p.e) && Targets(pb.g, pb.dyn, it, p.b)
    && IneqMatrix(pb.g, pb.root, pb.obs, it, p.ineq)
    && Bounded(pb.g, pb.root, pb.obs, it, pb.applied, p.low, p.upp, IneqRows(pb.g.dims))
  }

  /** Every constraint of the problem about an iterate. */
  ghost predicate Meets(pb: Problem, it: Iterate, d: Vec)
    requires ValidProblem(pb) && Fits(pb.g.dims, it) && |d| == Vars(pb.g.dims)
  {
    EqHold(pb.g, pb.dyn, it, d) && IneqHold(pb.g, pb.root, pb.obs, it, pb.applied, d)
  }

  lemma EqRowValue(g: Config, dyn: Dynamics, it: Iterate, m: Mat, d: Vec, i: nat)
    requires ValidConfig(g) && Fits(g.dims, it) && ValidDynamics(g.dims, dyn) && DynamicsFit(g, dyn, it)
    requires EqMatrix(g, dyn, it, m) && |d| == Vars(g.dims) && i < |m|
    ensures |m[i]| == |d| && Dot(m[i], d) == EqProduct(g, dyn, it, d, EqRowAt(g.dims, i))
  {
    hide Times, Vars, FillEq, EqProduct, Dot;
    EqMeaning(g, dyn, it, d, EqRowAt(g.dims, i));
    assert m[i] == Reals(EqRowOf(g, dyn, it, EqRowAt(g.dims, i), Fresh(g.dims)));
  }

  lemma IneqRowValue(g: Config, root: real -> real, obs: seq<Disc>, it: Iterate, m: Mat, d: Vec, i: nat)
    requires ValidConfig(g) && Fits(g.dims, it) && |obs| == Slacks(g.dims) && IneqMatrix(g, root, obs, it, m) && |d| == Vars(g.dims) && i < |m|
    ensures var r := RowAt(g.dims, i); |m[i]| == |d| && Dot(m[i], d) == Product(g, KeepOf(g, root, obs, it, r), r, d)
  {
    hide Times, Vars, FillIneq, KeepOf, Product, Dot, Slacks;
    var r := RowAt(g.dims, i);
    ProductMeaning(g, KeepOf(g, root, obs, it, r), r, d);
    assert m[i] == Reals(IneqRowOf(g, root, obs, it, r, Fresh(g.dims)));
  }

  /** The equality half: meeting the rows of the matrix is meeting the equalities. */
  lemma EqFeasibleIff(g: Config, dyn: Dynamics, it: Iterate, p: Program, d: Vec)
    requires ValidConfig(g) && Fits(g.dims, it) && ValidDynamics(g.dims, dyn) && DynamicsFit(g, dyn, it)
    requires |d| == Vars(g.dims) && EqMatrix(g, dyn, it, p.e) && Targets(g, dyn, it, p.b)
    ensures IsMat(p.e, |p.e|, |d|) && |p.b| == |p.e|
    ensures (forall i {:trigger p.b[i]} :: 0 <= i < |p.e| ==> Dot(p.e[i], d) == p.b[i]) <==> EqHold(g, dyn, it, d)
  {
    hide Times, Vars, EqProduct, Dot, EqTarget, EqRowOf, EqRows;
    forall i {:trigger p.b[i]} | 0 <= i < |p.e|
      ensures |p.e[i]| == |d| && Dot(p.e[i], d) == EqProduct(g, dyn, it, d, EqRowAt(g.dims, i)) && p.b[i] == EqTarget(g, dyn, it, EqRowAt(g.dims, i))
    {
      EqRowValue(g, dyn, it, p.e, d, i);
      assert ValidEqRow(g.dims, EqRowAt(g.dims, i));
    }
    if forall i {:trigger p.b[i]} :: 0 <= i < |p.e| ==> Dot(p.e[i], d) == p.b[i] {
      forall r: EqRow {:trigger ValidEqRow(g.dims, r)} | ValidEqRow(g.dims, r) ensures EqProduct(g, dyn, it, d, r) == EqTarget(g, dyn, it, r) {
        EqRowAtIndex(g.dims, r);
        assert p.b[EqIndex(g.dims, r)] == EqTarget(g, dyn, it, r);
      }
    }
  }

  /** The inequality half. */
  lemma IneqFeasibleIff(g: Config, root: real -> real, obs: seq<Disc>, it: Iterate, applied: Vec, p: Program, d: Vec)
    requires ValidConfig(g) && Fits(g.dims, it) && |obs| == Slacks(g.dims) && |applied| == g.dims.m
    requires |d| == Vars(g.dims) && IneqMatrix(g, root, obs, it, p.ineq)
    requires Bounded(g, root, obs, it, applied, p.low, p.upp, IneqRows(g.dims))
    ensures IsMat(p.ineq, |p.ineq|, |d|) && |p.low| == |p.ineq| && |p.upp| == |p.ineq|
    ensures (forall i {:trigger p.low[i]} :: 0 <= i < |p.ineq| ==> Within(p.low[i], Dot(p.ineq[i], d), p.upp[i])) <==> IneqHold(g, root, obs, it, applied, d)
  {
    hide Times, Vars, Product, Dot, LowOf, UppOf, KeepOf, IneqRowOf, IneqRows, Slacks, Within;
    forall i {:trigger p.low[i]} | 0 <= i < |p.ineq|
      ensures |p.ineq[i]| == |d| && (Within(p.low[i], Dot(p.ineq[i], d), p.upp[i]) <==> RowHolds(g, root, obs, it, applied, d, RowAt(g.dims, i)))
    {
      IneqRowValue(g, root, obs, it, p.ineq, d, i);
      assert p.upp[i] == UppOf(g, it, applied, RowAt(g.dims, i));
    }
    if forall i {:trigger p.low[i]} :: 0 <= i < |p.ineq| ==> Within(p.low[i], Dot(p.ineq[i], d), p.upp[i]) {
      forall r: Row | ValidRow(g.dims, r) ensures RowHolds(g, root, obs, it, applied, d, r) {
        RowAtIndex(g.dims, r);
        assert Within(p.low[RowIndex(g.dims, r)], Dot(p.ineq[RowIndex(g.dims, r)], d), p.upp[RowIndex(g.dims, r)]);
      }
    }
  }

  /** An increment is feasible for the program handed over if and only if it meets every
      constraint of the problem: no constraint is lost in the matrices and none is added. */
  lemma FeasibleIff(pb: Problem, it: Iterate, p: Program, d: Vec)
    requires ValidProblem(pb) && Fits(pb.g.dims, it) && Poses(pb, it, p) && |d| == Vars(pb.g.dims)
    ensures Feasible(p, d) <==> Meets(pb, it, d)
  {
    hide Times, Vars, Slacks, EqHold, IneqHold, Dot, EqMatrix, IneqMatrix, Targets, Bounded, IsHessian, IsGradient, Within, IneqRows, EqRows;
    EqFeasibleIff(pb.g, pb.dyn, it, p, d);
    IneqFeasibleIff(pb.g, pb.root, pb.obs, it, pb.applied, p, d);
  }

  /** Fresh buffers pose the problem. */
  lemma DensePoses(g: Config, root: real -> real, dyn: Dynamics, obs: seq<Disc>, it: Iterate, e: seq<CellRow>, ineq: seq<CellRow>)
    requires ValidConfig(g) && Fits(g.dims, it) && DynamicsFit(g, dyn, it) && |obs| == Slacks(g.dims)
    requires EqFresh(g, dyn, it, e) && IneqFresh(g, root, obs, it, ineq)
    ensures EqMatrix(g, dyn, it, DenseOf(e)) && IneqMatrix(g, root, obs, it, DenseOf(ineq))
  {
    hide Times, Vars, EqRowOf, IneqRowOf, EqRows, IneqRows, Slacks, Reals;
  }

  // ----- increments

  /** The increment vector cut into states, controls and slacks. */
  function Increments(s: Dims, d: Vec): (inc: Iterate)
    requires ValidDims(s) && |d| == Vars(s)
    ensures Fits(s, inc)
  {
    Iterate(seq(s.np + 1, node requires 0 <= node < s.np + 1 => StateStep(s, d, node)),
            seq(s.nc, block requires 0 <= block < s.nc => ControlStep(s, d, block)),
            d[WStart(s)..])
  }

  function AddIterate(s: Dims, it: Iterate, inc: Iterate): (r: Iterate)
    requires Fits(s, it) && Fits(s, inc)
    ensures Fits(s, r)
  {
    Iterate(seq(|it.x|, k requires 0 <= k < |it.x| => VAdd(it.x[k], inc.x[k])),
            seq(|it.u|, k requires 0 <= k < |it.u| => VAdd(it.u[k], inc.u[k])),
            VAdd(it.w, inc.w))
  }

  lemma AddIsStep(s: Dims, it: Iterate, d: Vec)
    requires ValidDims(s) && Fits(s, it) && |d| == Vars(s)
    ensures AddIterate(s, it, Increments(s, d)) == Step(s, it, d)
  {
    hide Times, StateStep, ControlStep, WStart, Vars;
    var p, q := AddIterate(s, it, Increments(s, d)), Step(s, it, d);
    assert p.x == q.x;
    assert p.u == q.u;
  }

  /** The segments of the result, cut in the order of the decision vector. */
  method Cut(s: Dims, d: Vec) returns (inc: Iterate)
    requires ValidDims(s) && |d| == Vars(s)
    ensures inc == Increments(s, d)
  {
    hide Times, UStart, WStart, Vars, XCol, UCol;
    ColumnsFit(s);
    var x, u := [], [];
    for node := 0 to s.np + 1
      invariant |x| == node && forall k :: 0 <= k < node ==> x[k] == StateStep(s, d, k)
    {
      StepSlices(s, d, node, 0);
      x := x + [d[XCol(s, node, 0)..XCol(s, node, 0) + s.n]];
    }
    for block := 0 to s.nc
      invariant |u| == block && forall k :: 0 <= k < block ==> u[k] == ControlStep(s, d, k)
    {
      StepSlices(s, d, 0, block);
      u := u + [d[UCol(s, block, 0)..UCol(s, block, 0) + s.m]];
    }
    inc := Iterate(x, u, d[WStart(s)..]);
    var want := Increments(s, d);
    assert x == want.x && u == want.u;
  }

  function ZeroIterate(s: Dims): (it: Iterate)
    ensures Fits(s, it)
  {
    Iterate(seq(s.np + 1, k => Zeros(s.n)), seq(s.nc, k => Zeros(s.m)), Zeros(Slacks(s)))
  }

  /** The right-hand side of the pinned rows is zero. */
  predicate Pinned(b: Vec, n: nat) { n <= |b| && forall i :: 0 <= i < n ==> b[i] == 0.0 }

  method SetConstant(a: array<CellRow>, w: nat, cell: Cell)
    modifies a
    ensures |a[..]| == a.Length && forall i :: 0 <= i < a.Length ==> a[..][i] == Blank(w, cell)
  {
    forall i | 0 <= i < a.Length { a[i] := Blank(w, cell); }
  }

  method NewBuffer<T(0)>(n: nat, value: T) returns (a: array<T>)
    ensures fresh(a) && a.Length == n && forall i {:trigger a[i]} :: 0 <= i < n ==> a[i] == value
  {
    a := new T[n](i => value);
  }

  /** The zeroed matrices of a new solver. */
  method Matrices(s: Dims) returns (h: array<Vec>, e: array<CellRow>, ineq: array<CellRow>)
    requires s.nc > 0
    ensures fresh(h) && fresh(e) && fresh(ineq) && e != ineq
    ensures h.Length == Vars(s) && forall i {:trigger h[i]} :: 0 <= i < h.Length ==> h[i] == Zeros(Vars(s))
    ensures e.Length == EqRows(s) && forall i {:trigger e[i]} :: 0 <= i < e.Length ==> e[i] == Blank(Vars(s), Num(0.0))
    ensures ineq.Length == IneqRows(s) && forall i {:trigger ineq[i]} :: 0 <= i < ineq.Length ==> ineq[i] == Blank(Vars(s), Num(0.0))
  {
    hide Times, Vars, EqRows, IneqRows;
    h := NewBuffer(Vars(s), Zeros(Vars(s)));
    e := NewBuffer(EqRows(s), Blank(Vars(s), Num(0.0)));
    ineq := NewBuffer(IneqRows(s), Blank(Vars(s), Num(0.0)));
  }

  /** The zeroed vectors of a new solver. */
  method Vectors(s: Dims) returns (c: array<real>, b: array<real>, low: array<real>, upp: array<Upper>, obsH: array<real>, obsHPrev: array<real>)
    requires s.nc > 0
    ensures fresh(c) && fresh(b) && fresh(low) && fresh(upp) && fresh(obsH) && fresh(obsHPrev)
    ensures c != b && c != low && c != obsH && c != obsHPrev && b != low && b != obsH && b != obsHPrev
    ensures low != obsH && low != obsHPrev && obsH != obsHPrev
    ensures c.Length == Vars(s) && b.Length == EqRows(s) && low.Length == IneqRows(s) && upp.Length == IneqRows(s)
    ensures obsH.Length == Slacks(s) && obsHPrev.Length == Slacks(s) && Pinned(b[..], s.n)
  {
    hide Times, Vars, EqRows, IneqRows, Slacks, Pinned;
    b := NewBuffer(EqRows(s), 0.0);
    PinnedFit(s);
    PinnedZero(b[..], s.n);
    c := NewBuffer(Vars(s), 0.0);
    low := NewBuffer(IneqRows(s), 0.0);
    upp := NewBuffer(IneqRows(s), Unbounded);
    obsH := NewBuffer(Slacks(s), 0.0);
    obsHPrev := NewBuffer(Slacks(s), 0.0);
  }

  const PROBE_SENTINEL := 1000000.0

  class ProxQP {
    var g: Config
    const root: real -> real
    const dyn: Dynamics
    const wt: Weights
    const dense: bool
    const idx: seq<nat>
    const h: array<Vec>
    const c: array<real>
    const e: array<CellRow>
    const b: array<real>
    const ineq: array<CellRow>
    const low: array<real>
    const upp: array<Upper>
    const obsH: array<real>
    const obsHPrev: array<real>
    var obs: seq<Disc>
    var eSparse: map<(nat, nat), real>
    var cSparse: map<(nat, nat), real>
    var calls: nat

    /** Sizes and separation of the buffers. */
    ghost predicate Sized()
      reads this
    {
      && ValidConfig(g) && ValidDynamics(g.dims, dyn) && FitWeights(g.dims, wt)
      && |idx| == Blocks(g.dims) && (forall k :: 0 <= k < |idx| ==> idx[k] == BlockStart(g.dims, k))
      && h.Length == Vars(g.dims) && c.Length == Vars(g.dims)
      && e.Length == EqRows(g.dims) && b.Length == EqRows(g.dims)
      && ineq.Length == IneqRows(g.dims) && low.Length == IneqRows(g.dims) && upp.Length == IneqRows(g.dims)
      && obsH.Length == Slacks(g.dims) && obsHPrev.Length == Slacks(g.dims)
      && e != ineq && c != b && c != low && c != obsH && c != obsHPrev && b != low && b != obsH && b != obsHPrev
      && low != obsH && low != obsHPrev && obsH != obsHPrev
    }

    /** What init() establishes and every solve keeps: the Hessian is the one of the
        weights, no dense entry outside the owned ones holds anything but zero, and the
        sparse copies list exactly the owned entries. */
    ghost predicate Valid()
      reads this, h, b, e, ineq
    {
      && Sized()
      && IsHessian(g.dims, wt, h[..])
      && Pinned(b[..], g.dims.n)
      && EqClean(g, e[..]) && IneqClean(g, ineq[..])
      && (!dense ==> EqPattern(g, eSparse.Keys) && IneqPattern(g, cSparse.Keys))
    }

    /** The problem this solver poses about any iterate. */
    ghost function Posing(applied: Vec, goal: Goals): Problem
      reads this
    {
      Problem(g, root, dyn, wt, Seen(), applied, goal)
    }

    /** The discs the assembly looks at. */
    function Seen(): seq<Disc> reads this { if g.dims.obstacles then obs else [] }

    constructor (g: Config, dyn: Dynamics, root: real -> real, wt: Weights, dense: bool)
      requires ValidConfig(g) && ValidDynamics(g.dims, dyn) && FitWeights(g.dims, wt)
      ensures Valid() && this.g == g && this.dyn == dyn && this.root == root && this.wt == wt && this.dense == dense && calls == 0
      ensures fresh(h) && fresh(c) && fresh(e) && fresh(b) && fresh(ineq) && fresh(low) && fresh(upp) && fresh(obsH) && fresh(obsHPrev)
    {
      hide Times, Vars, EqRows, IneqRows, Slacks, Blocks, BlockStart, Valid, Pinned;
      var s := g.dims;
      var index := BuildIneqIdx(s);
      this.g, this.dyn, this.root, this.wt, this.dense := g, dyn, root, wt, dense;
      idx := index;
      var hessian, equalities, inequalities := Matrices(s);
      var gradient, targets, lower, upper, clearance, clearancePrev := Vectors(s);
      h, e, ineq := hessian, equalities, inequalities;
      c, b, low, upp, obsH, obsHPrev := gradient, targets, lower, upper, clearance, clearancePrev;
      obs, eSparse, cSparse, calls := [], map[], map[], 0;
      new;
      Init();
    }

    /** The Hessian is filled once, and the sparse structure declared once. */
    method Init()
      requires Sized() && Pinned(b[..], g.dims.n)
      requires forall i {:trigger h[i]} :: 0 <= i < h.Length ==> h[i] == Zeros(Vars(g.dims))
      requires forall i :: 0 <= i < e.Length ==> e[i] == Blank(Vars(g.dims), Num(0.0))
      requires forall i :: 0 <= i < ineq.Length ==> ineq[i] == Blank(Vars(g.dims), Num(0.0))
      modifies this`eSparse, this`cSparse, this`obs, h, e, ineq, obsH, obsHPrev
      ensures Valid()
    {
      hide Times, Vars, EqRows, IneqRows, Slacks, EqPattern, IneqPattern, Blocks, BlockStart, EqClean, IneqClean, IsHessian, Pinned;
      SetH(h, g.dims, wt);
      BlankClean(g, e[..], ineq[..]);
      if !dense { DeclarePattern(); }
    }

    /** What a solve leaves behind: fresh matrices whatever was solved before, faithful
        sparse copies, and the objective and bounds of this cycle. */
    ghost predicate Assembled(it: Iterate, applied: Vec, goal: Goals)
      requires Sized() && Fits(g.dims, it) && |applied| == g.dims.m && FitGoals(g.dims, goal) && |Seen()| == Slacks(g.dims)
      reads this, c, e, b, ineq, low, upp
    {
      && DynamicsFit(g, dyn, it)
      && IsGradient(g.dims, wt, goal, it, c[..])
      && EqFresh(g, dyn, it, e[..]) && IneqFresh(g, root, Seen(), it, ineq[..])
      && Targets(g, dyn, it, b[..])
      && Bounded(g, root, Seen(), it, applied, low[..], upp[..], IneqRows(g.dims))
      && (!dense ==> Represents(eSparse, e[..]) && Represents(cSparse, ineq[..]))
    }

    /** A bound the model changes between solves, such as the speed limit: the values move,
        the structure does not. */
    method ChangeBounds(bounds: Bounds)
      requires Valid() && SameIndices(g.bounds, bounds)
      modifies this`g
      ensures Valid() && g == old(g).(bounds := bounds)
    {
      hide Times, Vars, EqRows, IneqRows, Slacks, Blocks, BlockStart, IsHessian, EqClean, EqPattern, Pinned, IneqPattern, IneqClean;
      ghost var was := g;
      g := g.(bounds := bounds);
      OwnershipKept(was, g, ineq[..]);
      EqKept(was, g, e[..]);
      if !dense {
        PatternKept(was, g, eSparse.Keys, cSparse.Keys);
      }
    }

    method SetObs(discs: seq<Disc>)
      requires Valid()
      modifies this`obs
      ensures Valid() && obs == discs
    {
      obs := discs;
    }

    /** Fill both matrices over markers and keep the positions that turned into numbers. */
    method Probe(probe: Iterate)
      requires Sized() && Fits(g.dims, probe) && |Seen()| == Slacks(g.dims)
      modifies this`eSparse, this`cSparse, e, ineq, obsH, obsHPrev
      ensures EqPattern(g, eSparse.Keys) && IneqPattern(g, cSparse.Keys)
    {
      hide Times, Vars, EqRows, IneqRows, Slacks, EqFilled, IneqFilled, Cached, EqPattern, IneqPattern, Blocks, BlockStart;
      DynamicsFitAll(g, dyn, probe);
      SetConstant(e, Vars(g.dims), NaN);
      SetConstant(ineq, Vars(g.dims), NaN);
      ghost var wasE, wasC := e[..], ineq[..];
      SetE(e, g, dyn, probe);
      SetC(ineq, obsH, obsHPrev, g, root, Seen(), probe, idx);
      FilledShape(g, dyn, probe, wasE, e[..]);
      IneqFilledShape(g, root, Seen(), probe, wasC, ineq[..]);
      eSparse := WrittenPattern(e, Vars(g.dims));
      cSparse := WrittenPattern(ineq, Vars(g.dims));
      EqProbe(g, dyn, probe, wasE, e[..], eSparse.Keys);
      IneqProbe(g, root, Seen(), probe, wasC, ineq[..], cSparse.Keys);
    }

    /** Declare the structure of the sparse copies: fill both matrices over markers once,
        with far discs when none of the right shape are set, and keep the positions that
        turned into numbers. The matrices end at zero and the discs as they were. */
    method DeclarePattern()
      requires Sized()
      modifies this`eSparse, this`cSparse, this`obs, e, ineq, obsH, obsHPrev
      ensures obs == old(obs)
      ensures EqPattern(g, eSparse.Keys) && IneqPattern(g, cSparse.Keys)
      ensures EqClean(g, e[..]) && IneqClean(g, ineq[..])
    {
      hide Times, Vars, EqRows, IneqRows, Slacks, EqPattern, IneqPattern, Blocks, BlockStart, EqClean, IneqClean;
      var s, probe := g.dims, ZeroIterate(g.dims);
      var saved := obs;
      if s.obstacles && |obs| != Slacks(s) {
        obs := seq(Slacks(s), k => Disc(PROBE_SENTINEL, PROBE_SENTINEL, PROBE_SENTINEL));
      }
      NoSlacks(s);
      Probe(probe);
      SetConstant(e, Vars(s), Num(0.0));
      SetConstant(ineq, Vars(s), Num(0.0));
      BlankClean(g, e[..], ineq[..]);
      obs := saved;
    }

    /** Assemble the program for an iterate and hand it to the solver. Whatever was solved
        before, the program is the one of the problem about this iterate, and the answer is
        the solver's; a solved answer satisfies every equality and inequality. */
    method Solve(it: Iterate, applied: Vec, goal: Goals, solver: Solver) returns (answer: Answer, inc: Iterate, ghost program: Program)
      requires Valid() && Fits(g.dims, it) && |applied| == g.dims.m && FitGoals(g.dims, goal) && |Seen()| == Slacks(g.dims)
      requires Trusted(solver, Vars(g.dims))
      modifies this`eSparse, this`cSparse, this`calls, c, e, b, ineq, low, upp, obsH, obsHPrev
      ensures Valid() && Assembled(it, applied, goal) && calls == old(calls) + 1
      ensures ValidProblem(Posing(applied, goal)) && Poses(Posing(applied, goal), it, program) && answer == solver(program, old(calls))
      ensures |answer.d| == Vars(g.dims) && inc == Increments(g.dims, answer.d)
      ensures answer.solved ==> Meets(Posing(applied, goal), it, answer.d)
    {
      hide Times, Vars, EqRows, IneqRows, Slacks, EqFilled, IneqFilled, EqClean, IneqClean, EqFresh, IneqFresh, Cached, Bounded,
           Targets, EqPattern, IneqPattern, IsHessian, IsGradient, Blocks, BlockStart, EqTarget, Trusted, Feasible, EqHold, IneqHold, Represents, Pinned,
           EqMatrix, IneqMatrix, ValidDynamics;
      Assemble(it, applied, goal);
      FreshShape(g, dyn, it, e[..]);
      IneqFreshShape(g, root, Seen(), it, ineq[..]);
      DensePoses(g, root, dyn, Seen(), it, e[..], ineq[..]);
      var handed := Handed();
      program := handed;
      answer := solver(handed, calls);
      calls := calls + 1;
      AnswerFits(solver, Vars(g.dims), handed, calls - 1);
      FeasibleIff(Posing(applied, goal), it, handed, answer.d);
      inc := Cut(g.dims, answer.d);
    }

    /** The program as handed over: the dense matrices, or the matrices the sparse copies
        stand for. They are the same. */
    method Handed() returns (program: Program)
      requires Sized() && Shaped(e[..], EqRows(g.dims), Vars(g.dims)) && Shaped(ineq[..], IneqRows(g.dims), Vars(g.dims))
      requires !dense ==> Represents(eSparse, e[..]) && Represents(cSparse, ineq[..])
      ensures program == Program(h[..], c[..], DenseOf(e[..]), b[..], DenseOf(ineq[..]), low[..], upp[..])
    {
      hide Times, Vars, EqRows, IneqRows, Slacks, Blocks, BlockStart, Represents;
      var s := g.dims;
      if dense {
        program := Program(h[..], c[..], DenseOf(e[..]), b[..], DenseOf(ineq[..]), low[..], upp[..]);
      } else {
        ExpandIsDense(eSparse, e[..], EqRows(s), Vars(s));
        ExpandIsDense(cSparse, ineq[..], IneqRows(s), Vars(s));
        program := Program(h[..], c[..], Expand(eSparse, EqRows(s), Vars(s)), b[..], Expand(cSparse, IneqRows(s), Vars(s)), low[..], upp[..]);
      }
    }

    /** The five fillers in the order of a solve, then the values into the sparse copies. */
    method Assemble(it: Iterate, applied: Vec, goal: Goals)
      requires Valid() && Fits(g.dims, it) && |applied| == g.dims.m && FitGoals(g.dims, goal) && |Seen()| == Slacks(g.dims)
      modifies this`eSparse, this`cSparse, c, e, b, ineq, low, upp, obsH, obsHPrev
      ensures Valid() && Assembled(it, applied, goal)
    {
      hide Times, Vars, EqRows, IneqRows, Slacks, EqFilled, IneqFilled, EqClean, IneqClean, EqFresh, IneqFresh, Cached, Bounded,
           Targets, EqPattern, IneqPattern, IsHessian, IsGradient, Blocks, BlockStart, EqTarget, Represents;
      var s := g.dims;
      DynamicsFitAll(g, dyn, it);
      ghost var wasE, wasC := e[..], ineq[..];
      CleanShape(g, wasE, wasC);
      SetGradient(c, s, wt, goal, it);
      SetE(e, g, dyn, it);
      SetB(b, g, dyn, it);
      assert Pinned(b[..], s.n);
      SetC(ineq, obsH, obsHPrev, g, root, Seen(), it, idx);
      SetD(low, upp, obsH, obsHPrev, g, root, Seen(), it, applied, idx);
      EqHistoryFree(g, dyn, it, wasE, e[..]);
      IneqHistoryFree(g, root, Seen(), it, wasC, ineq[..]);
      TargetsMet(g, dyn, it, b[..]);
      if !dense { CopyValues(); }
    }

    /** Values only: the structure stays as declared. */
    method CopyValues()
      requires Sized() && EqClean(g, e[..]) && IneqClean(g, ineq[..]) && EqPattern(g, eSparse.Keys) && IneqPattern(g, cSparse.Keys)
      modifies this`eSparse, this`cSparse
      ensures eSparse.Keys == old(eSparse.Keys) && cSparse.Keys == old(cSparse.Keys)
      ensures Represents(eSparse, e[..]) && Represents(cSparse, ineq[..])
    {
      hide Times, Vars, EqRows, IneqRows, Slacks, EqClean, IneqClean, EqPattern, IneqPattern, Blocks, BlockStart, Represents, Copied;
      PatternFits(g, e[..], ineq[..], eSparse.Keys, cSparse.Keys);
      eSparse := WriteInto(eSparse, e);
      cSparse := WriteInto(cSparse, ineq);
      EqRepresents(g, e[..], eSparse);
      IneqRepresents(g, ineq[..], cSparse);
    }
  }

  /** The objective of the program handed over is the change in tracking cost, for every
      increment, when the weights are symmetric. */
  lemma PosedObjective(pb: Problem, it: Iterate, p: Program, d: Vec)
    requires ValidProblem(pb) && Fits(pb.g.dims, it) && Poses(pb, it, p) && |d| == Vars(pb.g.dims) && SymmetricWeights(pb.g.dims, pb.wt)
    ensures IsMat(p.h, |d|, |d|) && |p.c| == |d|
    ensures Objective(p.h, p.c, d) == Cost(pb.g.dims, pb.wt, pb.goal, Step(pb.g.dims, it, d)) - Cost(pb.g.dims, pb.wt, pb.goal, it)
  {
    hide Objective, Cost, Step, Targets, Bounded, EqMatrix, IneqMatrix, Vars, Slacks, SymmetricWeights;
    ObjectiveIsCostChange(pb.g.dims, pb.wt, pb.goal, it, p.h, p.c, d);
  }

  lemma AnswerFits(solver: Solver, vars: nat, p: Program, k: nat)
    requires Trusted(solver, vars)
    ensures |solver(p, k).d| == vars && (solver(p, k).solved ==> Feasible(p, solver(p, k).d))
  {
  }

  lemma PinnedZero(b: Vec, n: nat)
    requires n <= |b| && forall i :: 0 <= i < |b| ==> b[i] == 0.0
    ensures Pinned(b, n)
  {
  }

  lemma PinnedFit(s: Dims)
    ensures s.n <= EqRows(s)
  {
  }

  lemma BlankClean(g: Config, e: seq<CellRow>, ineq: seq<CellRow>)
    requires ValidConfig(g) && |e| == EqRows(g.dims) && |ineq| == IneqRows(g.dims)
    requires (forall i :: 0 <= i < |e| ==> e[i] == Blank(Vars(g.dims), Num(0.0))) && (forall i :: 0 <= i < |ineq| ==> ineq[i] == Blank(Vars(g.dims), Num(0.0)))
    ensures EqClean(g, e) && IneqClean(g, ineq)
  {
    hide Times, Vars, EqRows, IneqRows, OwnsEq, OwnsIneq;
  }

  lemma CleanShape(g: Config, e: seq<CellRow>, ineq: seq<CellRow>)
    requires ValidConfig(g) && EqClean(g, e) && IneqClean(g, ineq)
    ensures Shaped(e, EqRows(g.dims), Vars(g.dims)) && Shaped(ineq, IneqRows(g.dims), Vars(g.dims))
  {
  }

  lemma FreshShape(g: Config, dyn: Dynamics, it: Iterate, rows: seq<CellRow>)
    requires ValidConfig(g) && DynamicsFit(g, dyn, it) && EqFresh(g, dyn, it, rows)
    ensures Shaped(rows, EqRows(g.dims), Vars(g.dims))
  {
    hide Vars, EqRows, EqRowOf;
  }

  lemma IneqFreshShape(g: Config, root: real -> real, obs: seq<Disc>, it: Iterate, rows: seq<CellRow>)
    requires ValidConfig(g) && Fits(g.dims, it) && |obs| == Slacks(g.dims) && IneqFresh(g, root, obs, it, rows)
    ensures Shaped(rows, IneqRows(g.dims), Vars(g.dims))
  {
    hide Vars, IneqRows, IneqRowOf, Slacks;
  }

  lemma TargetsMet(g: Config, dyn: Dynamics, it: Iterate, b: Vec)
    requires ValidConfig(g) && Fits(g.dims, it) && ValidDynamics(g.dims, dyn) && |b| == EqRows(g.dims)
    requires Pinned(b, g.dims.n)
    requires forall node: nat, i: nat {:trigger DynRow(g.dims, node, i)} :: node < g.dims.np && i < g.dims.n ==>
               DynRow(g.dims, node, i) < |b| && b[DynRow(g.dims, node, i)] == EqTarget(g, dyn, it, Dyn(node, i))
    ensures Targets(g, dyn, it, b)
  {
    hide Times, EqRows;
    forall r: EqRow {:trigger ValidEqRow(g.dims, r)} | ValidEqRow(g.dims, r) ensures EqIndex(g.dims, r) < |b| && b[EqIndex(g.dims, r)] == EqTarget(g, dyn, it, r) {
      match r
      case Pin(i) => assert i < |b| && b[i] == 0.0;
      case Dyn(node, i) => assert DynRow(g.dims, node, i) < |b|;
    }
  }

  lemma PatternFits(g: Config, e: seq<CellRow>, ineq: seq<CellRow>, eKeys: set<(nat, nat)>, cKeys: set<(nat, nat)>)
    requires ValidConfig(g) && EqClean(g, e) && IneqClean(g, ineq) && EqPattern(g, eKeys) && IneqPattern(g, cKeys)
    ensures forall i: nat, c: nat :: (i, c) in eKeys ==> i < |e| && c < |e[i]|
    ensures forall i: nat, c: nat :: (i, c) in cKeys ==> i < |ineq| && c < |ineq[i]|
  {
    hide Vars, EqRows, IneqRows, OwnsEq, OwnsIneq;
  }

  /** The same components are bounded, possibly by other values. */
  predicate SameIndices(a: Bounds, b: Bounds) {
    && |a.x| == |b.x| && |a.u| == |b.u| && |a.du| == |b.du|
    && (forall j :: 0 <= j < |a.x| ==> a.x[j].idx == b.x[j].idx)
    && (forall j :: 0 <= j < |a.u| ==> a.u[j].idx == b.u[j].idx)
    && (forall j :: 0 <= j < |a.du| ==> a.du[j].idx == b.du[j].idx)
  }

  /** Everything the pattern may depend on: the sizes, which components are bounded, whether
      there are obstacle rows, where the position is, and whether gamma is below one. */
  predicate SamePattern(g: Config, g': Config) {
    g.dims == g'.dims && SameIndices(g.bounds, g'.bounds) && g.px == g'.px && g.py == g'.py && (g.gamma < 1.0 <==> g'.gamma < 1.0)
  }

  lemma ConfigKept(g: Config, g': Config)
    requires ValidConfig(g) && SameIndices(g.bounds, g'.bounds) && g' == g.(bounds := g'.bounds)
    ensures ValidConfig(g') && SamePattern(g, g')
  {
  }

  /** Which entries a row owns depends on nothing else: not on bound values, the step, the
      iterate or the obstacles. */
  lemma OwnsKept(g: Config, g': Config, r: Row, c: nat)
    requires ValidConfig(g) && ValidConfig(g') && SamePattern(g, g') && ValidRow(g.dims, r)
    ensures OwnsIneq(g, r, c) <==> OwnsIneq(g', r, c)
  {
    hide Times, XCol, UCol, WCol;
  }

  lemma OwnershipKept(g: Config, g': Config, rows: seq<CellRow>)
    requires ValidConfig(g) && SameIndices(g.bounds, g'.bounds) && g' == g.(bounds := g'.bounds) && IneqClean(g, rows)
    ensures ValidConfig(g') && IneqClean(g', rows)
  {
    hide Times, Vars, IneqRows, OwnsIneq;
    ConfigKept(g, g');
    forall i, c | 0 <= i < |rows| && 0 <= c < Vars(g.dims) && !OwnsIneq(g', RowAt(g.dims, i), c) ensures rows[i][c] == Num(0.0) {
      OwnsKept(g, g', RowAt(g.dims, i), c);
    }
  }

  lemma EqKept(g: Config, g': Config, rows: seq<CellRow>)
    requires ValidConfig(g) && ValidConfig(g') && g' == g.(bounds := g'.bounds) && EqClean(g, rows)
    ensures EqClean(g', rows)
  {
    hide Times, Vars, EqRows, OwnsEq;
  }

  lemma PatternKept(g: Config, g': Config, eKeys: set<(nat, nat)>, cKeys: set<(nat, nat)>)
    requires ValidConfig(g) && SameIndices(g.bounds, g'.bounds) && g' == g.(bounds := g'.bounds)
    requires EqPattern(g, eKeys) && IneqPattern(g, cKeys)
    ensures ValidConfig(g') && EqPattern(g', eKeys) && IneqPattern(g', cKeys)
  {
    hide Times, Vars, EqRows, IneqRows, OwnsEq, OwnsIneq;
    ConfigKept(g, g');
    forall i: nat, c: nat | i < IneqRows(g.dims) && c < Vars(g.dims) ensures OwnsIneq(g, RowAt(g.dims, i), c) <==> OwnsIneq(g', RowAt(g.dims, i), c) {
      OwnsKept(g, g', RowAt(g.dims, i), c);
    }
  }

  lemma NoSlacks(s: Dims)
    ensures !s.obstacles ==> Slacks(s) == 0
  {
  }

  lemma FilledShape(g: Config, dyn: Dynamics, it: Iterate, was: seq<CellRow>, now: seq<CellRow>)
    requires ValidConfig(g) && DynamicsFit(g, dyn, it) && Shaped(was, EqRows(g.dims), Vars(g.dims)) && EqFilled(g, dyn, it, was, now, EqRows(g.dims))
    ensures Shaped(now, EqRows(g.dims), Vars(g.dims))
  {
    hide EqRowOf, EqRows, Vars;
  }

  lemma IneqFilledShape(g: Config, root: real -> real, obs: seq<Disc>, it: Iterate, was: seq<CellRow>, now: seq<CellRow>)
    requires ValidConfig(g) && Fits(g.dims, it) && |obs| == Slacks(g.dims) && Shaped(was, IneqRows(g.dims), Vars(g.dims))
    requires IneqFilled(g, root, obs, it, was, now, IneqRows(g.dims))
    ensures Shaped(now, IneqRows(g.dims), Vars(g.dims))
  {
    hide IneqRowOf, IneqRows, Vars, Slacks;
  }
}
