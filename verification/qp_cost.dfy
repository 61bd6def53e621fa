/** The objective of the quadratic program, and that it is the change in tracking cost. */
module QpCost {
  import opened Linear
  import opened QpLayout
  import opened QpRows
  import opened QpFeasible

  /** Weights of the tracking cost: states before the last node, the last state, controls
      and slacks. */
  datatype Weights = Weights(q: Mat, s: Mat, r: Mat, w: real)

  /** Reference states per node and reference controls per block. */
  datatype Goals = Goals(x: seq<Vec>, u: seq<Vec>)

  predicate FitWeights(s: Dims, wt: Weights) {
    IsMat(wt.q, s.n, s.n) && IsMat(wt.s, s.n, s.n) && IsMat(wt.r, s.m, s.m)
  }

  predicate FitGoals(s: Dims, goal: Goals) { IsMat(goal.x, s.np + 1, s.n) && IsMat(goal.u, s.nc, s.m) }

  ghost predicate SymmetricWeights(s: Dims, wt: Weights) {
    Symmetric(wt.q, s.n) && Symmetric(wt.s, s.n) && Symmetric(wt.r, s.m)
  }

  /** The last node carries the terminal weight. */
  function NodeWeight(s: Dims, wt: Weights, node: nat): Mat { if node < s.np then wt.q else wt.s }

  // ----- the cost itself

  function StateCost(s: Dims, wt: Weights, x: seq<Vec>, goal: seq<Vec>, k: nat): real
    requires FitWeights(s, wt) && IsMat(x, s.np + 1, s.n) && IsMat(goal, s.np + 1, s.n) && k <= s.np + 1
  {
    if k == 0 then 0.0 else StateCost(s, wt, x, goal, k - 1) + Quad(NodeWeight(s, wt, k - 1), VSub(x[k - 1], goal[k - 1]))
  }

  function ControlCost(s: Dims, wt: Weights, u: seq<Vec>, goal: seq<Vec>, k: nat): real
    requires FitWeights(s, wt) && IsMat(u, s.nc, s.m) && IsMat(goal, s.nc, s.m) && k <= s.nc
  {
    if k == 0 then 0.0 else ControlCost(s, wt, u, goal, k - 1) + Quad(wt.r, VSub(u[k - 1], goal[k - 1]))
  }

  function SlackCost(wt: Weights, w: Vec): real {
    if w == [] then 0.0 else Mul(wt.w, Mul(w[0], w[0])) + SlackCost(wt, w[1..])
  }

  /** The tracking cost of an iterate over the whole horizon. */
  function Cost(s: Dims, wt: Weights, goal: Goals, it: Iterate): real
    requires FitWeights(s, wt) && FitGoals(s, goal) && Fits(s, it)
  {
    StateCost(s, wt, it.x, goal.x, s.np + 1) + ControlCost(s, wt, it.u, goal.u, s.nc) + SlackCost(wt, it.w)
  }

  // ----- the assembled Hessian and gradient, entry by entry

  datatype Var = XVar(node: nat, i: nat) | UVar(block: nat, i: nat) | WVar(at: nat)

  predicate ValidVar(s: Dims, v: Var) {
    match v
    case XVar(node, i) => node < s.np + 1 && i < s.n
    case UVar(block, i) => block < s.nc && i < s.m
    case WVar(at) => at < Slacks(s)
  }

  function VarCol(s: Dims, v: Var): nat {
    match v
    case XVar(node, i) => XCol(s, node, i)
    case UVar(block, i) => UCol(s, block, i)
    case WVar(at) => WStart(s) + at
  }

  lemma VarFits(s: Dims, v: Var)
    requires ValidDims(s) && ValidVar(s, v)
    ensures VarCol(s, v) < Vars(s)
    ensures v.XVar? ==> XCol(s, v.node, 0) + s.n <= Vars(s)
    ensures v.UVar? ==> UCol(s, v.block, 0) + s.m <= Vars(s)
  {
    hide Times;
    match v
    case XVar(node, i) => TableCell(node, s.np + 1, s.n, i);
    case UVar(block, i) => TableCell(block, s.nc, s.m, i);
    case WVar(at) =>
  }

  /** The row of the Hessian that belongs to a variable. */
  function HessianRow(s: Dims, wt: Weights, v: Var): (row: Vec)
    requires ValidDims(s) && FitWeights(s, wt) && ValidVar(s, v)
    ensures |row| == Vars(s)
  {
    VarFits(s, v);
    match v
    case XVar(node, i) => Splice(Zeros(Vars(s)), XCol(s, node, 0), VScale(2.0, NodeWeight(s, wt, node)[i]))
    case UVar(block, i) => Splice(Zeros(Vars(s)), UCol(s, block, 0), VScale(2.0, wt.r[i]))
    case WVar(at) => Splice(Zeros(Vars(s)), WStart(s) + at, [Mul(2.0, wt.w)])
  }

  function GradientAt(s: Dims, wt: Weights, goal: Goals, it: Iterate, v: Var): real
    requires ValidDims(s) && FitWeights(s, wt) && FitGoals(s, goal) && Fits(s, it) && ValidVar(s, v)
  {
    match v
    case XVar(node, i) => Dot(VScale(2.0, NodeWeight(s, wt, node)[i]), VSub(it.x[node], goal.x[node]))
    case UVar(block, i) => Dot(VScale(2.0, wt.r[i]), VSub(it.u[block], goal.u[block]))
    case WVar(at) => Mul(Mul(2.0, wt.w), it.w[at])
  }

  ghost predicate IsHessian(s: Dims, wt: Weights, h: Mat)
    requires ValidDims(s) && FitWeights(s, wt)
  {
    IsMat(h, Vars(s), Vars(s)) && forall v: Var :: ValidVar(s, v) ==> HasRow(s, wt, h, v)
  }

  ghost predicate HasRow(s: Dims, wt: Weights, h: Mat, v: Var)
    requires ValidDims(s) && FitWeights(s, wt) && |h| == Vars(s) && ValidVar(s, v)
  {
    VarFits(s, v);
    h[VarCol(s, v)] == HessianRow(s, wt, v)
  }

  ghost predicate IsGradient(s: Dims, wt: Weights, goal: Goals, it: Iterate, c: Vec)
    requires ValidDims(s) && FitWeights(s, wt) && FitGoals(s, goal) && Fits(s, it)
  {
    |c| == Vars(s) && forall v: Var :: ValidVar(s, v) ==> HasEntry(s, wt, goal, it, c, v)
  }

  ghost predicate HasEntry(s: Dims, wt: Weights, goal: Goals, it: Iterate, c: Vec, v: Var)
    requires ValidDims(s) && FitWeights(s, wt) && FitGoals(s, goal) && Fits(s, it) && |c| == Vars(s) && ValidVar(s, v)
  {
    VarFits(s, v);
    c[VarCol(s, v)] == GradientAt(s, wt, goal, it, v)
  }

  // ----- one block

  /** What one block contributes to the program's objective: d'Md + 2 (Me)'d. */
  function Gain(m: Mat, e: Vec, d: Vec): real
    requires |e| == |d| && IsMat(m, |d|, |d|)
  {
    Dot(VAdd(MatVec(m, d), VScale(2.0, MatVec(m, e))), d)
  }

  lemma GainExpands(m: Mat, e: Vec, d: Vec)
    requires |e| == |d| && IsMat(m, |d|, |d|)
    ensures Gain(m, e, d) == Bil(m, d, d) + Mul(2.0, Bil(m, d, e))
  {
    hide Dot;
    DotLeft(MatVec(m, d), VScale(2.0, MatVec(m, e)), d, 2.0);
    DotLeft(MatVec(m, e), MatVec(m, e), d, 2.0);
    DotComm(MatVec(m, d), d);
    DotComm(MatVec(m, e), d);
  }

  lemma QuadExpands(m: Mat, e: Vec, d: Vec)
    requires |e| == |d| && IsMat(m, |d|, |d|)
    ensures Quad(m, VAdd(e, d)) - Quad(m, e) == Bil(m, d, d) + Bil(m, d, e) + Bil(m, e, d)
  {
    hide Dot;
    var t := VAdd(e, d);
    MatVecLinear(m, e, d, 1.0);
    DotLeft(e, d, MatVec(m, t), 1.0);
    DotAdd(e, MatVec(m, e), MatVec(m, d));
    DotAdd(d, MatVec(m, e), MatVec(m, d));
  }

  /** A block's contribution is the change of its quadratic cost, for every error and
      every increment, exactly when its weight is symmetric. */
  lemma GainExactIff(m: Mat, n: nat)
    requires IsMat(m, n, n)
    ensures (forall e: Vec, d: Vec {:trigger Gain(m, e, d)} :: |e| == n && |d| == n ==> Gain(m, e, d) == Quad(m, VAdd(e, d)) - Quad(m, e))
            <==> Symmetric(m, n)
  {
    hide Dot, Bil, Quad, Gain, Symmetric;
    if Symmetric(m, n) {
      forall e: Vec, d: Vec | |e| == n && |d| == n ensures Gain(m, e, d) == Quad(m, VAdd(e, d)) - Quad(m, e) { GainExact(m, e, d); }
    }
    if forall e: Vec, d: Vec {:trigger Gain(m, e, d)} :: |e| == n && |d| == n ==> Gain(m, e, d) == Quad(m, VAdd(e, d)) - Quad(m, e) {
      forall u: Vec, v: Vec | |u| == n && |v| == n ensures Bil(m, u, v) == Bil(m, v, u) {
        assert Gain(m, u, v) == Quad(m, VAdd(u, v)) - Quad(m, u);
        GainExpands(m, u, v);
        QuadExpands(m, u, v);
      }
      BilSymmetric(m, n);
    }
  }

  lemma GainExact(m: Mat, e: Vec, d: Vec)
    requires |e| == |d| && IsMat(m, |d|, |d|) && Symmetric(m, |d|)
    ensures Gain(m, e, d) == Quad(m, VAdd(e, d)) - Quad(m, e)
  {
    hide Dot, Bil, Quad, Gain;
    GainExpands(m, e, d);
    QuadExpands(m, e, d);
    SymmetricBil(m, e, d);
  }

  // ----- splitting the flat product

  function BlockSum(g: Vec, d: Vec, w: nat, k: nat): real
    requires |g| == |d| && Times(k, w) <= |d|
  {
    if k == 0 then 0.0
    else
      TimesNext(k - 1, w);
      BlockSum(g, d, w, k - 1) + Dot(g[Times(k - 1, w)..Times(k, w)], d[Times(k - 1, w)..Times(k, w)])
  }

  /** A flat product is the sum of the products of its blocks. */
  lemma {:induction false} DotBlocks(g: Vec, d: Vec, w: nat, k: nat)
    requires |g| == |d| && Times(k, w) <= |d|
    ensures Dot(g[..Times(k, w)], d[..Times(k, w)]) == BlockSum(g, d, w, k)
  {
    hide Times, Dot;
    if k == 0 {
      TimesNext(0, w);
      DotZero(g[..0], d[..0]);
    } else {
      TimesNext(k - 1, w);
      var p, q := Times(k - 1, w), Times(k, w);
      DotBlocks(g, d, w, k - 1);
      DotSplit(g[..q], d[..q], p);
      assert g[..q][..p] == g[..p] && d[..q][..p] == d[..p];
      assert g[..q][p..] == g[p..q] && d[..q][p..] == d[p..q];
    }
  }

  // ----- the objective

  /** ½ Hd + c, whose product with d is the program's objective. */
  function Slope(h: Mat, c: Vec, d: Vec): (g: Vec)
    requires IsMat(h, |d|, |d|) && |c| == |d|
    ensures |g| == |d|
  {
    VAdd(VScale(0.5, MatVec(h, d)), c)
  }

  /** The program's objective. */
  function Objective(h: Mat, c: Vec, d: Vec): real
    requires IsMat(h, |d|, |d|) && |c| == |d|
  {
    Mul(0.5, Quad(h, d)) + Dot(c, d)
  }

  lemma ObjectiveSlope(h: Mat, c: Vec, d: Vec)
    requires IsMat(h, |d|, |d|) && |c| == |d|
    ensures Objective(h, c, d) == Dot(Slope(h, c, d), d)
  {
    hide Dot;
    var hd := MatVec(h, d);
    DotLeft(VScale(0.5, hd), c, d, 1.0);
    DotLeft(hd, hd, d, 0.5);
    DotComm(hd, d);
  }

  /** The product of a row that is zero outside one block. */
  lemma RowProduct(n: nat, p: nat, part: Vec, d: Vec)
    requires |d| == n && p + |part| <= n
    ensures Dot(Splice(Zeros(n), p, part), d) == Dot(part, d[p..p + |part|])
  {
    hide Dot;
    var q, a := p + |part|, Splice(Zeros(n), p, part);
    DotSplit3(a, d, p, q);
    DotZero(a[..p], d[..p]);
    DotZero(a[q..], d[q..]);
    assert a[p..q] == part;
  }

  lemma HalfDouble(x: real, y: real)
    ensures Mul(0.5, Mul(2.0, x)) == x && Mul(Mul(2.0, x), y) == Mul(2.0, Mul(x, y))
  {
  }

  lemma DoubledRow(n: nat, p: nat, m: Vec, d: Vec)
    requires |d| == n && p + |m| <= n
    ensures Dot(Splice(Zeros(n), p, VScale(2.0, m)), d) == Mul(2.0, Dot(m, d[p..p + |m|]))
  {
    hide Dot, Mul, Splice, Zeros;
    RowProduct(n, p, VScale(2.0, m), d);
    DotLeft(m, m, d[p..p + |m|], 2.0);
  }

  /** One entry of the slope: a row that holds 2 m over one block, and the matching
      gradient entry. */
  lemma SlopeEntry(h: Mat, c: Vec, d: Vec, at: nat, p: nat, m: Vec, e: Vec)
    requires IsMat(h, |d|, |d|) && |c| == |d| && at < |d| && p + |m| <= |d| && |e| == |m|
    requires h[at] == Splice(Zeros(|d|), p, VScale(2.0, m)) && c[at] == Dot(VScale(2.0, m), e)
    ensures Slope(h, c, d)[at] == Dot(m, d[p..p + |m|]) + Mul(2.0, Dot(m, e))
  {
    hide Dot, Mul, Splice, Zeros, Slope;
    DoubledRow(|d|, p, m, d);
    DotLeft(m, m, e, 2.0);
    SlopeAt(h, c, d, at);
    HalfDouble(Dot(m, d[p..p + |m|]), 1.0);
  }

  lemma SlopeAt(h: Mat, c: Vec, d: Vec, at: nat)
    requires IsMat(h, |d|, |d|) && |c| == |d| && at < |d|
    ensures Slope(h, c, d)[at] == Mul(0.5, Dot(h[at], d)) + c[at]
  {
    hide Dot, Mul;
  }

  /** Rows p.. hold the block 2 M at column p, and the gradient holds 2 M e there. */
  ghost predicate HasBlock(h: Mat, c: Vec, p: nat, m: Mat, e: Vec) {
    && |c| == |h| && IsMat(h, |c|, |c|) && IsMat(m, |e|, |e|) && p + |e| <= |h|
    && forall i {:trigger m[i]} :: 0 <= i < |e| ==> h[p + i] == Splice(Zeros(|h|), p, VScale(2.0, m[i])) && c[p + i] == Dot(VScale(2.0, m[i]), e)
  }

  lemma SlopeBlock(h: Mat, c: Vec, d: Vec, p: nat, m: Mat, e: Vec)
    requires |d| == |h| && HasBlock(h, c, p, m, e)
    ensures Slope(h, c, d)[p..p + |e|] == VAdd(MatVec(m, d[p..p + |e|]), VScale(2.0, MatVec(m, e)))
  {
    hide Dot, Mul, Slope;
    var got, want := Slope(h, c, d)[p..p + |e|], VAdd(MatVec(m, d[p..p + |e|]), VScale(2.0, MatVec(m, e)));
    forall i | 0 <= i < |e| ensures got[i] == want[i] {
      SlopeEntry(h, c, d, p + i, p, m[i], e);
    }
  }

  lemma StateBlock(s: Dims, wt: Weights, goal: Goals, it: Iterate, h: Mat, c: Vec, node: nat)
    requires ValidDims(s) && FitWeights(s, wt) && FitGoals(s, goal) && Fits(s, it)
    requires IsHessian(s, wt, h) && IsGradient(s, wt, goal, it, c) && node < s.np + 1
    ensures HasBlock(h, c, XCol(s, node, 0), NodeWeight(s, wt, node), VSub(it.x[node], goal.x[node]))
  {
    hide Times, Dot, UStart, WStart, Vars, Mul;
    VarFits(s, XVar(node, 0));
    var p, m, e := XCol(s, node, 0), NodeWeight(s, wt, node), VSub(it.x[node], goal.x[node]);
    forall i {:trigger m[i]} | 0 <= i < |e| ensures h[p + i] == Splice(Zeros(|h|), p, VScale(2.0, m[i])) && c[p + i] == Dot(VScale(2.0, m[i]), e) {
      VarFits(s, XVar(node, i));
      assert HasRow(s, wt, h, XVar(node, i)) && HasEntry(s, wt, goal, it, c, XVar(node, i));
    }
  }

  lemma ControlRow(s: Dims, wt: Weights, goal: Goals, it: Iterate, h: Mat, c: Vec, block: nat, i: nat)
    requires ValidDims(s) && FitWeights(s, wt) && FitGoals(s, goal) && Fits(s, it)
    requires IsHessian(s, wt, h) && IsGradient(s, wt, goal, it, c) && block < s.nc && i < s.m
    ensures UCol(s, block, 0) + s.m <= Vars(s)
    ensures h[UCol(s, block, 0) + i] == Splice(Zeros(Vars(s)), UCol(s, block, 0), VScale(2.0, wt.r[i]))
    ensures c[UCol(s, block, 0) + i] == Dot(VScale(2.0, wt.r[i]), VSub(it.u[block], goal.u[block]))
  {
    hide Times, Dot, UStart, WStart, Vars, Mul, Splice, FitWeights, FitGoals, Fits;
    VarFits(s, UVar(block, i));
    assert HasRow(s, wt, h, UVar(block, i));
    assert HasEntry(s, wt, goal, it, c, UVar(block, i));
  }

  lemma ControlBlock(s: Dims, wt: Weights, goal: Goals, it: Iterate, h: Mat, c: Vec, block: nat)
    requires ValidDims(s) && FitWeights(s, wt) && FitGoals(s, goal) && Fits(s, it)
    requires IsHessian(s, wt, h) && IsGradient(s, wt, goal, it, c) && block < s.nc
    ensures HasBlock(h, c, UCol(s, block, 0), wt.r, VSub(it.u[block], goal.u[block]))
  {
    hide Times, Dot, UStart, WStart, Vars, Mul, UCol, Splice;
    VarFits(s, UVar(block, 0));
    var p, m, e := UCol(s, block, 0), wt.r, VSub(it.u[block], goal.u[block]);
    forall i {:trigger m[i]} | 0 <= i < |e| ensures h[p + i] == Splice(Zeros(|h|), p, VScale(2.0, m[i])) && c[p + i] == Dot(VScale(2.0, m[i]), e) {
      ControlRow(s, wt, goal, it, h, c, block, i);
    }
  }

  /** The slope over the slacks. */
  lemma SlopeSlack(s: Dims, wt: Weights, goal: Goals, it: Iterate, h: Mat, c: Vec, d: Vec, at: nat)
    requires ValidDims(s) && FitWeights(s, wt) && FitGoals(s, goal) && Fits(s, it) && |d| == Vars(s)
    requires IsHessian(s, wt, h) && IsGradient(s, wt, goal, it, c) && at < Slacks(s)
    ensures WStart(s) + at < |d|
    ensures Slope(h, c, d)[WStart(s) + at] == Mul(wt.w, d[WStart(s) + at]) + Mul(2.0, Mul(wt.w, it.w[at]))
  {
    hide Times, UStart, WStart, Vars, Mul;
    var v, p := WVar(at), WStart(s) + at;
    VarFits(s, v);
    assert HasRow(s, wt, h, v) && HasEntry(s, wt, goal, it, c, v);
    RowProduct(Vars(s), p, [Mul(2.0, wt.w)], d);
    DotSingle([Mul(2.0, wt.w)], d[p..p + 1], 0);
    HalfDouble(wt.w, d[p]);
    HalfDouble(Mul(wt.w, d[p]), 1.0);
    HalfDouble(wt.w, it.w[at]);
  }

  // ----- summing the blocks

  lemma ErrorStep(x: Vec, goal: Vec, d: Vec)
    requires |x| == |goal| == |d|
    ensures VSub(VAdd(x, d), goal) == VAdd(VSub(x, goal), d)
  {
    forall i | 0 <= i < |x| ensures VSub(VAdd(x, d), goal)[i] == VAdd(VSub(x, goal), d)[i] {}
  }

  lemma {:induction false} StateSum(s: Dims, wt: Weights, goal: Goals, it: Iterate, h: Mat, c: Vec, d: Vec, k: nat)
    requires ValidDims(s) && FitWeights(s, wt) && SymmetricWeights(s, wt) && FitGoals(s, goal) && Fits(s, it) && |d| == Vars(s)
    requires IsHessian(s, wt, h) && IsGradient(s, wt, goal, it, c) && k <= s.np + 1
    ensures Times(k, s.n) <= |d|
    ensures BlockSum(Slope(h, c, d), d, s.n, k)
         == StateCost(s, wt, Step(s, it, d).x, goal.x, k) - StateCost(s, wt, it.x, goal.x, k)
  {
    hide Times, Dot, Slope, Quad, Mul;
    TimesMono(k, s.np + 1, s.n);
    if k > 0 {
      var node := k - 1;
      StateSum(s, wt, goal, it, h, c, d, node);
      TimesNext(node, s.n);
      StateGain(s, wt, goal, it, h, c, d, node);
    }
  }

  lemma StateGain(s: Dims, wt: Weights, goal: Goals, it: Iterate, h: Mat, c: Vec, d: Vec, node: nat)
    requires ValidDims(s) && FitWeights(s, wt) && SymmetricWeights(s, wt) && FitGoals(s, goal) && Fits(s, it) && |d| == Vars(s)
    requires IsHessian(s, wt, h) && IsGradient(s, wt, goal, it, c) && node < s.np + 1
    ensures Times(node, s.n) + s.n <= |d|
    ensures var p, q := Times(node, s.n), Times(node, s.n) + s.n;
            var m, e := NodeWeight(s, wt, node), VSub(it.x[node], goal.x[node]);
            Dot(Slope(h, c, d)[p..q], d[p..q]) == Quad(m, VSub(Step(s, it, d).x[node], goal.x[node])) - Quad(m, e)
  {
    hide Times, Dot, Slope, Quad, Mul, UStart, WStart, Vars, UCol;
    StepSlices(s, d, node, 0);
    var m, e, dx := NodeWeight(s, wt, node), VSub(it.x[node], goal.x[node]), StateStep(s, d, node);
    StateBlock(s, wt, goal, it, h, c, node);
    SlopeBlock(h, c, d, XCol(s, node, 0), m, e);
    GainExact(m, e, dx);
    ErrorStep(it.x[node], goal.x[node], dx);
  }

  lemma {:induction false} ControlSum(s: Dims, wt: Weights, goal: Goals, it: Iterate, h: Mat, c: Vec, d: Vec, k: nat)
    requires ValidDims(s) && FitWeights(s, wt) && SymmetricWeights(s, wt) && FitGoals(s, goal) && Fits(s, it) && |d| == Vars(s)
    requires IsHessian(s, wt, h) && IsGradient(s, wt, goal, it, c) && k <= s.nc
    ensures UStart(s) + Times(k, s.m) <= |d|
    ensures BlockSum(Slope(h, c, d)[UStart(s)..], d[UStart(s)..], s.m, k)
         == ControlCost(s, wt, Step(s, it, d).u, goal.u, k) - ControlCost(s, wt, it.u, goal.u, k)
  {
    hide Times, Dot, Slope, Quad, Mul, UStart;
    TimesMono(k, s.nc, s.m);
    if k > 0 {
      var block := k - 1;
      ControlSum(s, wt, goal, it, h, c, d, block);
      TimesNext(block, s.m);
      ControlGain(s, wt, goal, it, h, c, d, block);
      var g, o, p, q := Slope(h, c, d), UStart(s), Times(block, s.m), Times(k, s.m);
      assert g[o..][p..q] == g[o + p..o + q] && d[o..][p..q] == d[o + p..o + q];
    }
  }

  lemma ControlGain(s: Dims, wt: Weights, goal: Goals, it: Iterate, h: Mat, c: Vec, d: Vec, block: nat)
    requires ValidDims(s) && FitWeights(s, wt) && SymmetricWeights(s, wt) && FitGoals(s, goal) && Fits(s, it) && |d| == Vars(s)
    requires IsHessian(s, wt, h) && IsGradient(s, wt, goal, it, c) && block < s.nc
    ensures UStart(s) + Times(block, s.m) + s.m <= |d|
    ensures var p, q := UStart(s) + Times(block, s.m), UStart(s) + Times(block, s.m) + s.m;
            var e := VSub(it.u[block], goal.u[block]);
            Dot(Slope(h, c, d)[p..q], d[p..q]) == Quad(wt.r, VSub(Step(s, it, d).u[block], goal.u[block])) - Quad(wt.r, e)
  {
    hide Times, Dot, Slope, Quad, Mul, UStart, WStart, Vars, XCol;
    StepSlices(s, d, 0, block);
    var e, du := VSub(it.u[block], goal.u[block]), ControlStep(s, d, block);
    ControlBlock(s, wt, goal, it, h, c, block);
    SlopeBlock(h, c, d, UCol(s, block, 0), wt.r, e);
    GainExact(wt.r, e, du);
    ErrorStep(it.u[block], goal.u[block], du);
  }

  lemma SquareStep(k: real, w: real, d: real)
    ensures Mul(Mul(k, d) + Mul(2.0, Mul(k, w)), d) == Mul(k, Mul(w + d, w + d)) - Mul(k, Mul(w, w))
  {
    calc {
      Mul(k, Mul(w + d, w + d)) - Mul(k, Mul(w, w));
      k * ((w + d) * (w + d)) - k * (w * w);
      { assert (w + d) * (w + d) == w * w + 2.0 * (w * d) + d * d; }
      k * (2.0 * (w * d) + d * d);
      Mul(Mul(k, d) + Mul(2.0, Mul(k, w)), d);
    }
  }

  lemma {:induction false} SlackGain(wt: Weights, g: Vec, d: Vec, w: Vec)
    requires |g| == |d| == |w| && forall i :: 0 <= i < |w| ==> g[i] == Mul(wt.w, d[i]) + Mul(2.0, Mul(wt.w, w[i]))
    ensures Dot(g, d) == SlackCost(wt, VAdd(w, d)) - SlackCost(wt, w)
  {
    if w != [] {
      hide Mul;
      SlackGain(wt, g[1..], d[1..], w[1..]);
      SquareStep(wt.w, w[0], d[0]);
      assert VAdd(w, d)[1..] == VAdd(w[1..], d[1..]);
    }
  }

  lemma SlackSum(s: Dims, wt: Weights, goal: Goals, it: Iterate, h: Mat, c: Vec, d: Vec)
    requires ValidDims(s) && FitWeights(s, wt) && FitGoals(s, goal) && Fits(s, it) && |d| == Vars(s)
    requires IsHessian(s, wt, h) && IsGradient(s, wt, goal, it, c)
    ensures WStart(s) <= |d|
    ensures Dot(Slope(h, c, d)[WStart(s)..], d[WStart(s)..]) == SlackCost(wt, Step(s, it, d).w) - SlackCost(wt, it.w)
  {
    hide Times, Slope, Mul, UStart, WStart, Dot;
    ColumnsFit(s);
    var g, o := Slope(h, c, d), WStart(s);
    forall i | 0 <= i < Slacks(s) ensures g[o..][i] == Mul(wt.w, d[o..][i]) + Mul(2.0, Mul(wt.w, it.w[i])) {
      SlopeSlack(s, wt, goal, it, h, c, d, i);
    }
    SlackGain(wt, g[o..], d[o..], it.w);
  }

  /** The objective of the program is the change in tracking cost, for every increment
      and every horizon size. */
  lemma ObjectiveIsCostChange(s: Dims, wt: Weights, goal: Goals, it: Iterate, h: Mat, c: Vec, d: Vec)
    requires ValidDims(s) && FitWeights(s, wt) && SymmetricWeights(s, wt) && FitGoals(s, goal) && Fits(s, it) && |d| == Vars(s)
    requires IsHessian(s, wt, h) && IsGradient(s, wt, goal, it, c)
    ensures Objective(h, c, d) == Cost(s, wt, goal, Step(s, it, d)) - Cost(s, wt, goal, it)
  {
    hide Times, Slope, Mul, UStart, WStart, Dot, Step, StateCost, ControlCost, SlackCost, Objective, BlockSum;
    ColumnsFit(s);
    var g, o, q := Slope(h, c, d), UStart(s), WStart(s);
    ObjectiveSlope(h, c, d);
    DotSplit3(g, d, o, q);
    StateSum(s, wt, goal, it, h, c, d, s.np + 1);
    DotBlocks(g, d, s.n, s.np + 1);
    ControlSum(s, wt, goal, it, h, c, d, s.nc);
    DotBlocks(g[o..], d[o..], s.m, s.nc);
    SlackSum(s, wt, goal, it, h, c, d);
    StartsAt(s);
    assert g[o..][..Times(s.nc, s.m)] == g[o..q] && d[o..][..Times(s.nc, s.m)] == d[o..q];
  }

  lemma StartsAt(s: Dims)
    ensures UStart(s) == Times(s.np + 1, s.n) && WStart(s) == UStart(s) + Times(s.nc, s.m)
  {
  }

  // ----- what each weight prices

  lemma {:induction false} StatePrice(s: Dims, wt: Weights, x: seq<Vec>, goal: seq<Vec>, node: nat, k: nat)
    requires FitWeights(s, wt) && IsMat(x, s.np + 1, s.n) && IsMat(goal, s.np + 1, s.n) && k <= s.np + 1
    requires node < s.np + 1 && forall i :: 0 <= i < s.np + 1 && i != node ==> x[i] == goal[i]
    ensures StateCost(s, wt, x, goal, k) == if node < k then Quad(if node < s.np then wt.q else wt.s, VSub(x[node], goal[node])) else 0.0
  {
    hide Quad;
    if k > 0 {
      StatePrice(s, wt, x, goal, node, k - 1);
      if k - 1 != node { NoPrice(if k - 1 < s.np then wt.q else wt.s, x[k - 1]); }
    }
  }

  lemma {:induction false} ControlPrice(s: Dims, wt: Weights, u: seq<Vec>, goal: seq<Vec>, block: nat, k: nat)
    requires FitWeights(s, wt) && IsMat(u, s.nc, s.m) && IsMat(goal, s.nc, s.m) && k <= s.nc && block < s.nc
    requires forall i :: 0 <= i < s.nc && i != block ==> u[i] == goal[i]
    ensures ControlCost(s, wt, u, goal, k) == if block < k then Quad(wt.r, VSub(u[block], goal[block])) else 0.0
  {
    hide Quad;
    if k > 0 {
      ControlPrice(s, wt, u, goal, block, k - 1);
      if k - 1 != block { NoPrice(wt.r, u[k - 1]); }
    }
  }

  lemma NoPrice(m: Mat, x: Vec)
    requires IsMat(m, |x|, |x|)
    ensures Quad(m, VSub(x, x)) == 0.0
  {
    var z := VSub(x, x);
    DotZero(z, MatVec(m, z));
  }

  lemma {:induction false} SlackPrice(wt: Weights, w: Vec, at: nat)
    requires at < |w| && forall i :: 0 <= i < |w| && i != at ==> w[i] == 0.0
    ensures SlackCost(wt, w) == Mul(wt.w, Mul(w[at], w[at]))
  {
    if at > 0 {
      SlackPrice(wt, w[1..], at - 1);
      assert Mul(wt.w, Mul(w[0], w[0])) == 0.0;
    } else {
      NoSlackPrice(wt, w[1..]);
    }
  }

  lemma {:induction false} NoSlackPrice(wt: Weights, w: Vec)
    requires forall i :: 0 <= i < |w| ==> w[i] == 0.0
    ensures SlackCost(wt, w) == 0.0
  {
    if w != [] {
      NoSlackPrice(wt, w[1..]);
      assert Mul(wt.w, Mul(w[0], w[0])) == 0.0;
    }
  }

  /** What a single deviation from the goals costs: at a node before the last the stage weight
      prices it, at the last the terminal one, at a block the control one, and a slack costs
      its weight times its square. */
  lemma PriceOf(s: Dims, wt: Weights, goal: Goals, it: Iterate, v: Var)
    requires ValidDims(s) && FitWeights(s, wt) && FitGoals(s, goal) && Fits(s, it) && ValidVar(s, v)
    requires forall k :: 0 <= k < s.np + 1 && !(v.XVar? && k == v.node) ==> it.x[k] == goal.x[k]
    requires forall k :: 0 <= k < s.nc && !(v.UVar? && k == v.block) ==> it.u[k] == goal.u[k]
    requires forall k :: 0 <= k < |it.w| && !(v.WVar? && k == v.at) ==> it.w[k] == 0.0
    ensures Cost(s, wt, goal, it) == match v {
              case XVar(node, i) => Quad(if node < s.np then wt.q else wt.s, VSub(it.x[node], goal.x[node]))
              case UVar(block, i) => Quad(wt.r, VSub(it.u[block], goal.u[block]))
              case WVar(at) => Mul(wt.w, Mul(it.w[at], it.w[at]))
            }
  {
    hide Quad, StateCost, ControlCost, SlackCost, Mul;
    var node, block := if v.XVar? then v.node else 0, if v.UVar? then v.block else 0;
    StatePrice(s, wt, it.x, goal.x, node, s.np + 1);
    ControlPrice(s, wt, it.u, goal.u, block, s.nc);
    if !v.XVar? { NoPrice(if node < s.np then wt.q else wt.s, it.x[node]); }
    if !v.UVar? { NoPrice(wt.r, it.u[block]); }
    if v.WVar? { SlackPrice(wt, it.w, v.at); } else { NoSlackPrice(wt, it.w); }
  }
}
