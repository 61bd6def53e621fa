/** The controller core: a cycle proposes a candidate and only a commit retains it. */
module Mpc {
  import opened Basics
  import opened Linear
  import opened QpLayout
  import opened QpRows
  import opened QpFeasible
  import opened QpCost
  import opened QpFill
  import opened QpAssembly
  import opened ProxQp
  import opened Barrier

  /** Slide a trajectory by one row and repeat its last row. */
  function Slide(x: seq<Vec>): (r: seq<Vec>)
    requires |x| > 0
    ensures |r| == |x| && r[|r| - 1] == x[|x| - 1]
    ensures forall k {:trigger r[k]} :: 0 <= k < |x| - 1 ==> r[k] == x[k + 1]
  {
    x[1..] + [x[|x| - 1]]
  }

  /** Where a cycle starts: states and controls slid by one, the first state the pose, the
      slacks as retained. */
  function WarmStart(s: Dims, it: Iterate, pose: Vec): (r: Iterate)
    requires ValidDims(s) && Fits(s, it) && |pose| == s.n
    ensures Fits(s, r) && r.x[0] == pose && r.w == it.w
    ensures s.nc == 1 ==> r.u == it.u
  {
    var x := Slide(it.x)[0 := pose];
    var u := if s.nc > 1 then Slide(it.u) else it.u;
    assert forall k {:trigger u[k]} :: 0 <= k < s.nc ==> |u[k]| == s.m;
    assert forall k {:trigger x[k]} :: 0 <= k < s.np + 1 ==> |x[k]| == s.n;
    Iterate(x, u, it.w)
  }

  /** A start slid by one node from a retained iterate: every state but the first and the last
      is the one retained a node later, the last is held, the first is the pose; controls
      alike, a single block standing still; and the slacks as retained. */
  ghost predicate Slid(s: Dims, it: Iterate, pose: Vec, r: Iterate) {
    && ValidDims(s) && Fits(s, it) && Fits(s, r) && r.x[0] == pose && r.w == it.w
    && (forall k {:trigger r.x[k]} :: 1 <= k < s.np ==> r.x[k] == it.x[k + 1])
    && r.x[s.np] == it.x[s.np]
    && (forall b {:trigger r.u[b]} :: 0 <= b < s.nc - 1 ==> r.u[b] == it.u[b + 1])
    && r.u[s.nc - 1] == it.u[s.nc - 1]
  }

  lemma WarmStartSlides(s: Dims, it: Iterate, pose: Vec)
    requires ValidDims(s) && Fits(s, it) && |pose| == s.n
    ensures Slid(s, it, pose, WarmStart(s, it, pose))
  {
  }

  /** There is one such start. */
  lemma SlidOnce(s: Dims, it: Iterate, pose: Vec, r: Iterate, q: Iterate)
    requires Slid(s, it, pose, r) && Slid(s, it, pose, q)
    ensures r == q
  {
    forall k | 0 <= k < s.np + 1 ensures r.x[k] == q.x[k] {}
    forall b | 0 <= b < s.nc ensures r.u[b] == q.u[b] {}
  }

  // ----- one cycle of programs

  /** One program of a cycle: the iterate it was assembled about, what the solver was handed
      and what it answered. */
  datatype Turn = Turn(at: Iterate, program: Program, answer: Answer)

  /** The program is the problem's about that iterate, the answer is the solver's at its
      k-th call, and a solved answer meets every constraint. */
  ghost predicate Took(pb: Problem, solver: Solver, k: nat, t: Turn)
    requires ValidProblem(pb)
  {
    && Fits(pb.g.dims, t.at) && Poses(pb, t.at, t.program)
    && t.answer == solver(t.program, k) && |t.answer.d| == Vars(pb.g.dims)
    && (t.answer.solved ==> Meets(pb, t.at, t.answer.d))
  }

  /** Where a program leaves the candidate. */
  ghost function After(pb: Problem, t: Turn): (r: Iterate)
    requires ValidProblem(pb) && Fits(pb.g.dims, t.at) && |t.answer.d| == Vars(pb.g.dims)
    ensures Fits(pb.g.dims, r)
  {
    Step(pb.g.dims, t.at, t.answer.d)
  }

  /** The programs of a cycle in order: each is assembled where the one before left the
      candidate, and only the last may be solved. */
  ghost predicate Chained(pb: Problem, start: Iterate, solver: Solver, first: nat, log: seq<Turn>)
    requires ValidProblem(pb)
  {
    && |log| > 0 && log[0].at == start
    && (forall j :: 0 <= j < |log| ==> Took(pb, solver, first + j, log[j]))
    && (forall j :: 0 <= j < |log| - 1 ==> !log[j].answer.solved && log[j + 1].at == After(pb, log[j]))
  }

  predicate AllFinite(log: seq<Turn>) { forall j :: 0 <= j < |log| ==> log[j].answer.finite }

  lemma AllFiniteNext(log: seq<Turn>, t: Turn)
    ensures AllFinite([]) && (AllFinite(log + [t]) <==> AllFinite(log) && t.answer.finite)
  {
    if AllFinite(log + [t]) {
      assert (log + [t])[|log|] == t;
      forall j | 0 <= j < |log| ensures log[j].answer.finite { assert (log + [t])[j] == log[j]; }
    }
  }

  /** How far the programs of a cycle moved component i of the first state. */
  ghost function Drift(s: Dims, log: seq<Turn>, i: nat): real
    requires ValidDims(s) && i < s.n && forall j :: 0 <= j < |log| ==> |log[j].answer.d| == Vars(s)
  {
    if log == [] then 0.0 else Drift(s, log[..|log| - 1], i) + StateStep(s, log[|log| - 1].answer.d, 0)[i]
  }

  /** However many programs a cycle takes, its first state is the one it started from plus
      the first-state increments of all of them. */
  lemma {:induction false} FirstStateDrifts(pb: Problem, start: Iterate, solver: Solver, first: nat, log: seq<Turn>, i: nat)
    requires ValidProblem(pb) && Chained(pb, start, solver, first, log) && i < pb.g.dims.n && |start.x| > 0 && |start.x[0]| == pb.g.dims.n
    ensures After(pb, log[|log| - 1]).x[0][i] == start.x[0][i] + Drift(pb.g.dims, log, i)
  {
    hide Times, Vars, Slacks, Meets, Poses, ValidDynamics, FitWeights, FitGoals, FitBounds, WStart, Step, StateStep;
    var s, last := pb.g.dims, |log| - 1;
    assert Took(pb, solver, first + last, log[last]);
    if last > 0 {
      assert Took(pb, solver, first + (last - 1), log[last - 1]);
      FirstStateDrifts(pb, start, solver, first, log[..last], i);
    } else {
      assert log[..0] == [];
    }
  }

  /** A solved cycle: the last program leaves the first state alone, so what remains is the
      drift of the unsolved ones before it; and every box, rate chain and first-control rate
      bound about the applied control holds. */
  lemma SolvedCycle(pb: Problem, start: Iterate, solver: Solver, first: nat, log: seq<Turn>)
    requires ValidProblem(pb) && Fits(pb.g.dims, start) && Chained(pb, start, solver, first, log) && log[|log| - 1].answer.solved
    ensures InsideBounds(pb.g, After(pb, log[|log| - 1]), pb.applied)
    ensures forall i :: 0 <= i < pb.g.dims.n ==> After(pb, log[|log| - 1]).x[0][i] == start.x[0][i] + Drift(pb.g.dims, log[..|log| - 1], i)
  {
    hide Times, Vars, Slacks, Poses, InsideBounds, IneqHold, EqHold, Step, ValidDynamics, FitWeights, FitGoals, FitBounds, WStart;
    var last := |log| - 1;
    var t := log[last];
    assert Took(pb, solver, first + last, t);
    SolvedInsideBounds(pb.g, pb.root, pb.obs, t.at, pb.applied, t.answer.d);
    SolvedPinned(pb.g, pb.dyn, t.at, t.answer.d);
    if last > 0 {
      var shorter := log[..last];
      assert Chained(pb, start, solver, first, shorter) && t.at == After(pb, shorter[last - 1]);
      forall i | 0 <= i < pb.g.dims.n ensures After(pb, t).x[0][i] == start.x[0][i] + Drift(pb.g.dims, log[..last], i) {
        FirstStateDrifts(pb, start, solver, first, shorter, i);
      }
    }
  }

  /** When the first program is solved the candidate starts where the cycle did, and for a
      model with an affine step it obeys the step at every node. */
  lemma SolvedAtFirst(pb: Problem, start: Iterate, solver: Solver, first: nat, log: seq<Turn>, f: (Vec, Vec) -> Vec)
    requires ValidProblem(pb) && Chained(pb, start, solver, first, log) && log[0].answer.solved && AffineStep(pb.g.dims, pb.dyn, pb.g.dt, f)
    ensures |log| == 1 && After(pb, log[0]).x[0] == start.x[0]
    ensures var t := After(pb, log[0]);
            forall node {:trigger t.x[node]} :: 0 <= node < pb.g.dims.np ==> t.x[node + 1] == f(t.x[node], t.u[HeldBlock(pb.g.dims, node)])
  {
    hide Times, Vars, Slacks, Poses, IneqHold, EqHold, Step, AffineStep, ValidDynamics, FitWeights, FitGoals, FitBounds, WStart;
    assert Took(pb, solver, first + 0, log[0]);
    SolvedPinned(pb.g, pb.dyn, start, log[0].answer.d);
    var t := After(pb, log[0]);
    forall node {:trigger t.x[node]} | 0 <= node < pb.g.dims.np ensures t.x[node + 1] == f(t.x[node], t.u[HeldBlock(pb.g.dims, node)]) {
      SolvedDynamics(pb.g, pb.dyn, start, log[0].answer.d, f, node);
    }
  }

  /** The clearance the barrier promises a trajectory at a node: (1 - gamma)^(k+1) of the
      clearance at its first state, less the discounted slacks. */
  ghost predicate GuardedAt(g: Config, root: real -> real, obs: seq<Disc>, t: Iterate, node: nat, slot: nat)
    requires ValidConfig(g) && Fits(g.dims, t) && g.dims.obstacles && |obs| == Slacks(g.dims) && node < g.dims.np && slot < g.dims.k
  {
    var q := 1.0 - g.gamma;
    Clearance(g, root, t.x, obs, node, slot)
    >= Mul(Power(q, node + 1), ClearanceNow(g, root, t.x, obs, slot)) - Discounted(g.dims, t.w, slot, q, node, node + 1)
  }

  /** The barrier along a whole trajectory: it is guarded at every node up to which a slot
      is filled and separated from the states the rows were linearised about. */
  ghost predicate Guarded(g: Config, root: real -> real, obs: seq<Disc>, about: seq<Vec>, t: Iterate)
    requires ValidConfig(g) && Fits(g.dims, t) && IsMat(about, g.dims.np + 1, g.dims.n) && (g.dims.obstacles ==> |obs| == Slacks(g.dims))
  {
    g.dims.obstacles && IsRoot(root) ==>
      forall node: nat, slot: nat {:trigger GuardedAt(g, root, obs, t, node, slot)} ::
        node < g.dims.np && slot < g.dims.k && Separated(g, root, about, obs, node, slot) ==> GuardedAt(g, root, obs, t, node, slot)
  }

  /** The barrier of a solved cycle, about the iterate of its last program. */
  lemma SolvedKeepsOut(pb: Problem, solver: Solver, k: nat, t: Turn)
    requires ValidProblem(pb) && Took(pb, solver, k, t) && t.answer.solved
    ensures Guarded(pb.g, pb.root, pb.obs, t.at.x, After(pb, t))
  {
    hide Times, Vars, Slacks, Poses, IneqHold, EqHold, Step, Mul, Power, Discounted, Clearance, ClearanceNow, Separated, ValidDynamics;
    var g, r := pb.g, After(pb, t);
    if g.dims.obstacles && IsRoot(pb.root) {
      forall node: nat, slot: nat {:trigger GuardedAt(g, pb.root, pb.obs, r, node, slot)} |
        node < g.dims.np && slot < g.dims.k && Separated(g, pb.root, t.at.x, pb.obs, node, slot)
        ensures GuardedAt(g, pb.root, pb.obs, r, node, slot)
      {
        HorizonKeepOut(g, pb.root, pb.dyn, pb.obs, t.at, pb.applied, t.answer.d, node, slot);
      }
    }
  }

  /** What a solved cycle delivers: every bound of the problem, the first-control rate bound
      about the anchor included; the barrier over the horizon about the iterate of the last
      program; and a first state that is the pose plus the drift of the unsolved programs. */
  ghost predicate Delivers(g: Config, root: real -> real, obs: seq<Disc>, pose: Vec, anchor: Vec, log: seq<Turn>, t: Iterate) {
    && ValidConfig(g) && Fits(g.dims, t) && |pose| == g.dims.n && |anchor| == g.dims.m && |log| > 0
    && (g.dims.obstacles ==> |obs| == Slacks(g.dims))
    && (forall j {:trigger log[j]} :: 0 <= j < |log| ==> Fits(g.dims, log[j].at) && |log[j].answer.d| == Vars(g.dims))
    && InsideBounds(g, t, anchor)
    && Guarded(g, root, obs, log[|log| - 1].at.x, t)
    && (forall i :: 0 <= i < g.dims.n ==> t.x[0][i] == pose[i] + Drift(g.dims, log[..|log| - 1], i))
  }

  /** The programs of one cycle about the retained iterate and the measured pose. */
  ghost predicate CycleOf(pb: Problem, kept: Iterate, pose: Vec, solver: Solver, first: nat, log: seq<Turn>) {
    && ValidProblem(pb) && Fits(pb.g.dims, kept) && |pose| == pb.g.dims.n
    && Chained(pb, WarmStart(pb.g.dims, kept, pose), solver, first, log)
  }

  predicate AtPose(t: Iterate, pose: Vec) { |t.x| > 0 && t.x[0] == pose }

  /** A cycle whose last program is solved delivers. */
  lemma CycleDelivers(pb: Problem, kept: Iterate, pose: Vec, solver: Solver, first: nat, log: seq<Turn>)
    requires CycleOf(pb, kept, pose, solver, first, log) && log[|log| - 1].answer.solved
    ensures Delivers(pb.g, pb.root, pb.obs, pose, pb.applied, log, After(pb, log[|log| - 1]))
  {
    hide Times, Vars, Slacks, InsideBounds, Guarded, Meets, Poses, Step, Drift, After, ValidDynamics, FitWeights, FitGoals, FitBounds;
    var start, last := WarmStart(pb.g.dims, kept, pose), |log| - 1;
    assert forall j {:trigger log[j]} :: 0 <= j < |log| ==> Took(pb, solver, first + j, log[j]);
    SolvedCycle(pb, start, solver, first, log);
    SolvedKeepsOut(pb, solver, first + last, log[last]);
  }

  /** Without obstacle rows it does not matter which discs are set. */
  lemma DiscsUnseen(g: Config, root: real -> real, obs: seq<Disc>, other: seq<Disc>, pose: Vec, anchor: Vec, log: seq<Turn>, t: Iterate)
    requires Delivers(g, root, obs, pose, anchor, log, t) && !g.dims.obstacles
    ensures Delivers(g, root, other, pose, anchor, log, t)
  {
    hide Vars, InsideBounds, Drift;
  }

  /** One program alone moves nothing. */
  lemma FirstStateKept(g: Config, root: real -> real, obs: seq<Disc>, pose: Vec, anchor: Vec, log: seq<Turn>, t: Iterate)
    requires Delivers(g, root, obs, pose, anchor, log, t) && |log| == 1
    ensures AtPose(t, pose)
  {
    hide InsideBounds, Guarded, Vars, Slacks;
    assert log[..0] == [];
    NoDrift(g.dims);
  }

  /** A program assembled where the log ends, or where the cycle starts, extends it. */
  lemma ChainNext(pb: Problem, start: Iterate, solver: Solver, first: nat, log: seq<Turn>, t: Turn)
    requires ValidProblem(pb) && Took(pb, solver, first + |log|, t)
    requires log == [] ==> t.at == start
    requires log != [] ==> Chained(pb, start, solver, first, log) && !log[|log| - 1].answer.solved && t.at == After(pb, log[|log| - 1])
    ensures Chained(pb, start, solver, first, log + [t])
  {
    hide Times, Vars, Took, After, ValidProblem;
  }

  class MPC {
    const qp: ProxQP
    var it: Iterate
    var u0: Vec
    /** Whether every number of the retained iterate is finite. */
    var finite: bool
    var cand: Iterate
    var candU0: Vec
    var candSolved: bool
    var candFinite: bool
    var pose: Vec
    var goal: Goals
    var obs: seq<Disc>
    var maxIterSqp: nat
    var sqpIter: nat

    ghost predicate Valid()
      reads this, qp, qp.h, qp.b, qp.e, qp.ineq
    {
      && qp.Valid() && Modelled() && Fits(qp.g.dims, it) && Fits(qp.g.dims, cand)
      && |u0| == qp.g.dims.m && |candU0| == qp.g.dims.m && |pose| == qp.g.dims.n && FitGoals(qp.g.dims, goal)
      && (qp.g.dims.obstacles ==> |obs| == Slacks(qp.g.dims))
    }

    ghost predicate Modelled()
      reads qp
    {
      ValidConfig(qp.g) && ValidDynamics(qp.g.dims, qp.dyn)
    }

    /** A fresh controller: zero trajectories, and a rate anchor of zero. */
    constructor (qp: ProxQP, goal: Goals, maxIterSqp: nat)
      requires qp.Valid() && qp.Sized() && FitGoals(qp.g.dims, goal)
      ensures Valid() && this.qp == qp && it == ZeroIterate(qp.g.dims) && u0 == Zeros(qp.g.dims.m) && finite
      ensures !candSolved && !candFinite && this.maxIterSqp == maxIterSqp && this.goal == goal
    {
      hide ProxQP.Valid, Vars, Slacks;
      assert ValidConfig(qp.g) && ValidDynamics(qp.g.dims, qp.dyn);
      var s := qp.g.dims;
      this.qp := qp;
      it, cand := ZeroIterate(s), ZeroIterate(s);
      u0, candU0, pose := Zeros(s.m), Zeros(s.m), Zeros(s.n);
      finite, candSolved, candFinite := true, false, false;
      this.goal, this.maxIterSqp, sqpIter := goal, maxIterSqp, 0;
      obs := seq(Slacks(s), k => Disc(FAR_SENTINEL, FAR_SENTINEL, 0.0));
    }

    /** The control the next cycle's rate constraint is anchored on. */
    method SetU0(u: Vec)
      requires Valid() && |u| == qp.g.dims.m
      modifies this`u0
      ensures Valid() && u0 == u
    {
      u0 := u;
    }

    /** The pose, the references and the discs of the coming cycle. */
    method SetCycle(pose: Vec, goal: Goals, obs: seq<Disc>)
      requires Valid() && |pose| == qp.g.dims.n && FitGoals(qp.g.dims, goal) && (qp.g.dims.obstacles ==> |obs| == Slacks(qp.g.dims))
      modifies this`pose, this`goal, this`obs
      ensures Valid() && this.pose == pose && this.goal == goal && this.obs == obs
    {
      hide ProxQP.Valid, Slacks, ValidConfig, ValidDynamics;
      this.pose, this.goal, this.obs := pose, goal, obs;
    }

    /** The model's bounds moved: other values for the same components. */
    method ChangeBounds(bounds: Bounds)
      requires Valid() && SameIndices(qp.g.bounds, bounds)
      modifies qp`g
      ensures Valid() && qp.g == old(qp.g).(bounds := bounds)
    {
      hide ProxQP.Valid, Vars, Slacks, ValidDynamics;
      BoundsFit(qp.g, bounds);
      qp.ChangeBounds(bounds);
    }

    /** The problem of the cycle under way. */
    ghost function Cycle(): Problem
      reads this, qp
    {
      qp.Posing(u0, goal)
    }

    /** Between two programs of a cycle. */
    ghost predicate Ready()
      reads this, qp, qp.h, qp.b, qp.e, qp.ineq
    {
      && Valid() && qp.obs == obs && |qp.Seen()| == Slacks(qp.g.dims) && ValidProblem(Cycle())
      && (sqpIter == 0 ==> cand == WarmStart(qp.g.dims, it, pose) && candFinite == finite)
    }

    /** After the programs of a log, the candidate is where the last one left it. */
    ghost predicate Cycled(solver: Solver, first: nat, log: seq<Turn>)
      reads this, qp, qp.h, qp.b, qp.e, qp.ineq
    {
      && Ready() && sqpIter == |log| && qp.calls == first + |log|
      && CycleOf(Cycle(), it, pose, solver, first, log)
      && cand == After(Cycle(), log[|log| - 1]) && candSolved == log[|log| - 1].answer.solved
      && candFinite == (finite && AllFinite(log))
    }

    /** One program: assemble at the candidate, solve, add the increments. */
    method Advance(solver: Solver) returns (ghost t: Turn)
      requires Ready() && Trusted(solver, Vars(qp.g.dims))
      modifies this`cand, this`candSolved, this`candFinite, this`sqpIter
      modifies qp`eSparse, qp`cSparse, qp`calls, qp.c, qp.e, qp.b, qp.ineq, qp.low, qp.upp, qp.obsH, qp.obsHPrev
      ensures Ready() && sqpIter == old(sqpIter) + 1 && qp.calls == old(qp.calls) + 1
      ensures Took(Cycle(), solver, old(qp.calls), t) && t.at == old(cand)
      ensures cand == After(Cycle(), t) && candSolved == t.answer.solved && candFinite == (old(candFinite) && t.answer.finite)
    {
      hide Times, Vars, Slacks, Meets, Poses, Step, Trusted, ProxQP.Valid, ProxQP.Sized, ProxQP.Assembled, WarmStart, Increments, ValidProblem;
      var answer, inc, program := qp.Solve(cand, u0, goal, solver);
      t := Turn(cand, program, answer);
      Accumulate(answer, inc);
    }

    /** Add the increments and note how the program ended. */
    method Accumulate(answer: Answer, inc: Iterate)
      requires Ready() && |answer.d| == Vars(qp.g.dims) && inc == Increments(qp.g.dims, answer.d)
      modifies this`cand, this`candSolved, this`candFinite, this`sqpIter
      ensures Ready() && sqpIter == old(sqpIter) + 1
      ensures cand == Step(qp.g.dims, old(cand), answer.d) && candSolved == answer.solved && candFinite == (old(candFinite) && answer.finite)
    {
      hide Times, Vars, Slacks, Step, ProxQP.Valid, ProxQP.Sized, WarmStart, Increments, ValidProblem;
      AddIsStep(qp.g.dims, cand, answer.d);
      cand := AddIterate(qp.g.dims, cand, inc);
      candFinite := candFinite && answer.finite;
      candSolved := answer.solved;
      sqpIter := sqpIter + 1;
    }

    /** One more program on the log of a cycle. */
    method Proceed(solver: Solver, ghost first: nat, ghost log: seq<Turn>) returns (ghost longer: seq<Turn>)
      requires Trusted(solver, Vars(qp.g.dims))
      requires if log == [] then Ready() && sqpIter == 0 && qp.calls == first else Cycled(solver, first, log) && !candSolved
      modifies this`cand, this`candSolved, this`candFinite, this`sqpIter
      modifies qp`eSparse, qp`cSparse, qp`calls, qp.c, qp.e, qp.b, qp.ineq, qp.low, qp.upp, qp.obsH, qp.obsHPrev
      ensures Cycled(solver, first, longer) && |longer| == |log| + 1 && log <= longer && sqpIter == |longer|
    {
      hide Times, Vars, Slacks, Trusted, ProxQP.Valid, ProxQP.Sized, WarmStart, Took, Chained, After, ValidDynamics, FitBounds, FitGoals, FitWeights;
      ghost var t := Advance(solver);
      longer := log + [t];
      AllFiniteNext(log, t);
      hide AllFinite;
      ChainNext(Cycle(), WarmStart(qp.g.dims, it, pose), solver, first, log, t);
    }

    /** Start a cycle: the warm start into the candidate, the discs into the solver. */
    method Begin()
      requires Valid()
      modifies this`cand, this`candSolved, this`candFinite, this`sqpIter, qp`obs
      ensures Ready() && sqpIter == 0 && Slid(qp.g.dims, it, pose, cand)
    {
      hide Times, Vars, Slacks, ProxQP.Valid, ProxQP.Sized, WarmStart;
      WarmStartSlides(qp.g.dims, it, pose);
      cand := WarmStart(qp.g.dims, it, pose);
      candFinite, candSolved, sqpIter := finite, false, 0;
      qp.SetObs(obs);
      SeenFits(qp.g.dims);
      CycleValid(this);
    }

    /** Run one cycle on the candidate copies: solve, add the increments, and repeat until
        a program is solved, the iteration cap is reached or time is up. The retained
        iterate and the rate anchor are not touched. The ghost result is the programs in
        order. A solved candidate meets every bound of the problem, and its first state is
        the pose plus the drift of the unsolved programs, so it is the pose itself under a
        cap of at most one. */
    method SolveCandidate(solver: Solver, late: nat -> bool) returns (ghost log: seq<Turn>)
      requires Valid() && Trusted(solver, Vars(qp.g.dims))
      modifies this`cand, this`candU0, this`candSolved, this`candFinite, this`sqpIter
      modifies qp`eSparse, qp`cSparse, qp`calls, qp`obs, qp.c, qp.e, qp.b, qp.ineq, qp.low, qp.upp, qp.obsH, qp.obsHPrev
      ensures Cycled(solver, old(qp.calls), log) && candU0 == cand.u[0] && |log| > 0
      ensures Slid(qp.g.dims, it, pose, log[0].at)
      ensures !candSolved && !late(sqpIter) ==> sqpIter >= maxIterSqp
      ensures sqpIter == 1 || sqpIter <= maxIterSqp
      ensures candSolved ==> Delivers(qp.g, qp.root, obs, pose, u0, log, cand)
      ensures candSolved && maxIterSqp <= 1 ==> AtPose(cand, pose)
    {
      hide Times, Vars, Slacks, Ready, Cycled, Trusted, ProxQP.Valid, ProxQP.Sized, WarmStart, MPC.Valid, Delivers;
      ghost var first := qp.calls;
      Begin();
      log := Proceed(solver, first, []);
      while !candSolved && sqpIter < maxIterSqp && !late(sqpIter)
        invariant Cycled(solver, first, log) && sqpIter == |log| && log != []
        invariant sqpIter == 1 || sqpIter <= maxIterSqp
      {
        log := Proceed(solver, first, log);
      }
      TakeFirst(solver, first, log);
      StartsSlid(this, solver, first, log);
      if candSolved { CandidateMeans(this, solver, first, log); }
    }

    /** The control the cycle is about to decide. */
    method TakeFirst(ghost solver: Solver, ghost first: nat, ghost log: seq<Turn>)
      requires Cycled(solver, first, log)
      modifies this`candU0
      ensures Cycled(solver, first, log) && candU0 == cand.u[0]
    {
      hide Times, Vars, Slacks, WarmStart, ProxQP.Valid, ProxQP.Sized, Step, Took, ValidProblem;
      candU0 := cand.u[0];
    }

    /** Retain the candidate, but only one that both converged and is finite. */
    method CommitCandidate() returns (retained: bool)
      requires Valid() && candU0 == cand.u[0]
      modifies this`it, this`u0, this`finite
      ensures Valid() && retained == (candSolved && candFinite)
      ensures retained ==> it == cand && u0 == cand.u[0] && finite
      ensures !retained ==> it == old(it) && u0 == old(u0) && finite == old(finite)
    {
      if !candSolved || !candFinite { return false; }
      it, u0, finite := cand, candU0, true;
      return true;
    }

    /** Propose and commit in one call: the increments are kept whatever the solver
        reported, and the rate anchor advances only on a solved program. */
    method Solve(solver: Solver, late: nat -> bool)
      requires Valid() && Trusted(solver, Vars(qp.g.dims))
      modifies this`it, this`u0, this`finite, this`cand, this`candU0, this`candSolved, this`candFinite, this`sqpIter
      modifies qp`eSparse, qp`cSparse, qp`calls, qp`obs, qp.c, qp.e, qp.b, qp.ineq, qp.low, qp.upp, qp.obsH, qp.obsHPrev
      ensures Valid() && it == cand && finite == candFinite
      ensures candSolved ==> u0 == it.u[0] && InsideBounds(qp.g, it, old(u0))
      ensures !candSolved ==> u0 == old(u0)
    {
      hide Times, Vars, Slacks, Trusted, ProxQP.Valid, ProxQP.Sized, WarmStart, InsideBounds, CycleOf, Cycled, Delivers, ValidConfig, ValidDynamics;
      ghost var log := SolveCandidate(solver, late);
      CycledValid(this, solver, old(qp.calls), log);
      it, finite := cand, candFinite;
      if candSolved { u0 := candU0; }
    }
  }

  /** What a solved candidate satisfies, however many programs it took. */
  lemma CandidateMeans(core: MPC, solver: Solver, first: nat, log: seq<Turn>)
    requires core.Cycled(solver, first, log) && core.candSolved
    ensures Delivers(core.qp.g, core.qp.root, core.obs, core.pose, core.u0, log, core.cand)
    ensures |log| == 1 ==> AtPose(core.cand, core.pose)
  {
    hide Vars, Slacks, Chained, Delivers, ProxQP.Valid, ProxQP.Sized, After, WarmStart;
    CycleDelivers(core.Cycle(), core.it, core.pose, solver, first, log);
    if !core.qp.g.dims.obstacles { DiscsUnseen(core.qp.g, core.qp.root, core.qp.Seen(), core.obs, core.pose, core.u0, log, core.cand); }
    if |log| == 1 { FirstStateKept(core.qp.g, core.qp.root, core.obs, core.pose, core.u0, log, core.cand); }
  }

  /** The first program of a cycle is assembled about the slid iterate. */
  lemma StartsSlid(core: MPC, solver: Solver, first: nat, log: seq<Turn>)
    requires core.Cycled(solver, first, log)
    ensures |log| > 0 && Slid(core.qp.g.dims, core.it, core.pose, log[0].at)
  {
    hide Vars, Slacks, Took, ProxQP.Valid, ProxQP.Sized, After, WarmStart;
    WarmStartSlides(core.qp.g.dims, core.it, core.pose);
  }

  lemma BoundsFit(g: Config, bounds: Bounds)
    requires ValidConfig(g) && SameIndices(g.bounds, bounds)
    ensures ValidConfig(g.(bounds := bounds))
  {
  }

  lemma CycledValid(core: MPC, solver: Solver, first: nat, log: seq<Turn>)
    requires core.Cycled(solver, first, log)
    ensures core.Valid() && core.Modelled()
    ensures Fits(core.qp.g.dims, core.cand) && |core.u0| == core.qp.g.dims.m && |core.cand.u| > 0 && |core.cand.u[0]| == core.qp.g.dims.m
    ensures Delivers(core.qp.g, core.qp.root, core.obs, core.pose, core.u0, log, core.cand) ==> InsideBounds(core.qp.g, core.cand, core.u0)
  {
    hide InsideBounds, Guarded, Vars, Slacks, CycleOf, ProxQP.Valid, ValidDynamics, After;
  }

  lemma CycleValid(core: MPC)
    requires core.Valid() && |core.qp.Seen()| == Slacks(core.qp.g.dims)
    ensures ValidProblem(core.Cycle())
  {
    hide Vars, Slacks, FitGoals, FitWeights, ValidDynamics;
  }

  lemma SeenFits(s: Dims)
    ensures !s.obstacles ==> Slacks(s) == 0
  {
  }

  lemma NoDrift(s: Dims)
    requires ValidDims(s)
    ensures forall i :: 0 <= i < s.n ==> Drift(s, [], i) == 0.0
  {
  }
}
