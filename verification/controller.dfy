/** The controller object: the gates of one cycle in order, around the core. */
module Controller {
  import opened Basics
  import opened Linear
  import opened QpLayout
  import opened QpRows
  import opened QpFeasible
  import opened QpCost
  import opened ProxQp
  import opened Mpc
  import opened Cycle

  /** What one call of the cycle is given or finds in the world; `blocked` and `leg` are the
      footprint check and the distance travelled along a candidate's nodes. */
  datatype Input = Input(
    limitOk: bool, poseFinite: bool, planEmpty: bool, tfFails: bool, planFinite: bool,
    pose: Vec, goal: Goals, obs: seq<Disc>,
    footprint: nat, blocked: Iterate -> seq<bool>, leg: Iterate -> seq<real>,
    measured: seq<Option<real>>, period: Option<real>, velocity: (Option<real>, Option<real>), twist: Vec -> Twist)

  predicate FitInput(s: Dims, i: Input) {
    |i.pose| == s.n && FitGoals(s, i.goal) && (s.obstacles ==> |i.obs| == Slacks(s))
  }

  /** The footprint check answers once per node, and distances are not negative. */
  ghost predicate Surveys(s: Dims, i: Input) {
    forall c: Iterate {:trigger i.blocked(c)} {:trigger i.leg(c)} :: Fits(s, c) ==>
      && |i.blocked(c)| == s.np + 1 && |i.leg(c)| == s.np + 1
      && forall k :: 0 <= k < |i.leg(c)| ==> i.leg(c)[k] >= 0.0
  }

  const CANCEL_STOP_EPSILON := 0.01

  class ProxMpcController {
    const core: MPC
    const limits: Limits
    const idxV: nat
    const idxSteer: nat
    var lastU: Vec
    var failures: nat
    var vetoes: nat
    var cancelling: bool
    var steer: real
    var v: real
    var w: real

    ghost predicate Valid()
      reads this, core, core.qp, core.qp.h, core.qp.b, core.qp.e, core.qp.ineq
    {
      && core.Valid() && Shaped()
    }

    ghost predicate Shaped()
      reads this, core, core.qp
    {
      && core.Modelled() && Fits(core.qp.g.dims, core.it) && Fits(core.qp.g.dims, core.cand) && |core.u0| == core.qp.g.dims.m
      && |lastU| == core.qp.g.dims.m && ValidLimits(limits, core.qp.g.dims.m) && idxV < core.qp.g.dims.m && idxSteer < core.qp.g.dims.n
    }

    constructor (core: MPC, limits: Limits, idxV: nat, idxSteer: nat)
      requires core.Valid() && core.Modelled() && ValidLimits(limits, core.qp.g.dims.m) && idxV < core.qp.g.dims.m && idxSteer < core.qp.g.dims.n
      ensures Valid() && this.core == core && this.limits == limits && this.idxV == idxV && this.idxSteer == idxSteer
      ensures Now() == State(Zeros(core.qp.g.dims.m), core.u0, core.it, 0, 0, false, 0.0, 0.0, 0.0)
    {
      hide MPC.Valid, ValidDynamics, ValidConfig;
      CoreShape(core);
      this.core, this.limits, this.idxV, this.idxSteer := core, limits, idxV, idxSteer;
      lastU, failures, vetoes, cancelling := Zeros(core.qp.g.dims.m), 0, 0, false;
      steer, v, w := 0.0, 0.0, 0.0;
    }

    /** The model's bounds moved; nothing the run remembers changes. */
    method ChangeBounds(bounds: Bounds)
      requires Valid() && SameIndices(core.qp.g.bounds, bounds)
      modifies core.qp`g
      ensures Valid() && Now() == old(Now()) && core.qp.g == old(core.qp.g).(bounds := bounds)
    {
      hide MPC.Valid, ValidDynamics, ValidConfig;
      core.ChangeBounds(bounds);
      CoreShape(core);
    }

    /** The state of the run. */
    function Now(): State
      reads this, core
    {
      State(lastU, core.u0, core.it, failures, vetoes, cancelling, steer, v, w)
    }

    /** The shared deceleration ramp: brake every channel, tell the core, keep the twist. */
    method MakeBrake(i: Input, ghost e: Event) returns (r: Result)
      requires Valid() && FitEvent(e, |lastU|)
      requires e.measured == i.measured && e.period == i.period && e.velocity == i.velocity && e.twist == i.twist
      modifies this`lastU, this`steer, this`v, this`w, core`u0
      ensures Valid() && Now() == Braked(limits, old(Now()), e) && r == Command(BrakeU(limits, old(Now()), e))
    {
      hide MPC.Valid, ValidDynamics, ValidConfig, BrakeToward;
      var period := Period(limits, i.period);
      if limits.steering {
        steer := BrakeToward(Some(steer), Some(limits.steerLow), Some(limits.steerUpp), period);
      }
      var u := [];
      for j := 0 to |lastU|
        invariant |u| == j
        invariant forall k :: 0 <= k < j ==> u[k] == BrakeToward(Some(Seed(lastU, i.measured, k)), limits.duLow[k], limits.duUpp[k], period)
      {
        u := u + [BrakeToward(Some(Seed(lastU, i.measured, j)), limits.duLow[j], limits.duUpp[j], period)];
      }
      assert u == BrakeU(limits, old(Now()), e);
      lastU := u;
      var t := i.twist(u);
      if !t.finite {
        t := Twist(BrakeToward(i.velocity.0, Some(limits.rampLin), Some(limits.rampLin), period),
                   BrakeToward(i.velocity.1, Some(limits.rampAng), Some(limits.rampAng), period), true);
      }
      v, w := t.v, t.w;
      core.SetU0(u);
      return Command(u);
    }

    /** A new task. The core keeps its anchor and its iterate. */
    method Reset()
      requires Valid()
      modifies this`lastU, this`steer, this`v, this`w, this`failures, this`vetoes, this`cancelling
      ensures Valid() && Now() == Cycle.Reset(old(Now()))
    {
      hide MPC.Valid, ValidDynamics, ValidConfig;
      failures, vetoes, cancelling := 0, 0, false;
      lastU, steer, v, w := Zeros(|lastU|), 0.0, 0.0, 0.0;
    }

    /** Ask for a stop. It is granted, and the request dropped, once the twist last sent is
        below the standstill threshold; until then every cycle decelerates. */
    method Cancel() returns (stopped: bool)
      requires Valid()
      modifies this`cancelling
      ensures Valid() && stopped == (Abs(v) < CANCEL_STOP_EPSILON && Abs(w) < CANCEL_STOP_EPSILON)
      ensures Now() == old(Now()).(cancelling := !stopped)
    {
      hide MPC.Valid, ValidDynamics, ValidConfig;
      cancelling := true;
      if Abs(v) < CANCEL_STOP_EPSILON && Abs(w) < CANCEL_STOP_EPSILON {
        cancelling := false;
        return true;
      }
      return false;
    }

    /** A cycle with a given verdict, as the run records it. */
    ghost function EventOf(verdict: Verdict, i: Input): (e: Event)
      requires Shaped()
      reads this, core, core.qp
      ensures FitEvent(e, |lastU|) && e.verdict == verdict && e.cand == core.cand
      ensures |core.cand.x| > 1 && idxSteer < |core.cand.x[1]| && e.steerNext == core.cand.x[1][idxSteer]
      ensures e.measured == i.measured && e.period == i.period && e.velocity == i.velocity && e.twist == i.twist
    {
      Event(verdict, core.cand, core.cand.x[1][idxSteer], i.measured, i.period, i.velocity, i.twist)
    }

    /** A transient failure: count it, escalate past the budget, otherwise decelerate. */
    method Fail(i: Input) returns (r: Result)
      requires Valid()
      modifies this`lastU, this`steer, this`v, this`w, this`failures, core`u0
      ensures Valid() && (Now(), r) == Next(limits, old(Now()), old(EventOf(Verdict.Fail, i)))
    {
      hide MPC.Valid, ValidDynamics, ValidConfig, Braked, BrakeU;
      ghost var e := EventOf(Verdict.Fail, i);
      failures := failures + 1;
      if failures > limits.budget { return NoValidControl; }
      r := MakeBrake(i, e);
    }

    /** A footprint veto: counted apart from the failures, with the same budget. */
    method Veto(i: Input) returns (r: Result)
      requires Valid()
      modifies this`lastU, this`steer, this`v, this`w, this`vetoes, core`u0
      ensures Valid() && (Now(), r) == Next(limits, old(Now()), old(EventOf(Vetoed, i)))
    {
      hide MPC.Valid, ValidDynamics, ValidConfig, Braked, BrakeU;
      ghost var e := EventOf(Vetoed, i);
      vetoes := vetoes + 1;
      if vetoes > limits.budget { return NoValidControl; }
      r := MakeBrake(i, e);
    }

    /** The problem a cycle poses for its input. */
    ghost function Asked(i: Input): Problem
      reads this, core, core.qp
    {
      Problem(core.qp.g, core.qp.root, core.qp.dyn, core.qp.wt, if core.qp.g.dims.obstacles then i.obs else [], core.u0, i.goal)
    }

    /** The candidate meets a lethal cell before it could stop. */
    ghost predicate Blocked(i: Input)
      requires Shaped() && |core.candU0| == core.qp.g.dims.m
      reads this, core, core.qp
    {
      && i.footprint >= 3 && |i.blocked(core.cand)| == |i.leg(core.cand)|
      && exists node :: 0 < node < |i.leg(core.cand)| && i.blocked(core.cand)[node]
                        && WithinStop(i.leg(core.cand), StopDistance(Abs(core.candU0[idxV]), limits.rampLin), node)
    }

    method FootprintCheck(i: Input) returns (vetoed: bool)
      requires Shaped() && |core.candU0| == core.qp.g.dims.m && Surveys(core.qp.g.dims, i)
      ensures vetoed == Blocked(i)
    {
      hide ValidDynamics, ValidConfig, Travelled, StopDistance;
      if i.footprint < 3 { return false; }
      vetoed := VetoWalk(i.blocked(core.cand), i.leg(core.cand), StopDistance(Abs(core.candU0[idxV]), limits.rampLin));
    }

    /** Propose a candidate; nothing the run remembers changes. */
    method Propose(i: Input, solver: Solver, late: nat -> bool) returns (ghost log: seq<Turn>)
      requires Valid() && FitInput(core.qp.g.dims, i) && Trusted(solver, Vars(core.qp.g.dims))
      modifies core`pose, core`goal, core`obs, core`cand, core`candU0, core`candSolved, core`candFinite, core`sqpIter
      modifies core.qp`eSparse, core.qp`cSparse, core.qp`calls, core.qp`obs
      modifies core.qp.c, core.qp.e, core.qp.b, core.qp.ineq, core.qp.low, core.qp.upp, core.qp.obsH, core.qp.obsHPrev
      ensures Valid() && Now() == old(Now()) && core.candU0 == core.cand.u[0] && |core.candU0| == core.qp.g.dims.m
      ensures CycleOf(Asked(i), core.it, i.pose, solver, old(core.qp.calls), log)
      ensures |log| == 1 || |log| <= core.maxIterSqp
      ensures core.candSolved ==> Delivers(core.qp.g, core.qp.root, i.obs, i.pose, core.u0, log, core.cand)
    {
      hide MPC.Valid, MPC.Cycled, ValidDynamics, ValidConfig, Vars, Slacks, Trusted, ProxQP.Valid, ProxQP.Sized, CycleOf, Delivers;
      core.SetCycle(i.pose, i.goal, i.obs);
      log := core.SolveCandidate(solver, late);
      ProposalMeans(core, i, solver, old(core.qp.calls), log);
    }

    /** The gates past the solve, then the commit. */
    method Settle(i: Input) returns (r: Result, ghost verdict: Verdict)
      requires Valid() && core.candU0 == core.cand.u[0] && |core.candU0| == core.qp.g.dims.m && Surveys(core.qp.g.dims, i)
      modifies this`lastU, this`steer, this`v, this`w, this`failures, this`vetoes, core`u0, core`it, core`finite
      ensures Valid() && (Now(), r) == Next(limits, old(Now()), old(EventOf(verdict, i)))
      ensures verdict.Accept? ==> core.it == core.cand
      ensures verdict.Accept? <==> core.candSolved && core.candFinite && !Blocked(i) && i.twist(core.candU0).finite
      ensures verdict.Vetoed? <==> core.candSolved && core.candFinite && Blocked(i)
      ensures verdict == Judge(Gates(true, true, false, false, true, core.candSolved, core.candFinite, Blocked(i), i.twist(core.candU0).finite), false)
    {
      hide MPC.Valid, ValidDynamics, ValidConfig, Next, Surveys, Travelled, StopDistance, WithinStop, Fits, ValidLimits;
      if !core.candSolved || !core.candFinite {
        verdict := Verdict.Fail;
        r := Fail(i);
        return;
      }
      var vetoed := FootprintCheck(i);
      if vetoed {
        verdict := Vetoed;
        r := Veto(i);
        return;
      }
      var u := core.candU0;
      var t := i.twist(u);
      if !t.finite {
        verdict := Verdict.Fail;
        r := Fail(i);
        return;
      }
      verdict := Accept;
      CoreDims(core);
      r := Commit(i);
    }

    /** Past every gate: the candidate becomes the retained iterate, its first control the
        anchor, and both counters start over. */
    method Commit(i: Input) returns (r: Result)
      requires Valid() && ValidDims(core.qp.g.dims) && core.candU0 == core.cand.u[0] && core.candSolved && core.candFinite
      modifies this`lastU, this`steer, this`v, this`w, this`failures, this`vetoes, core`u0, core`it, core`finite
      ensures Valid() && (Now(), r) == Next(limits, old(Now()), old(EventOf(Accept, i))) && core.it == core.cand
    {
      hide MPC.Valid, ValidDynamics, ValidConfig, Next, Fits, ValidLimits;
      ghost var e := EventOf(Accept, i);
      CoreShape(core);
      TwoNodes(core.qp.g.dims, core.cand);
      var u, next := core.candU0, core.cand.x[1][idxSteer];
      var t := i.twist(u);
      Passed(limits, Now(), e);
      var retained := core.CommitCandidate();
      CoreShape(core);
      failures, vetoes := 0, 0;
      if limits.steering { steer := next; }
      lastU, v, w := u, t.v, t.w;
      r := Command(u);
    }

    /** One control cycle. The first gate that does not pass decides the verdict, and the run
        moves by that verdict alone. An accepted iterate satisfies every bound of the problem
        and keeps the barrier over the horizon, its first state is the measured pose when the
        cap allows one program, and while anchor and last command agree its command is within
        every rate bound of the command before. */
    method ComputeVelocityCommands(i: Input, solver: Solver, late: nat -> bool) returns (r: Result, ghost e: Event, ghost log: seq<Turn>)
      requires Valid() && FitInput(core.qp.g.dims, i) && Surveys(core.qp.g.dims, i) && Trusted(solver, Vars(core.qp.g.dims))
      modifies this`lastU, this`steer, this`v, this`w, this`failures, this`vetoes, core`u0, core`it, core`finite
      modifies core`pose, core`goal, core`obs, core`cand, core`candU0, core`candSolved, core`candFinite, core`sqpIter
      modifies core.qp`eSparse, core.qp`cSparse, core.qp`calls, core.qp`obs
      modifies core.qp.c, core.qp.e, core.qp.b, core.qp.ineq, core.qp.low, core.qp.upp, core.qp.obsH, core.qp.obsHPrev
      ensures Valid() && FitEvent(e, |old(lastU)|) && Happened(e, i) && (Now(), r) == Next(limits, old(Now()), e)
      ensures |core.candU0| == core.qp.g.dims.m
      ensures Decided(GatesOf(i, core.candSolved, core.candFinite, core.cand, core.candU0, idxV, limits.rampLin), old(cancelling), e.verdict)
      ensures e.verdict == Judge(Gates(i.limitOk, i.poseFinite, i.planEmpty, i.tfFails, i.planFinite, core.candSolved, core.candFinite, Blocked(i), i.twist(core.candU0).finite), old(cancelling))
      ensures e.verdict.Accept? ==> Delivers(core.qp.g, core.qp.root, i.obs, i.pose, old(core.u0), log, core.it)
      ensures e.verdict.Accept? ==> CycleOf(old(Asked(i)), old(core.it), i.pose, solver, old(core.qp.calls), log)
      ensures e.verdict.Accept? && core.maxIterSqp <= 1 ==> |log| == 1 && AtPose(core.it, i.pose)
      ensures e.verdict.Accept? && Synced(old(Now())) ==> RatesKept(core.qp.g, r, old(lastU))
      ensures e.verdict.Accept? ==> Committed(core.it, idxSteer, e, r)
    {
      hide MPC.Valid, ValidDynamics, ValidConfig, Next, Surveys, Trusted, Vars, InsideBounds, Blocked, Delivers, RatesKept, CycleOf, AtPose, Committed;
      CoreControls(core);
      log := [];
      if !i.limitOk {
        e := EventOf(BadLimit, i);
        r := InvalidLimit;
        Refused(limits, Now(), e);
      } else if !i.poseFinite || (!cancelling && !i.planEmpty && !i.tfFails && !i.planFinite) {
        e := EventOf(Verdict.Fail, i);
        r := Fail(i);
      } else if cancelling {
        e := EventOf(Stopping, i);
        r := Stop(i);
      } else if i.planEmpty || i.tfFails {
        e := EventOf(if i.planEmpty then NoPath else NoTransform, i);
        r := if i.planEmpty then InvalidPath else TransformError;
        Refused(limits, Now(), e);
      } else {
        r, e, log := Track(i, solver, late);
      }
      GatesMet(this, i, old(cancelling));
    }

    /** Past the gates on the inputs: propose, then the gates past the solve. */
    method Track(i: Input, solver: Solver, late: nat -> bool) returns (r: Result, ghost e: Event, ghost log: seq<Turn>)
      requires Valid() && FitInput(core.qp.g.dims, i) && Surveys(core.qp.g.dims, i) && Trusted(solver, Vars(core.qp.g.dims))
      modifies this`lastU, this`steer, this`v, this`w, this`failures, this`vetoes, core`u0, core`it, core`finite
      modifies core`pose, core`goal, core`obs, core`cand, core`candU0, core`candSolved, core`candFinite, core`sqpIter
      modifies core.qp`eSparse, core.qp`cSparse, core.qp`calls, core.qp`obs
      modifies core.qp.c, core.qp.e, core.qp.b, core.qp.ineq, core.qp.low, core.qp.upp, core.qp.obsH, core.qp.obsHPrev
      ensures Valid() && FitEvent(e, |old(lastU)|) && Happened(e, i) && (Now(), r) == Next(limits, old(Now()), e)
      ensures |core.candU0| == core.qp.g.dims.m
      ensures e.verdict == Judge(Gates(true, true, false, false, true, core.candSolved, core.candFinite, Blocked(i), i.twist(core.candU0).finite), false)
      ensures e.verdict.Accept? ==> Delivers(core.qp.g, core.qp.root, i.obs, i.pose, old(core.u0), log, core.it)
      ensures e.verdict.Accept? ==> CycleOf(old(Asked(i)), old(core.it), i.pose, solver, old(core.qp.calls), log)
      ensures e.verdict.Accept? && core.maxIterSqp <= 1 ==> |log| == 1 && AtPose(core.it, i.pose)
      ensures e.verdict.Accept? && Synced(old(Now())) ==> RatesKept(core.qp.g, r, old(lastU))
      ensures e.verdict.Accept? ==> Committed(core.it, idxSteer, e, r)
    {
      hide MPC.Valid, ValidDynamics, ValidConfig, Next, Surveys, Trusted, Vars, InsideBounds, Blocked, Delivers, RatesKept, CycleOf, AtPose, Judge;
      log := Propose(i, solver, late);
      label Proposed:
      ghost var verdict;
      r, verdict := Settle(i);
      e := old@Proposed(EventOf(verdict, i));
      if verdict.Accept? { AcceptMeans(limits, old(Now()), e, core.qp.g, core.qp.root, i, log, core.maxIterSqp, r); }
    }

    /** Cancelled: decelerate without counting anything. */
    method Stop(i: Input) returns (r: Result)
      requires Valid()
      modifies this`lastU, this`steer, this`v, this`w, core`u0
      ensures Valid() && (Now(), r) == Next(limits, old(Now()), old(EventOf(Stopping, i)))
    {
      hide MPC.Valid, ValidDynamics, ValidConfig, Braked, BrakeU;
      ghost var e := EventOf(Stopping, i);
      r := MakeBrake(i, e);
    }
  }

  /** No node a stop from a speed comes near is blocked: neither the first, nor any whose
      predecessor is short of the stopping distance. A footprint of fewer than three points
      is not checked. */
  ghost predicate Clear(i: Input, cand: Iterate, speed: real, rate: real) {
    i.footprint >= 3 ==>
      forall node :: 0 < node < |i.blocked(cand)| && node < |i.leg(cand)| && (node == 1 || Travelled(i.leg(cand), node - 1) < StopDistance(speed, rate)) ==>
        !i.blocked(cand)[node]
  }

  /** The gates of a cycle from its inputs and its candidate. */
  ghost function GatesOf(i: Input, solved: bool, finite: bool, cand: Iterate, u: Vec, idxV: nat, rate: real): Gates
    requires idxV < |u|
  {
    Gates(i.limitOk, i.poseFinite, i.planEmpty, i.tfFails, i.planFinite, solved, finite, !Clear(i, cand, Abs(u[idxV]), rate), i.twist(u).finite)
  }

  lemma GatesMet(ctl: ProxMpcController, i: Input, cancelling: bool)
    requires ctl.Shaped() && |ctl.core.candU0| == ctl.core.qp.g.dims.m && Surveys(ctl.core.qp.g.dims, i)
    ensures var gt := GatesOf(i, ctl.core.candSolved, ctl.core.candFinite, ctl.core.cand, ctl.core.candU0, ctl.idxV, ctl.limits.rampLin);
            && gt == Gates(i.limitOk, i.poseFinite, i.planEmpty, i.tfFails, i.planFinite, ctl.core.candSolved, ctl.core.candFinite, ctl.Blocked(i), i.twist(ctl.core.candU0).finite)
            && Decided(gt, cancelling, Judge(gt, cancelling))
  {
    hide StopDistance, Travelled, ValidDynamics, ValidConfig;
    JudgeDecides(GatesOf(i, ctl.core.candSolved, ctl.core.candFinite, ctl.core.cand, ctl.core.candU0, ctl.idxV, ctl.limits.rampLin), cancelling);
    if ctl.Blocked(i) {
      var node :| 0 < node < |i.leg(ctl.core.cand)| && i.blocked(ctl.core.cand)[node]
                  && WithinStop(i.leg(ctl.core.cand), StopDistance(Abs(ctl.core.candU0[ctl.idxV]), ctl.limits.rampLin), node);
      assert !Clear(i, ctl.core.cand, Abs(ctl.core.candU0[ctl.idxV]), ctl.limits.rampLin);
    }
  }

  /** A command within every declared rate of the one before. */
  ghost predicate RatesKept(g: Config, r: Result, was: Vec) {
    ValidConfig(g) && r.Command? && |r.u| == g.dims.m && |was| == g.dims.m && WithinRates(g, r.u, was)
  }

  /** An accepted cycle retains the candidate, returns its first control, and takes the steering
      belief from its next state. */
  predicate Committed(it: Iterate, idxSteer: nat, e: Event, r: Result) {
    |it.u| > 0 && |it.x| > 1 && idxSteer < |it.x[1]| && e.cand == it && r == Command(it.u[0]) && e.steerNext == it.x[1][idxSteer]
  }

  /** An event records the inputs of its cycle. */
  ghost predicate Happened(e: Event, i: Input) {
    e.measured == i.measured && e.period == i.period && e.velocity == i.velocity && e.twist == i.twist
  }

  lemma Passed(c: Limits, s: State, e: Event)
    requires ValidLimits(c, |s.lastU|) && FitEvent(e, |s.lastU|) && e.verdict.Accept?
    ensures var u := e.cand.u[0];
            Next(c, s, e) == (State(u, u, e.cand, 0, 0, s.cancelling, if c.steering then e.steerNext else s.steer, e.twist(u).v, e.twist(u).w), Command(u))
  {
  }

  lemma TwoNodes(s: Dims, it: Iterate)
    requires ValidDims(s) && Fits(s, it)
    ensures |it.x| >= 2 && |it.x[1]| == s.n
  {
  }

  lemma CoreDims(core: MPC)
    requires core.Modelled()
    ensures ValidDims(core.qp.g.dims)
  {
  }

  lemma CoreControls(core: MPC)
    requires core.Valid()
    ensures |core.candU0| == core.qp.g.dims.m
  {
  }

  lemma Refused(c: Limits, s: State, e: Event)
    requires ValidLimits(c, |s.lastU|) && FitEvent(e, |s.lastU|)
    ensures e.verdict.BadLimit? ==> Next(c, s, e) == (s, InvalidLimit)
    ensures e.verdict.NoPath? ==> Next(c, s, e) == (s, InvalidPath)
    ensures e.verdict.NoTransform? ==> Next(c, s, e) == (s, TransformError)
  {
  }

  lemma CoreShape(core: MPC)
    requires core.Valid()
    ensures core.Modelled() && Fits(core.qp.g.dims, core.it) && Fits(core.qp.g.dims, core.cand) && |core.u0| == core.qp.g.dims.m
  {
  }

  /** What a proposed candidate delivers once it is solved. */
  lemma ProposalMeans(core: MPC, i: Input, solver: Solver, first: nat, log: seq<Turn>)
    requires core.Cycled(solver, first, log) && core.pose == i.pose && core.goal == i.goal && core.obs == i.obs && FitInput(core.qp.g.dims, i)
    ensures core.Valid() && core.Modelled() && |log| == core.sqpIter
    ensures CycleOf(Problem(core.qp.g, core.qp.root, core.qp.dyn, core.qp.wt, if core.qp.g.dims.obstacles then i.obs else [], core.u0, i.goal),
                    core.it, i.pose, solver, first, log)
    ensures Fits(core.qp.g.dims, core.it) && Fits(core.qp.g.dims, core.cand) && |core.u0| == core.qp.g.dims.m && |core.cand.u[0]| == core.qp.g.dims.m
    ensures core.candSolved ==> Delivers(core.qp.g, core.qp.root, i.obs, i.pose, core.u0, log, core.cand)
  {
    hide Delivers, ProxQP.Valid, ProxQP.Sized, Chained, Vars, After;
    if core.candSolved { CandidateMeans(core, solver, first, log); }
  }

  /** An accepted cycle: its command is the first control of what was delivered. */
  lemma AcceptMeans(c: Limits, s: State, e: Event, g: Config, root: real -> real, i: Input, log: seq<Turn>, cap: nat, r: Result)
    requires ValidLimits(c, |s.lastU|) && FitEvent(e, |s.lastU|) && e.verdict.Accept? && r == Next(c, s, e).1
    requires Delivers(g, root, i.obs, i.pose, s.anchor, log, e.cand) && (|log| == 1 || |log| <= cap) && |s.lastU| == g.dims.m
    ensures cap <= 1 ==> |log| == 1 && AtPose(e.cand, i.pose)
    ensures r == Command(e.cand.u[0]) && (Synced(s) ==> RatesKept(g, r, s.lastU))
  {
    hide Guarded, Vars;
    if cap <= 1 { FirstStateKept(g, root, i.obs, i.pose, s.anchor, log, e.cand); }
  }
}
