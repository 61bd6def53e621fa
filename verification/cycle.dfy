/** The control cycle as a state machine over values: gates, brakes, vetoes and commits. */
module Cycle {
  import opened Basics
  import opened Linear
  import opened QpFeasible
  import QpRows

  // ----- the brake

  /** One step toward zero. `None` stands for a value that is not finite, and a rate of
      `None` for one the model never declared. */
  function BrakeToward(prev: Option<real>, low: Option<real>, upp: Option<real>, period: real): real {
    match prev
    case None => 0.0
    case Some(v) =>
      if v > 0.0 then
        if low.None? || v - Mul(Abs(low.value), period) < 0.0 then 0.0 else v - Mul(Abs(low.value), period)
      else if v < 0.0 then
        if upp.None? || v + Mul(Abs(upp.value), period) > 0.0 then 0.0 else v + Mul(Abs(upp.value), period)
      else 0.0
  }

  /** A brake step never speeds up and never changes sign. */
  lemma BrakeShrinks(v: real, low: Option<real>, upp: Option<real>, period: real)
    requires period >= 0.0
    ensures var r := BrakeToward(Some(v), low, upp, period);
            Abs(r) <= Abs(v) && (r > 0.0 ==> v > 0.0) && (r < 0.0 ==> v < 0.0)
  {
    if low.Some? { NonnegProduct(Abs(low.value), period); }
    if upp.Some? { NonnegProduct(Abs(upp.value), period); }
  }

  /** The brake of a plant that follows its command, one step per period. */
  function BrakeRun(v: real, low: Option<real>, upp: Option<real>, periods: seq<real>): real
    decreases |periods|
  {
    if periods == [] then v else BrakeRun(BrakeToward(Some(v), low, upp, periods[0]), low, upp, periods[1..])
  }

  /** The rate that applies while braking from a value. */
  function BrakeRate(v: real, low: Option<real>, upp: Option<real>): Option<real> {
    if v > 0.0 then low else upp
  }

  lemma {:induction false} ZeroStays(low: Option<real>, upp: Option<real>, periods: seq<real>)
    ensures BrakeRun(0.0, low, upp, periods) == 0.0
    decreases |periods|
  {
    if periods != [] { ZeroStays(low, upp, periods[1..]); }
  }

  /** The time of n steps. */
  function Span(n: nat, step: real): real { n as real * step }

  /** The ramp covers at least the declared rate times the shortest period per cycle, so it
      reaches exactly zero as soon as that many cycles have passed, and keeps its sign
      until then. */
  lemma {:induction false} BrakeReachesZero(v: real, low: Option<real>, upp: Option<real>, periods: seq<real>, shortest: real)
    requires shortest > 0.0 && forall i :: 0 <= i < |periods| ==> periods[i] >= shortest
    ensures var r := BrakeRun(v, low, upp, periods);
            && (r > 0.0 ==> v > 0.0) && (r < 0.0 ==> v < 0.0)
            && match BrakeRate(v, low, upp) {
                 case None => |periods| > 0 ==> r == 0.0
                 case Some(rate) => (Abs(r) <= Abs(v) - Mul(Abs(rate), Span(|periods|, shortest)) || r == 0.0)
                                    && (Mul(Abs(rate), Span(|periods|, shortest)) >= Abs(v) ==> r == 0.0)
               }
    decreases |periods|
  {
    hide Mul, BrakeToward, BrakeRate, Span;
    if periods == [] {
      if BrakeRate(v, low, upp).Some? { Nothing(Abs(BrakeRate(v, low, upp).value), shortest); }
    } else {
      var p, rest := periods[0], periods[1..];
      var w := BrakeToward(Some(v), low, upp, p);
      BrakeShrinks(v, low, upp, p);
      if w == 0.0 {
        ZeroStays(low, upp, rest);
      } else {
        BrakeReachesZero(w, low, upp, rest, shortest);
        BrakeCovers(v, low, upp, p);
        OneMore(Abs(BrakeRate(v, low, upp).value), |rest|, p, shortest);
      }
    }
  }

  /** A brake step that does not reach zero covers its rate times the period. */
  lemma BrakeCovers(v: real, low: Option<real>, upp: Option<real>, period: real)
    requires period >= 0.0 && BrakeToward(Some(v), low, upp, period) != 0.0
    ensures var w := BrakeToward(Some(v), low, upp, period);
            && BrakeRate(v, low, upp).Some? && BrakeRate(w, low, upp) == BrakeRate(v, low, upp)
            && Abs(w) == Abs(v) - Mul(Abs(BrakeRate(v, low, upp).value), period)
  {
    hide Mul;
  }

  lemma Nothing(rate: real, shortest: real)
    ensures Mul(rate, Span(0, shortest)) == 0.0
  {
  }

  lemma OneMore(rate: real, n: nat, p: real, shortest: real)
    requires rate >= 0.0 && p >= shortest
    ensures Mul(rate, Span(n + 1, shortest)) <= Mul(rate, Span(n, shortest)) + Mul(rate, p)
  {
    var done := n as real * shortest;
    assert (n + 1) as real * shortest == done + shortest;
    MonoProduct(rate, shortest, p);
    assert rate * (done + shortest) == rate * done + rate * shortest;
  }

  // ----- one cycle

  /** What init() fixes. */
  datatype Limits = Limits(
    dt: real, brakePeriod: real, budget: nat,
    duLow: seq<Option<real>>, duUpp: seq<Option<real>>,
    steering: bool, steerLow: real, steerUpp: real, rampLin: real, rampAng: real)

  predicate ValidLimits(c: Limits, m: nat) {
    c.dt > 0.0 && |c.duLow| == m && |c.duUpp| == m
  }

  /** The body twist a control maps to, and whether it is finite. */
  datatype Twist = Twist(v: real, w: real, finite: bool)

  /** What the run remembers between cycles: the controls last applied, the rate anchor and
      iterate the core retains, the two counters, the cancel flag, the steering belief and
      the twist last sent. */
  datatype State = State(lastU: Vec, anchor: Vec, kept: Iterate, failures: nat, vetoes: nat, cancelling: bool, steer: real, v: real, w: real)

  /** What one cycle meets, in the order it is looked at. */
  datatype Gates = Gates(limitOk: bool, poseFinite: bool, planEmpty: bool, tfFails: bool, planFinite: bool, solved: bool, finite: bool, vetoed: bool, twistFinite: bool)

  datatype Verdict = BadLimit | Fail | Stopping | NoPath | NoTransform | Vetoed | Accept

  /** The first gate that does not pass decides. */
  function Judge(gt: Gates, cancelling: bool): Verdict {
    if !gt.limitOk then BadLimit
    else if !gt.poseFinite then Fail
    else if cancelling then Stopping
    else if gt.planEmpty then NoPath
    else if gt.tfFails then NoTransform
    else if !gt.planFinite then Fail
    else if !gt.solved then Fail
    else if !gt.finite then Fail
    else if gt.vetoed then Vetoed
    else if !gt.twistFinite then Fail
    else Accept
  }

  /** The gates on the inputs, which are looked at before anything is solved. */
  predicate Enters(gt: Gates, cancelling: bool) {
    gt.limitOk && gt.poseFinite && !cancelling && !gt.planEmpty && !gt.tfFails && gt.planFinite
  }

  /** Which cycles end how. A candidate is accepted exactly when everything is in order, and
      vetoed exactly when it is solved and finite but blocked; a failure is an ill-formed
      pose or plan, an unsolved or unbounded candidate, or an unblocked one without a finite
      twist; and each way out of the inputs has its own result. */
  predicate Decided(gt: Gates, cancelling: bool, v: Verdict) {
    && (v.Accept? <==> Enters(gt, cancelling) && gt.solved && gt.finite && !gt.vetoed && gt.twistFinite)
    && (v.Vetoed? <==> Enters(gt, cancelling) && gt.solved && gt.finite && gt.vetoed)
    && (v.BadLimit? <==> !gt.limitOk)
    && (v.Stopping? <==> gt.limitOk && gt.poseFinite && cancelling)
    && (v.NoPath? <==> gt.limitOk && gt.poseFinite && !cancelling && gt.planEmpty)
    && (v.NoTransform? <==> gt.limitOk && gt.poseFinite && !cancelling && !gt.planEmpty && gt.tfFails)
    && (v.Fail? <==> gt.limitOk && (|| !gt.poseFinite
                                    || (!cancelling && !gt.planEmpty && !gt.tfFails && !gt.planFinite)
                                    || (Enters(gt, cancelling) && (!gt.solved || !gt.finite))
                                    || (Enters(gt, cancelling) && gt.solved && gt.finite && !gt.vetoed && !gt.twistFinite)))
  }

  lemma JudgeDecides(gt: Gates, cancelling: bool)
    ensures Decided(gt, cancelling, Judge(gt, cancelling))
  {
  }

  /** A cycle as it happened: its verdict, the candidate the core had proposed, the
      measured controls and period, and the model's twist map. */
  datatype Event = Event(verdict: Verdict, cand: Iterate, steerNext: real, measured: seq<Option<real>>, period: Option<real>,
                         velocity: (Option<real>, Option<real>), twist: Vec -> Twist)

  datatype Result = Command(u: Vec) | NoValidControl | InvalidPath | TransformError | InvalidLimit

  predicate FitEvent(e: Event, m: nat) { |e.cand.u| > 0 && |e.cand.u[0]| == m }

  /** The step of the brake: the configured period, or the measured one kept between the
      nominal step and twice that. */
  function Period(c: Limits, measured: Option<real>): real {
    if c.brakePeriod > 0.0 then c.brakePeriod
    else match measured
         case None => c.dt
         case Some(p) => if p < c.dt then c.dt else if p > 2.0 * c.dt then 2.0 * c.dt else p
  }

  /** Measured channels are braked from the measurement, the others from the last command. */
  function Seed(lastU: Vec, measured: seq<Option<real>>, j: nat): real
    requires j < |lastU|
  {
    if j < |measured| && measured[j].Some? then measured[j].value else lastU[j]
  }

  function BrakeU(c: Limits, s: State, e: Event): (u: Vec)
    requires ValidLimits(c, |s.lastU|)
    ensures |u| == |s.lastU|
  {
    seq(|s.lastU|, j requires 0 <= j < |s.lastU| => BrakeToward(Some(Seed(s.lastU, e.measured, j)), c.duLow[j], c.duUpp[j], Period(c, e.period)))
  }

  /** The state after a braking cycle: the ramped controls are what the robot is given, so
      they become the rate anchor too. */
  function Braked(c: Limits, s: State, e: Event): State
    requires ValidLimits(c, |s.lastU|)
  {
    var u, p := BrakeU(c, s, e), Period(c, e.period);
    var t := e.twist(u);
    s.(lastU := u, anchor := u,
       steer := if c.steering then BrakeToward(Some(s.steer), Some(c.steerLow), Some(c.steerUpp), p) else s.steer,
       v := if t.finite then t.v else BrakeToward(e.velocity.0, Some(c.rampLin), Some(c.rampLin), p),
       w := if t.finite then t.w else BrakeToward(e.velocity.1, Some(c.rampAng), Some(c.rampAng), p))
  }

  function Next(c: Limits, s: State, e: Event): (State, Result)
    requires ValidLimits(c, |s.lastU|) && FitEvent(e, |s.lastU|)
  {
    match e.verdict
    case Fail =>
      var t := s.(failures := s.failures + 1);
      if t.failures > c.budget then (t, NoValidControl) else (Braked(c, t, e), Command(BrakeU(c, t, e)))
    case Vetoed =>
      var t := s.(vetoes := s.vetoes + 1);
      if t.vetoes > c.budget then (t, NoValidControl) else (Braked(c, t, e), Command(BrakeU(c, t, e)))
    case Stopping => (Braked(c, s, e), Command(BrakeU(c, s, e)))
    case BadLimit => (s, InvalidLimit)
    case NoPath => (s, InvalidPath)
    case NoTransform => (s, TransformError)
    case Accept =>
      var u := e.cand.u[0];
      var t := e.twist(u);
      (s.(kept := e.cand, anchor := u, lastU := u, failures := 0, vetoes := 0, steer := if c.steering then e.steerNext else s.steer, v := t.v, w := t.w),
       Command(u))
  }

  /** A new task: everything but the core's anchor and iterate starts over. */
  function Reset(s: State): (t: State)
    ensures |t.lastU| == |s.lastU| && (forall j :: 0 <= j < |t.lastU| ==> t.lastU[j] == 0.0) && t.failures == 0 && t.vetoes == 0 && !t.cancelling
    ensures t.steer == 0.0 && t.v == 0.0 && t.w == 0.0 && t.anchor == s.anchor && t.kept == s.kept
  {
    s.(lastU := Zeros(|s.lastU|), failures := 0, vetoes := 0, cancelling := false, steer := 0.0, v := 0.0, w := 0.0)
  }

  // ----- transactions

  /** The rate anchor of the core is the control last applied. */
  predicate Synced(s: State) { s.anchor == s.lastU }

  /** A cycle that returns a command leaves the anchor at that command, whatever it was
      before; a cycle that throws leaves anchor, last command and iterate alone; and only
      an accepted cycle changes the retained iterate. */
  lemma CycleTransacts(c: Limits, s: State, e: Event)
    requires ValidLimits(c, |s.lastU|) && FitEvent(e, |s.lastU|)
    ensures var (t, r) := Next(c, s, e);
            && (r.Command? ==> Synced(t) && t.lastU == r.u && |r.u| == |s.lastU|)
            && (!r.Command? ==> t.lastU == s.lastU && t.anchor == s.anchor && t.kept == s.kept)
            && (!e.verdict.Accept? ==> t.kept == s.kept)
            && (e.verdict.Accept? ==> r.Command? && t.kept == e.cand && t.failures == 0 && t.vetoes == 0)
            && (Synced(s) ==> Synced(t))
  {
  }

  /** A brake step from a value stops within its rate times the period, or comes that much
      closer to zero; one without a rate stops at once. */
  predicate Ramped(was: real, low: Option<real>, upp: Option<real>, period: real, now: real) {
    match if was > 0.0 then low else upp
    case None => now == 0.0
    case Some(rate) =>
      var cut := Mul(Abs(rate), period);
      && (Abs(was) <= cut ==> now == 0.0)
      && (Abs(was) > cut ==> now == if was > 0.0 then was - cut else was + cut)
  }

  /** What a cycle sends. A braking command ramps every channel from its measurement, or from
      the last command where there is none; an accepted one is the candidate's first control.
      The twist remembered is the model's for what was sent, or a ramp of the measured one
      where that is not finite, and the steering belief follows the candidate or the ramp. */
  lemma CycleSends(c: Limits, s: State, e: Event)
    requires ValidLimits(c, |s.lastU|) && FitEvent(e, |s.lastU|)
    ensures var (t, r) := Next(c, s, e); var p := Period(c, e.period);
            if r.Command? then
              && t.cancelling == s.cancelling
              && (if e.verdict.Accept? then
                    r.u == e.cand.u[0] && t.v == e.twist(r.u).v && t.w == e.twist(r.u).w && t.steer == if c.steering then e.steerNext else s.steer
                  else
                    && (forall j :: 0 <= j < |s.lastU| ==>
                          Ramped(if j < |e.measured| && e.measured[j].Some? then e.measured[j].value else s.lastU[j], c.duLow[j], c.duUpp[j], p, r.u[j]))
                    && (e.twist(r.u).finite ==> t.v == e.twist(r.u).v && t.w == e.twist(r.u).w)
                    && (!e.twist(r.u).finite ==> Faded(e.velocity.0, c.rampLin, p, t.v) && Faded(e.velocity.1, c.rampAng, p, t.w))
                    && (if c.steering then Ramped(s.steer, Some(c.steerLow), Some(c.steerUpp), p, t.steer) else t.steer == s.steer))
            else t.v == s.v && t.w == s.w && t.steer == s.steer && t.cancelling == s.cancelling
  {
    hide Mul, BrakeToward, Period;
    var p := Period(c, e.period);
    PeriodClamped(c, e.period);
    var u := BrakeU(c, s, e);
    forall j | 0 <= j < |s.lastU|
      ensures Ramped(if j < |e.measured| && e.measured[j].Some? then e.measured[j].value else s.lastU[j], c.duLow[j], c.duUpp[j], p, u[j])
    {
      BrakeRamps(Seed(s.lastU, e.measured, j), c.duLow[j], c.duUpp[j], p);
    }
    BrakeRamps(s.steer, Some(c.steerLow), Some(c.steerUpp), p);
    BrakeFades(e.velocity.0, c.rampLin, p);
    BrakeFades(e.velocity.1, c.rampAng, p);
  }

  /** The same for a measurement that may not be finite, which counts as standing still. */
  predicate Faded(was: Option<real>, rate: real, period: real, now: real) {
    match was case None => now == 0.0 case Some(v) => Ramped(v, Some(rate), Some(rate), period, now)
  }

  lemma BrakeFades(v: Option<real>, rate: real, period: real)
    requires period >= 0.0
    ensures Faded(v, rate, period, BrakeToward(v, Some(rate), Some(rate), period))
  {
    if v.Some? { BrakeRamps(v.value, Some(rate), Some(rate), period); }
  }

  lemma BrakeRamps(v: real, low: Option<real>, upp: Option<real>, period: real)
    requires period >= 0.0
    ensures Ramped(v, low, upp, period, BrakeToward(Some(v), low, upp, period))
  {
    if low.Some? { NonnegProduct(Abs(low.value), period); }
    if upp.Some? { NonnegProduct(Abs(upp.value), period); }
  }

  /** Reset and activation zero the last command but not the anchor: they stay together
      exactly when the anchor is already zero. */
  lemma ResetSyncedIff(s: State)
    requires |s.anchor| == |s.lastU|
    ensures Synced(Reset(s)) <==> forall j :: 0 <= j < |s.anchor| ==> s.anchor[j] == 0.0
  {
    if forall j :: 0 <= j < |s.anchor| ==> s.anchor[j] == 0.0 {
      assert s.anchor == Zeros(|s.lastU|);
    }
  }

  /** A run of cycles between resets. */
  function Run(c: Limits, s: State, es: seq<Event>): (State, seq<Result>)
    requires ValidLimits(c, |s.lastU|) && forall i :: 0 <= i < |es| ==> FitEvent(es[i], |s.lastU|)
    ensures |Run(c, s, es).0.lastU| == |s.lastU| && |Run(c, s, es).1| == |es|
  {
    if es == [] then (s, [])
    else
      var (t, rs) := Run(c, s, es[..|es| - 1]);
      var (t', r) := Next(c, t, es[|es| - 1]);
      (t', rs + [r])
  }

  /** From the first returned command on, the anchor is the command last applied after
      every cycle of the task, whatever came before. */
  lemma {:induction false} AnchorIsLastApplied(c: Limits, s: State, es: seq<Event>, i: nat)
    requires ValidLimits(c, |s.lastU|) && forall k :: 0 <= k < |es| ==> FitEvent(es[k], |s.lastU|)
    requires Synced(s) || (i < |es| && Run(c, s, es).1[i].Command?)
    ensures Synced(Run(c, s, es).0)
  {
    if es != [] {
      var last := |es| - 1;
      CycleTransacts(c, Run(c, s, es[..last]).0, es[last]);
      if Synced(s) || i < last { AnchorIsLastApplied(c, s, es[..last], i); }
    }
  }

  /** The command last applied is the last one the run returned. */
  lemma {:induction false} LastCommandReturned(c: Limits, s: State, es: seq<Event>, i: nat)
    requires ValidLimits(c, |s.lastU|) && forall k :: 0 <= k < |es| ==> FitEvent(es[k], |s.lastU|)
    requires i < |es| && Run(c, s, es).1[i].Command? && forall k :: i < k < |es| ==> !Run(c, s, es).1[k].Command?
    ensures Run(c, s, es).0.lastU == Run(c, s, es).1[i].u
  {
    var last := |es| - 1;
    CycleTransacts(c, Run(c, s, es[..last]).0, es[last]);
    if i < last {
      assert !Run(c, s, es).1[last].Command?;
      forall k | i < k < last ensures !Run(c, s, es[..last]).1[k].Command? { assert !Run(c, s, es).1[k].Command?; }
      LastCommandReturned(c, s, es[..last], i);
    }
  }

  // ----- bounded rejection

  predicate Quiet(es: seq<Event>) { forall i :: 0 <= i < |es| ==> !es[i].verdict.Accept? }

  function Count(es: seq<Event>, v: Verdict): nat {
    if es == [] then 0 else Count(es[..|es| - 1], v) + (if es[|es| - 1].verdict == v then 1 else 0)
  }

  lemma {:induction false} CountersCount(c: Limits, s: State, es: seq<Event>)
    requires ValidLimits(c, |s.lastU|) && (forall i :: 0 <= i < |es| ==> FitEvent(es[i], |s.lastU|)) && Quiet(es)
    ensures Run(c, s, es).0.failures == s.failures + Count(es, Fail)
    ensures Run(c, s, es).0.vetoes == s.vetoes + Count(es, Vetoed)
  {
    if es != [] { CountersCount(c, s, es[..|es| - 1]); }
  }

  lemma {:induction false} RunPrefix(c: Limits, s: State, es: seq<Event>, k: nat)
    requires ValidLimits(c, |s.lastU|) && (forall i :: 0 <= i < |es| ==> FitEvent(es[i], |s.lastU|)) && k < |es|
    ensures Run(c, s, es).1[k] == Next(c, Run(c, s, es[..k]).0, es[k]).1
  {
    var last := |es| - 1;
    if k < last {
      RunPrefix(c, s, es[..last], k);
      assert es[..last][..k] == es[..k];
    }
  }

  /** Among cycles with no accepted one, a cycle raises NoValidControl exactly when it is a
      rejection whose own kind, counted from the last accepted cycle or reset up to and
      including it, exceeds the budget. */
  lemma EscalatesIff(c: Limits, s: State, es: seq<Event>, k: nat)
    requires ValidLimits(c, |s.lastU|) && (forall i :: 0 <= i < |es| ==> FitEvent(es[i], |s.lastU|)) && Quiet(es)
    requires s.failures == 0 && s.vetoes == 0 && k < |es|
    ensures Run(c, s, es).1[k] == NoValidControl <==>
            (es[k].verdict == Fail && Count(es[..k + 1], Fail) > c.budget) || (es[k].verdict == Vetoed && Count(es[..k + 1], Vetoed) > c.budget)
  {
    hide Braked, BrakeU, Mul, Run, ValidLimits;
    RunPrefix(c, s, es, k);
    CountersCount(c, s, es[..k]);
    assert es[..k + 1][..k] == es[..k];
  }

  lemma {:induction false} LastOfKind(es: seq<Event>, v: Verdict, budget: nat) returns (k: nat)
    requires Count(es, v) > budget
    ensures k < |es| && es[k].verdict == v && Count(es[..k + 1], v) > budget
  {
    var last := |es| - 1;
    if es[last].verdict == v {
      k := last;
      assert es[..k + 1] == es;
    } else {
      k := LastOfKind(es[..last], v, budget);
      assert es[..last][..k + 1] == es[..k + 1];
    }
  }

  /** Twice the budget plus one rejections, with no accepted cycle or reset among them,
      include an escalation. */
  lemma RejectionBounded(c: Limits, s: State, es: seq<Event>) returns (k: nat)
    requires ValidLimits(c, |s.lastU|) && (forall i :: 0 <= i < |es| ==> FitEvent(es[i], |s.lastU|)) && Quiet(es)
    requires s.failures == 0 && s.vetoes == 0 && Count(es, Fail) + Count(es, Vetoed) >= 2 * c.budget + 1
    ensures k < |es| && Run(c, s, es).1[k] == NoValidControl
  {
    if Count(es, Fail) > c.budget {
      k := LastOfKind(es, Fail, c.budget);
    } else {
      k := LastOfKind(es, Vetoed, c.budget);
    }
    EscalatesIff(c, s, es, k);
  }

  // ----- commands

  /** The results of the first k cycles are those of the run of these cycles alone. */
  lemma {:induction false} RunResults(c: Limits, s: State, es: seq<Event>, k: nat)
    requires ValidLimits(c, |s.lastU|) && (forall i :: 0 <= i < |es| ==> FitEvent(es[i], |s.lastU|)) && k <= |es|
    ensures Run(c, s, es[..k]).1 == Run(c, s, es).1[..k]
  {
    hide Next, ValidLimits;
    if k < |es| {
      var last := |es| - 1;
      RunResults(c, s, es[..last], k);
      assert es[..last][..k] == es[..k];
    } else {
      assert es[..k] == es;
    }
  }

  /** Over any run, each accepted command is within every declared rate of the command
      returned before it, accepted or braked, however many cycles threw in between: it is
      enough that its candidate meets the first-control bound about the core's anchor. */
  lemma AcceptedWithinRate(c: Limits, s: State, es: seq<Event>, g: QpRows.Config, i: nat, k: nat)
    requires ValidLimits(c, |s.lastU|) && (forall j :: 0 <= j < |es| ==> FitEvent(es[j], |s.lastU|)) && i < k < |es|
    requires Run(c, s, es).1[i].Command? && (forall j :: i < j < k ==> !Run(c, s, es).1[j].Command?) && es[k].verdict == Accept
    requires QpRows.ValidConfig(g) && Fits(g.dims, es[k].cand) && |Run(c, s, es[..k]).0.anchor| == g.dims.m
    requires InsideBounds(g, es[k].cand, Run(c, s, es[..k]).0.anchor)
    ensures var r := Run(c, s, es).1;
            r[k].Command? && |r[k].u| == g.dims.m && |r[i].u| == g.dims.m && WithinRates(g, r[k].u, r[i].u)
  {
    hide Run, ValidLimits;
    RunResults(c, s, es, k);
    var r := Run(c, s, es).1;
    assert forall j :: 0 <= j < k ==> Run(c, s, es[..k]).1[j] == r[j];
    AnchorIsLastApplied(c, s, es[..k], i);
    LastCommandReturned(c, s, es[..k], i);
    RunPrefix(c, s, es, k);
  }

  // ----- stopping

  /** A brake step changes a control by no more than its declared rate over the period. */
  lemma BrakeRespectsRate(v: real, low: Option<real>, upp: Option<real>, period: real)
    requires period >= 0.0 && BrakeRate(v, low, upp).Some?
    ensures Abs(BrakeToward(Some(v), low, upp, period) - v) <= Mul(Abs(BrakeRate(v, low, upp).value), period)
  {
    NonnegProduct(Abs(BrakeRate(v, low, upp).value), period);
  }

  /** The shortest step a brake may take. */
  function Shortest(c: Limits): real { if c.brakePeriod > 0.0 then c.brakePeriod else c.dt }

  /** A configured brake period is the step; without one the step stays between the nominal
      one and twice that, whatever was measured. */
  lemma PeriodClamped(c: Limits, measured: Option<real>)
    requires c.dt > 0.0
    ensures Period(c, measured) >= Shortest(c) > 0.0
    ensures if c.brakePeriod > 0.0 then Period(c, measured) == c.brakePeriod else Period(c, measured) <= 2.0 * c.dt
    ensures c.brakePeriod <= 0.0 ==> Period(c, measured) == (if measured.None? then c.dt else Min(Max(measured.value, c.dt), 2.0 * c.dt))
  {
  }

  /** A plant that does what it was told: measured channels report the last command. */
  predicate Follows(s: State, e: Event) {
    forall j :: 0 <= j < |s.lastU| ==> Seed(s.lastU, e.measured, j) == s.lastU[j]
  }

  predicate Braking(e: Event) { e.verdict.Fail? || e.verdict.Vetoed? || e.verdict.Stopping? }

  /** Every cycle brakes, returns a command, and finds the plant where it was told to be. */
  ghost predicate BrakesThrough(c: Limits, s: State, es: seq<Event>)
    requires ValidLimits(c, |s.lastU|) && forall i :: 0 <= i < |es| ==> FitEvent(es[i], |s.lastU|)
  {
    es == [] ||
    (var last := |es| - 1;
     && BrakesThrough(c, s, es[..last]) && Braking(es[last]) && Follows(Run(c, s, es[..last]).0, es[last])
     && Next(c, Run(c, s, es[..last]).0, es[last]).1.Command?)
  }

  function Periods(c: Limits, es: seq<Event>): (p: seq<real>)
    ensures |p| == |es| && forall i :: 0 <= i < |p| ==> p[i] == Period(c, es[i].period)
  {
    seq(|es|, i requires 0 <= i < |es| => Period(c, es[i].period))
  }

  lemma {:induction false} BrakeRunSnoc(v: real, low: Option<real>, upp: Option<real>, periods: seq<real>, p: real)
    ensures BrakeRun(v, low, upp, periods + [p]) == BrakeToward(Some(BrakeRun(v, low, upp, periods)), low, upp, p)
    decreases |periods|
  {
    if periods == [] {
      assert [p][1..] == [];
    } else {
      assert (periods + [p])[1..] == periods[1..] + [p];
      BrakeRunSnoc(BrakeToward(Some(v), low, upp, periods[0]), low, upp, periods[1..], p);
    }
  }

  /** Braking cycles step every channel along its own ramp. */
  lemma {:induction false} BrakingRun(c: Limits, s: State, es: seq<Event>, j: nat)
    requires ValidLimits(c, |s.lastU|) && (forall i :: 0 <= i < |es| ==> FitEvent(es[i], |s.lastU|))
    requires BrakesThrough(c, s, es) && j < |s.lastU|
    ensures Run(c, s, es).0.lastU[j] == BrakeRun(s.lastU[j], c.duLow[j], c.duUpp[j], Periods(c, es))
  {
    if es != [] {
      var last := |es| - 1;
      BrakingRun(c, s, es[..last], j);
      assert Periods(c, es) == Periods(c, es[..last]) + [Period(c, es[last].period)];
      BrakeRunSnoc(s.lastU[j], c.duLow[j], c.duUpp[j], Periods(c, es[..last]), Period(c, es[last].period));
    }
  }

  /** Enough cycles at a step to take a value to zero at its rate. */
  predicate Enough(v: real, low: Option<real>, upp: Option<real>, n: nat, dt: real) {
    n > 0 && match BrakeRate(v, low, upp) case None => true case Some(rate) => Mul(Abs(rate), Span(n, dt)) >= Abs(v)
  }

  lemma BrakeDone(v: real, low: Option<real>, upp: Option<real>, periods: seq<real>, dt: real)
    requires dt > 0.0 && (forall i :: 0 <= i < |periods| ==> periods[i] >= dt) && Enough(v, low, upp, |periods|, dt)
    ensures BrakeRun(v, low, upp, periods) == 0.0
  {
    hide BrakeRun;
    BrakeReachesZero(v, low, upp, periods, dt);
  }

  /** On a plant that follows its command a channel is at exactly zero after any number n of
      braking cycles with rate * n * step >= |u|, the step being the configured brake period
      or, without one, the nominal step. */
  lemma StopsWithin(c: Limits, s: State, es: seq<Event>, j: nat)
    requires ValidLimits(c, |s.lastU|) && (forall i :: 0 <= i < |es| ==> FitEvent(es[i], |s.lastU|))
    requires BrakesThrough(c, s, es) && j < |s.lastU| && Enough(s.lastU[j], c.duLow[j], c.duUpp[j], |es|, Shortest(c))
    ensures Run(c, s, es).0.lastU[j] == 0.0
  {
    hide Run, Next, BrakesThrough, BrakeRun, Period, Enough;
    BrakingRun(c, s, es, j);
    PeriodClamped(c, None);
    forall i | 0 <= i < |es| ensures Periods(c, es)[i] >= Shortest(c) { PeriodClamped(c, es[i].period); }
    BrakeDone(s.lastU[j], c.duLow[j], c.duUpp[j], Periods(c, es), Shortest(c));
  }

  // ----- the footprint veto

  function Travelled(leg: seq<real>, node: nat): real
    requires node < |leg|
  {
    if node == 0 then 0.0 else Travelled(leg, node - 1) + leg[node]
  }

  /** Along even steps the way to a node is its number of them. */
  lemma {:induction false} EvenTravel(leg: seq<real>, step: real, node: nat)
    requires node < |leg| && forall i :: 0 < i <= node ==> leg[i] == step
    ensures Travelled(leg, node) == Mul(node as real, step)
  {
    if node > 0 {
      EvenTravel(leg, step, node - 1);
      assert (node as real - 1.0) * step == node as real * step - step;
      assert (node - 1) as real == node as real - 1.0;
    }
  }

  /** A node the walk looks at: the first, or one whose predecessor is short of the
      stopping distance. */
  predicate WithinStop(leg: seq<real>, stop: real, node: nat)
    requires 0 < node < |leg|
  {
    node == 1 || Travelled(leg, node - 1) < stop
  }

  lemma {:induction false} TravelledMono(leg: seq<real>, a: nat, b: nat)
    requires a <= b < |leg| && forall i :: 0 <= i < |leg| ==> leg[i] >= 0.0
    ensures Travelled(leg, a) <= Travelled(leg, b)
  {
    if a < b { TravelledMono(leg, a, b - 1); }
  }

  /** Walk the predicted poses out to the stopping distance: the candidate is vetoed exactly
      when one of the nodes within it is blocked. */
  method VetoWalk(blocked: seq<bool>, leg: seq<real>, stop: real) returns (vetoed: bool)
    requires |blocked| == |leg| > 0 && forall i :: 0 <= i < |leg| ==> leg[i] >= 0.0
    ensures vetoed <==> exists node :: 0 < node < |leg| && blocked[node] && WithinStop(leg, stop, node)
  {
    vetoed := false;
    var travelled := 0.0;
    var node := 1;
    while node < |blocked|
      invariant 1 <= node <= |blocked| && travelled == Travelled(leg, node - 1)
      invariant node > 1 ==> travelled < stop
      invariant forall k :: 0 < k < node ==> !blocked[k]
    {
      if blocked[node] {
        assert WithinStop(leg, stop, node);
        return true;
      }
      travelled := travelled + leg[node];
      if travelled >= stop {
        forall k | node < k < |leg| ensures !WithinStop(leg, stop, k) { TravelledMono(leg, node, k - 1); }
        return false;
      }
      node := node + 1;
    }
  }

  /** Where a body that starts at a speed and slows down at a constant rate is after a time. */
  function Coasted(speed: real, rate: real, time: real): real { Mul(speed, time) - Mul(rate, Mul(time, time)) / 2.0 }

  /** The stopping distance is where the ramp ends: no time takes the body farther, and it is
      there when its speed is used up. Without a rate nothing beyond the first node is looked
      at. */
  lemma StopsThere(speed: real, rate: real, time: real)
    ensures rate <= 0.0 ==> StopDistance(speed, rate) == 0.0
    ensures rate > 0.0 ==> Coasted(speed, rate, time) <= StopDistance(speed, rate)
    ensures rate > 0.0 && Mul(rate, time) == speed ==> Coasted(speed, rate, time) == StopDistance(speed, rate)
  {
    if rate > 0.0 {
      var stop, gap := StopDistance(speed, rate), speed - Mul(rate, time);
      assert Mul(stop, 2.0 * rate) == Mul(speed, speed);
      assert (stop - Coasted(speed, rate, time)) * (2.0 * rate) == gap * gap by { GapSquared(stop, speed, rate, time); }
      assert gap * gap >= 0.0;
      if stop < Coasted(speed, rate, time) { PositiveProduct(Coasted(speed, rate, time) - stop, 2.0 * rate); }
      if gap == 0.0 && stop > Coasted(speed, rate, time) { PositiveProduct(stop - Coasted(speed, rate, time), 2.0 * rate); }
    }
  }

  lemma GapSquared(stop: real, speed: real, rate: real, time: real)
    requires Mul(stop, 2.0 * rate) == Mul(speed, speed)
    ensures (stop - Coasted(speed, rate, time)) * (2.0 * rate) == (speed - Mul(rate, time)) * (speed - Mul(rate, time))
  {
    var rt := rate * time;
    assert rate * (time * time) == rt * time;
    assert (stop - (speed * time - rt * time / 2.0)) * (2.0 * rate) == stop * (2.0 * rate) - 2.0 * speed * rt + rt * rt by {
      Expanded(stop, speed, rate, time);
    }
    assert (speed - rt) * (speed - rt) == speed * speed - 2.0 * speed * rt + rt * rt;
  }

  lemma Expanded(stop: real, speed: real, rate: real, time: real)
    ensures var rt := rate * time;
            (stop - (speed * time - rt * time / 2.0)) * (2.0 * rate) == stop * (2.0 * rate) - 2.0 * speed * rt + rt * rt
  {
  }

  /** The distance braking from a speed at a rate covers. */
  function StopDistance(speed: real, rate: real): real {
    if rate > 0.0 then Mul(speed, speed) / (2.0 * rate) else 0.0
  }
}
