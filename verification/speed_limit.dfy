/** The speed box of the controller: Nav2 speed limits, the rate-limited yield to moving
    obstacles, and the hard cap that follows it. */
module SpeedLimit {
  import opened Basics
  import opened Linear
  import opened QpRows
  import opened ModelBounds
  import Cycle

  // ----- the yield factor

  const YIELD_RECOVERY_PER_S := 1.0

  /** The yield the deepest breach asks for. */
  function Target(deepest: real, band: real): real
    requires band > 0.0
  {
    Clamp(1.0 - deepest / band, 0.0, 1.0)
  }

  /** No breach asks for no yield, a breach as deep as the band for a stop, and in between the
      yield grows with the breach. */
  lemma TargetLaw(deepest: real, band: real)
    requires band > 0.0
    ensures deepest <= 0.0 ==> Target(deepest, band) == 1.0
    ensures deepest >= band ==> Target(deepest, band) == 0.0
    ensures 0.0 <= deepest <= band ==> Mul(1.0 - Target(deepest, band), band) == deepest
  {
    var q := deepest / band;
    assert Mul(q, band) == deepest;
    if deepest <= 0.0 { OrderProduct(band, q, 0.0); }
    if deepest >= band { OrderProduct(band, 1.0, q); }
    if 0.0 <= deepest <= band {
      OrderProduct(band, 0.0, q);
      OrderProduct(band, q, 1.0);
    }
  }

  /** Down at once, up at a bounded rate. */
  function YieldNext(factor: real, target: real, period: real): real {
    if target < factor then target else Min(target, factor + Mul(YIELD_RECOVERY_PER_S, period))
  }

  /** The factor after a stretch of cycles with the yield active; the last cycle is last. */
  function YieldRun(factor: real, targets: seq<real>, periods: seq<real>): real
    requires |targets| == |periods|
  {
    if targets == [] then factor
    else
      var last := |targets| - 1;
      YieldNext(YieldRun(factor, targets[..last], periods[..last]), targets[last], periods[last])
  }

  /** The time that has passed since cycle i, not counting cycle i itself. */
  function Since(periods: seq<real>, i: nat): real
    requires i <= |periods|
    decreases |periods|
  {
    if i == |periods| then 0.0 else Since(periods[..|periods| - 1], i) + Mul(YIELD_RECOVERY_PER_S, periods[|periods| - 1])
  }

  /** The rate limiter in closed form: the factor is below every past target plus the time
      since it, below the first factor plus the whole time, and equal to one of them. */
  ghost predicate LowestEnvelope(factor: real, targets: seq<real>, periods: seq<real>, r: real)
    requires |targets| == |periods|
  {
    && r <= factor + Since(periods, 0)
    && (forall i :: 0 <= i < |targets| ==> r <= targets[i] + Since(periods, i + 1))
    && (r == factor + Since(periods, 0) || exists i :: 0 <= i < |targets| && r == targets[i] + Since(periods, i + 1))
  }

  lemma {:induction false} YieldEnvelope(factor: real, targets: seq<real>, periods: seq<real>)
    requires |targets| == |periods| && forall i :: 0 <= i < |periods| ==> periods[i] >= 0.0
    ensures LowestEnvelope(factor, targets, periods, YieldRun(factor, targets, periods))
  {
    if targets != [] {
      hide Mul;
      var last := |targets| - 1;
      var ts, ps := targets[..last], periods[..last];
      YieldEnvelope(factor, ts, ps);
      var prev, r, up := YieldRun(factor, ts, ps), YieldRun(factor, targets, periods), Mul(YIELD_RECOVERY_PER_S, periods[last]);
      Rises(periods[last]);
      assert Since(periods, 0) == Since(ps, 0) + up;
      forall i | 0 <= i < |targets| ensures r <= targets[i] + Since(periods, i + 1) {
        if i < last { assert ts[i] == targets[i] && Since(periods, i + 1) == Since(ps, i + 1) + up; }
      }
      if r == targets[last] {
        assert r == targets[last] + Since(periods, last + 1);
      } else {
        assert r == prev + up;
        if prev != factor + Since(ps, 0) {
          var i :| 0 <= i < |ts| && prev == ts[i] + Since(ps, i + 1);
          assert ts[i] == targets[i] && Since(periods, i + 1) == Since(ps, i + 1) + up;
        }
      }
    }
  }

  lemma Rises(period: real)
    requires period >= 0.0
    ensures Mul(YIELD_RECOVERY_PER_S, period) == period >= 0.0
  {
  }

  /** The factor stays between zero and one, never exceeds the target of its cycle, drops to
      a lower target at once, and recovers by no more than the period per cycle. */
  lemma YieldStep(factor: real, target: real, period: real)
    requires 0.0 <= factor <= 1.0 && 0.0 <= target <= 1.0 && period >= 0.0
    ensures var r := YieldNext(factor, target, period);
            && 0.0 <= r <= 1.0 && r <= target && (target <= factor ==> r == target)
            && r <= factor + period && (r < target ==> r == factor + period)
  {
    Rises(period);
  }

  // ----- the cap

  datatype Channel = Channel(vMin: real, vMax: real, duLow: real, duUpp: real, dt: real)

  predicate ValidChannel(c: Channel) { c.vMin <= c.vMax && c.vMax > 0.0 && c.duLow <= c.duUpp && c.dt > 0.0 }

  /** The speed limit's own box. */
  function LimitLow(c: Channel, maxLinear: real): real { Max(c.vMin, -maxLinear) }
  function LimitUpp(c: Channel, maxLinear: real): real { Min(c.vMax, maxLinear) }

  /** The slowest speed one step can reach. */
  function Reachable(c: Channel, last: real): real { last - Mul(Abs(c.duLow), c.dt) }

  /** The upper bound the yield leaves. */
  function Cap(c: Channel, maxLinear: real, factor: real, last: real): real {
    var vLim := LimitUpp(c, maxLinear);
    Max(LimitLow(c, maxLinear), Min(vLim, Max(Mul(vLim, factor), Reachable(c, last))))
  }

  /** Some first control is inside a box and within one rate step of the last command. */
  ghost predicate OneStepMeets(c: Channel, last: real, low: real, upp: real) {
    exists v: real :: StepMeets(c, last, low, upp, v)
  }

  predicate StepMeets(c: Channel, last: real, low: real, upp: real, v: real) {
    low <= v <= upp && Mul(c.duLow, c.dt) <= v - last <= Mul(c.duUpp, c.dt)
  }

  /** The capped box is never empty, never above the speed limit unless the model's own
      minimum speed is, and not below what the yield asks for. */
  lemma CapInside(c: Channel, maxLinear: real, factor: real, last: real)
    requires ValidChannel(c) && maxLinear >= 0.0
    ensures var low, upp, cap := Max(c.vMin, -maxLinear), Min(c.vMax, maxLinear), Cap(c, maxLinear, factor, last);
            && low == LimitLow(c, maxLinear) && upp == LimitUpp(c, maxLinear)
            && low <= cap && (low <= upp ==> cap <= upp) && (upp < low ==> cap == low)
            && (low <= Mul(upp, factor) <= upp ==> cap >= Mul(upp, factor))
            && (low <= Mul(upp, factor) <= upp && Mul(upp, factor) >= Reachable(c, last) ==> cap == Mul(upp, factor))
  {
  }

  lemma Negated(x: real, dt: real)
    ensures x <= 0.0 ==> Mul(Abs(x), dt) == -Mul(x, dt)
  {
  }

  lemma WindowMeetsIff(c: Channel, last: real, low: real, upp: real)
    requires ValidChannel(c) && low <= upp
    ensures OneStepMeets(c, last, low, upp) <==> last + Mul(c.duLow, c.dt) <= upp && low <= last + Mul(c.duUpp, c.dt)
  {
    hide Mul;
    MonoProduct(c.dt, c.duLow, c.duUpp);
    var a, b := last + Mul(c.duLow, c.dt), last + Mul(c.duUpp, c.dt);
    var v := Max(low, a);
    if a <= upp && low <= b { assert StepMeets(c, last, low, upp, v); }
  }

  /** Whatever the limit and the yield, the capped box can be met in one step about the
      core's anchor when the speed limit's own box can. The cap is computed from the command
      last applied, the step counts from the anchor. */
  ghost predicate CapNeverBlocks(c: Channel, last: real, anchor: real) {
    forall maxLinear: real, factor: real {:trigger Cap(c, maxLinear, factor, last)} ::
      0.0 <= maxLinear <= c.vMax && 0.0 <= factor <= 1.0 && OneStepMeets(c, anchor, LimitLow(c, maxLinear), LimitUpp(c, maxLinear))
      ==> OneStepMeets(c, anchor, LimitLow(c, maxLinear), Cap(c, maxLinear, factor, last))
  }

  /** The slowest first control the program allows. */
  function Slowest(c: Channel, anchor: real): real { anchor + Mul(c.duLow, c.dt) }

  /** The cap takes away no program's last first control if and only if the slowest one is out
      of range anyway, asks for no forward speed, is no faster than the model's minimum, or is
      one the cap still counts as reachable. */
  lemma CapNeverBlocksIff(c: Channel, last: real, anchor: real)
    requires ValidChannel(c)
    ensures var slow := Slowest(c, anchor);
            CapNeverBlocks(c, last, anchor) <==> slow > c.vMax || slow <= 0.0 || slow <= c.vMin || slow <= Reachable(c, last)
  {
    var slow := Slowest(c, anchor);
    if slow > c.vMax || slow <= 0.0 || slow <= c.vMin || slow <= Reachable(c, last) {
      forall maxLinear: real, factor: real {:trigger Cap(c, maxLinear, factor, last)} |
        0.0 <= maxLinear <= c.vMax && 0.0 <= factor <= 1.0 && OneStepMeets(c, anchor, LimitLow(c, maxLinear), LimitUpp(c, maxLinear))
        ensures OneStepMeets(c, anchor, LimitLow(c, maxLinear), Cap(c, maxLinear, factor, last))
      {
        CapKeeps(c, maxLinear, factor, last, anchor);
      }
    } else {
      CapBlocks(c, last, anchor);
    }
  }

  lemma CapKeeps(c: Channel, maxLinear: real, factor: real, last: real, anchor: real)
    requires ValidChannel(c) && maxLinear >= 0.0 && (factor >= 0.0 || Slowest(c, anchor) <= Reachable(c, last))
    requires var slow := Slowest(c, anchor); slow > c.vMax || slow <= 0.0 || slow <= LimitLow(c, maxLinear) || slow <= Reachable(c, last)
    requires OneStepMeets(c, anchor, LimitLow(c, maxLinear), LimitUpp(c, maxLinear))
    ensures OneStepMeets(c, anchor, LimitLow(c, maxLinear), Cap(c, maxLinear, factor, last))
  {
    var low, upp := LimitLow(c, maxLinear), LimitUpp(c, maxLinear);
    if factor >= 0.0 { NonnegProduct(upp, factor); }
    CapInside(c, maxLinear, factor, last);
    assert low <= upp by { var v: real :| StepMeets(c, anchor, low, upp, v); }
    WindowMeetsIff(c, anchor, low, upp);
    WindowMeetsIff(c, anchor, low, Cap(c, maxLinear, factor, last));
    hide Mul;
  }

  /** Under the full limit and a yield at zero the cap falls below every control the program
      allows. */
  lemma CapBlocks(c: Channel, last: real, anchor: real)
    requires ValidChannel(c)
    requires var slow := Slowest(c, anchor); slow <= c.vMax && slow > 0.0 && slow > c.vMin && slow > Reachable(c, last)
    ensures !CapNeverBlocks(c, last, anchor)
  {
    var low, upp, cap := LimitLow(c, c.vMax), LimitUpp(c, c.vMax), Cap(c, c.vMax, 0.0, last);
    MonoProduct(c.dt, c.duLow, c.duUpp);
    NoShare(upp);
    hide Mul;
    assert StepMeets(c, anchor, low, upp, Slowest(c, anchor));
    assert cap < Slowest(c, anchor);
    assert !OneStepMeets(c, anchor, low, cap);
  }

  lemma NoShare(v: real)
    ensures Mul(v, 0.0) == 0.0
  {
  }

  /** While anchor and last command agree, the cap is harmless at every speed if and only if
      the model may slow down, or has a single speed to drive at. */
  lemma CapHarmlessSyncedIff(c: Channel)
    requires ValidChannel(c)
    ensures (forall v: real :: CapNeverBlocks(c, v, v)) <==> c.duLow <= 0.0 || c.vMin >= c.vMax
  {
    hide CapNeverBlocks;
    if c.duLow <= 0.0 || c.vMin >= c.vMax {
      forall v: real ensures CapNeverBlocks(c, v, v) {
        CapNeverBlocksIff(c, v, v);
        Negated(c.duLow, c.dt);
      }
    } else {
      var last := c.vMax - Mul(c.duLow, c.dt);
      CapNeverBlocksIff(c, last, last);
      PositiveProduct(c.duLow, c.dt);
      assert !CapNeverBlocks(c, last, last);
    }
  }

  /** In a run, a state in which anchor and last command agree is never blocked. */
  lemma SyncedNeverBlocked(c: Channel, s: Cycle.State, idxV: nat)
    requires ValidChannel(c) && c.duLow <= 0.0 && Cycle.Synced(s) && idxV < |s.lastU|
    ensures CapNeverBlocks(c, s.lastU[idxV], s.anchor[idxV])
  {
    CapHarmlessSyncedIff(c);
  }

  /** A robot at half speed is given a new task, whose first cycle throws under a budget of
      zero: anchor and last command are apart, and a full yield then leaves the program
      without a first control although the speed limit's own box has one. */
  lemma BlockedAfterReset(s: Cycle.State, e: Cycle.Event, limits: Cycle.Limits)
    requires s.anchor == [0.5] && s.lastU == [0.5] && limits.budget == 0 && Cycle.ValidLimits(limits, 1)
    requires Cycle.FitEvent(e, 1) && (e.verdict.Fail? || e.verdict.Vetoed?)
    ensures var c := Channel(-1.0, 1.0, -1.0, 1.0, 0.1);
            var (t, r) := Cycle.Next(limits, Cycle.Reset(s), e);
            && r == Cycle.NoValidControl && t.lastU == [0.0] && t.anchor == [0.5]
            && ValidChannel(c) && c.duLow <= 0.0 && !CapNeverBlocks(c, t.lastU[0], t.anchor[0])
  {
    assert Zeros(1) == [0.0];
    CapNeverBlocksIff(Channel(-1.0, 1.0, -1.0, 1.0, 0.1), 0.0, 0.5);
  }

  /** From an anchor inside the limit and a rate bound that contains zero, one step meets the
      capped box for every yield if and only if the slowest first control asks for no forward
      speed, is no faster than the limit's lower side, or counts as reachable from the command
      last applied. */
  lemma CapFeasible(c: Channel, maxLinear: real, last: real, anchor: real)
    requires ValidChannel(c) && maxLinear >= 0.0 && c.duLow <= 0.0 <= c.duUpp
    requires LimitLow(c, maxLinear) <= anchor <= LimitUpp(c, maxLinear)
    ensures (forall factor: real {:trigger Cap(c, maxLinear, factor, last)} :: 0.0 <= factor <= 1.0 ==>
               OneStepMeets(c, anchor, LimitLow(c, maxLinear), Cap(c, maxLinear, factor, last)))
            <==> Slowest(c, anchor) <= Max(Max(0.0, LimitLow(c, maxLinear)), Reachable(c, last))
  {
    var low, upp, slow := LimitLow(c, maxLinear), LimitUpp(c, maxLinear), Slowest(c, anchor);
    NoShare(upp);
    StandStill(c, maxLinear, anchor);
    if slow <= Max(Max(0.0, low), Reachable(c, last)) {
      forall factor: real {:trigger Cap(c, maxLinear, factor, last)} | 0.0 <= factor <= 1.0
        ensures OneStepMeets(c, anchor, low, Cap(c, maxLinear, factor, last))
      {
        CapKeeps(c, maxLinear, factor, last, anchor);
      }
    } else {
      CapInside(c, maxLinear, 0.0, last);
      WindowMeetsIff(c, anchor, low, Cap(c, maxLinear, 0.0, last));
      assert Cap(c, maxLinear, 0.0, last) < slow;
      assert !OneStepMeets(c, anchor, low, Cap(c, maxLinear, 0.0, last));
    }
  }

  /** The cap is the least top the speed box can be given: it does not fall below what the
      yield asks for, one step from the command last applied can meet it, and no lower top does
      both. */
  lemma CapIsLeast(c: Channel, maxLinear: real, factor: real, last: real, top: real)
    requires ValidChannel(c) && maxLinear >= 0.0 && 0.0 <= factor <= 1.0 && c.duLow <= 0.0 <= c.duUpp
    requires Max(c.vMin, -maxLinear) <= last <= Min(c.vMax, maxLinear)
    ensures var low, upp, cap := Max(c.vMin, -maxLinear), Min(c.vMax, maxLinear), Cap(c, maxLinear, factor, last);
            && low <= cap <= upp && Mul(upp, factor) <= cap && OneStepMeets(c, last, low, cap)
            && (low <= top <= upp && Mul(upp, factor) <= top && OneStepMeets(c, last, low, top) ==> cap <= top)
  {
    var low, upp := LimitLow(c, maxLinear), LimitUpp(c, maxLinear);
    assert 0.0 <= upp;
    FractionProduct(factor, upp);
    CapInside(c, maxLinear, factor, last);
    StandStill(c, maxLinear, last);
    Negated(c.duLow, c.dt);
    CapKeeps(c, maxLinear, factor, last, last);
    if low <= top { WindowMeetsIff(c, last, low, top); }
  }

  /** With rates around zero a control inside the limit can be kept. */
  lemma StandStill(c: Channel, maxLinear: real, anchor: real)
    requires ValidChannel(c) && c.duLow <= 0.0 <= c.duUpp && LimitLow(c, maxLinear) <= anchor <= LimitUpp(c, maxLinear)
    ensures OneStepMeets(c, anchor, LimitLow(c, maxLinear), LimitUpp(c, maxLinear)) && Slowest(c, anchor) <= anchor
  {
    MonoProduct(c.dt, c.duLow, 0.0);
    MonoProduct(c.dt, 0.0, c.duUpp);
    assert Mul(0.0, c.dt) == 0.0;
    assert StepMeets(c, anchor, LimitLow(c, maxLinear), LimitUpp(c, maxLinear), anchor);
  }

  /** Accepted commands under one limit: each inside the box its own yield left. */
  ghost predicate CappedRun(c: Channel, maxLinear: real, factors: seq<real>, speeds: seq<real>) {
    && |speeds| == |factors| + 1
    && forall k :: 0 <= k < |factors| ==> StepMeets(c, speeds[k], LimitLow(c, maxLinear), Cap(c, maxLinear, factors[k], speeds[k]), speeds[k + 1])
  }

  /** A run that starts inside the limit stays inside it, so every cycle of the run had a
      first control to choose. */
  lemma {:induction false} CappedRunStays(c: Channel, maxLinear: real, factors: seq<real>, speeds: seq<real>, k: nat)
    requires ValidChannel(c) && maxLinear >= 0.0 && c.duLow <= 0.0 <= c.duUpp && LimitLow(c, maxLinear) <= LimitUpp(c, maxLinear)
    requires CappedRun(c, maxLinear, factors, speeds) && LimitLow(c, maxLinear) <= speeds[0] <= LimitUpp(c, maxLinear) && k < |speeds|
    ensures LimitLow(c, maxLinear) <= speeds[k] <= LimitUpp(c, maxLinear)
    ensures k < |factors| ==> OneStepMeets(c, speeds[k], LimitLow(c, maxLinear), Cap(c, maxLinear, factors[k], speeds[k]))
  {
    if k > 0 {
      CappedRunStays(c, maxLinear, factors, speeds, k - 1);
      CapInside(c, maxLinear, factors[k - 1], speeds[k - 1]);
      assert StepMeets(c, speeds[k - 1], LimitLow(c, maxLinear), Cap(c, maxLinear, factors[k - 1], speeds[k - 1]), speeds[k]);
    }
    if k < |factors| {
      StandStill(c, maxLinear, speeds[k]);
      Negated(c.duLow, c.dt);
      CapKeeps(c, maxLinear, factors[k], speeds[k], speeds[k]);
    }
  }

  // ----- the object

  class SpeedGovernor {
    const model: Model
    const c: Channel
    const idxV: nat
    const caps: bool
    const band: real
    var maxLinear: real
    var factor: real

    ghost predicate Valid()
      reads this, model
    {
      && model.Valid() && ValidChannel(c) && 0.0 <= maxLinear <= c.vMax && 0.0 <= factor <= 1.0
      && HasBound(model.Table(OfControl), idxV)
    }

    constructor (model: Model, c: Channel, idxV: nat, caps: bool, band: real)
      requires model.Valid() && ValidChannel(c) && HasBound(model.Table(OfControl), idxV)
      ensures Valid() && maxLinear == c.vMax && factor == 1.0 && this.model == model && this.c == c && this.idxV == idxV && this.caps == caps && this.band == band
    {
      this.model, this.c, this.idxV, this.caps, this.band := model, c, idxV, caps, band;
      maxLinear, factor := c.vMax, 1.0;
    }

    /** The limit a request stands for: none, a share of the model's own, or a value. */
    function Requested(limit: real, percentage: bool): real
    {
      Clamp(if limit <= 0.0 then c.vMax else if percentage then (limit / 100.0) * c.vMax else limit, 0.0, c.vMax)
    }

    /** Intersect the model's declared range with a requested limit. It fails exactly when
        the limit is below a positive minimum speed of the model, and then nothing moves. */
    method ApplySpeedLimit(limit: real, percentage: bool) returns (o: Outcome, at: nat)
      requires Valid()
      modifies this`maxLinear, model`x, model`u, model`du, model`w
      ensures Valid()
      ensures o.Failed? <==> Requested(limit, percentage) < c.vMin
      ensures o.Failed? ==> maxLinear == old(maxLinear) && model.Table(OfControl) == old(model.Table(OfControl))
      ensures o.Done? ==> maxLinear == Requested(limit, percentage) && LastMatch(old(model.Table(OfControl)), idxV, at)
      ensures o.Done? ==> model.Table(OfControl) == old(model.Table(OfControl))[at := Bound(idxV, LimitLow(c, maxLinear), maxLinear)]
      ensures forall k: Kind :: k != OfControl ==> model.Table(k) == old(model.Table(k))
    {
      var vLim := Requested(limit, percentage);
      ghost var was := model.Table(OfControl);
      o, at := model.UpdateIneq(OfControl, idxV, Max(c.vMin, -vLim), Min(c.vMax, vLim));
      if o.Done? {
        maxLinear := vLim;
        assert Matches(model.Table(OfControl), idxV, at);
      } else {
        assert model.Table(OfControl) == was;
      }
    }

    /** One cycle of the yield: the factor moves, and the capped box is written over the
        speed limit's one. */
    method Yield(active: bool, deepest: real, period: real, last: real) returns (ghost at: nat)
      requires Valid() && period >= 0.0 && (active ==> band > 0.0)
      modifies this`factor, model`x, model`u, model`du, model`w
      ensures Valid()
      ensures factor == if active then YieldNext(old(factor), Target(deepest, band), period) else 1.0
      ensures caps && band > 0.0 ==> LastMatch(old(model.Table(OfControl)), idxV, at)
      ensures caps && band > 0.0 ==> model.Table(OfControl) == old(model.Table(OfControl))[at := Bound(idxV, LimitLow(c, maxLinear), Cap(c, maxLinear, factor, last))]
      ensures !(caps && band > 0.0) ==> model.Table(OfControl) == old(model.Table(OfControl))
      ensures forall k: Kind :: k != OfControl ==> model.Table(k) == old(model.Table(k))
    {
      at := 0;
      ghost var was := model.Table(OfControl);
      if active {
        YieldStep(factor, Target(deepest, band), period);
        factor := YieldNext(factor, Target(deepest, band), period);
      } else {
        factor := 1.0;
      }
      if caps && band > 0.0 {
        CapInside(c, maxLinear, factor, last);
        var o, k := model.UpdateIneq(OfControl, idxV, LimitLow(c, maxLinear), Cap(c, maxLinear, factor, last));
        at := k;
        assert Matches(model.Table(OfControl), idxV, at);
      } else {
        assert model.Table(OfControl) == was;
      }
    }
  }

  /** What a request stands for: no limit unless it is positive, otherwise its share of the
      model's own speed or its value, and never more than the model's own. */
  lemma RequestedLaw(gov: SpeedGovernor, limit: real)
    requires ValidChannel(gov.c)
    ensures limit <= 0.0 ==> gov.Requested(limit, true) == gov.c.vMax && gov.Requested(limit, false) == gov.c.vMax
    ensures 0.0 < limit <= 100.0 ==> Mul(100.0, gov.Requested(limit, true)) == Mul(limit, gov.c.vMax)
    ensures limit >= 100.0 ==> gov.Requested(limit, true) == gov.c.vMax
    ensures 0.0 < limit <= gov.c.vMax ==> gov.Requested(limit, false) == limit
    ensures limit >= gov.c.vMax ==> gov.Requested(limit, false) == gov.c.vMax
  {
    var share, top := limit / 100.0, gov.c.vMax;
    if 0.0 < limit {
      OrderProduct(100.0, share, 0.0);
      NonnegProduct(share, top);
      if limit <= 100.0 { MonoProduct(top, share, 1.0); }
      if limit >= 100.0 { MonoProduct(top, 1.0, share); }
      assert 100.0 * (share * top) == (100.0 * share) * top;
    }
  }

  /** Lifting the limit brings the declared range back exactly when the model does not drive
      faster backward than forward. */
  lemma RestoreIff(c: Channel)
    requires ValidChannel(c)
    ensures LimitLow(c, c.vMax) == c.vMin <==> c.vMin >= -c.vMax
    ensures LimitUpp(c, c.vMax) == c.vMax
  {
  }
}
