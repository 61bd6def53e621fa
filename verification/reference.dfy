/** The horizon reference: which way to travel, how far the reference may reach, and how
    fast it is driven. */
module Reference {
  import opened Basics
  import opened Linear
  import opened PlanPath

  // ----- the direction latch

  datatype Gait = Forward | Reverse

  datatype Rules = Rules(standstill: real, dwell: real)

  /** The travel direction held, and the time since it last changed. */
  datatype Latch = Latch(gait: Gait, hold: real)

  /** One cycle as the latch sees it: the measured period, whether every reverse gate is
      on, the plan's direction under the robot, and the speed last commanded. */
  datatype Cycle = Cycle(period: real, gates: bool, d0: real, lastV: real)

  function Wanted(d: real): Gait { if d < 0.0 then Reverse else Forward }

  predicate MayFlip(r: Rules, hold: real, lastV: real) { Abs(lastV) <= r.standstill && hold >= r.dwell }

  function NextLatch(r: Rules, l: Latch, e: Cycle): Latch {
    var hold := l.hold + e.period;
    if !e.gates then Latch(Forward, hold)
    else if Wanted(e.d0) != l.gait && MayFlip(r, hold, e.lastV) then Latch(Wanted(e.d0), 0.0)
    else Latch(l.gait, hold)
  }

  predicate Pending(r: Rules, l: Latch, e: Cycle) {
    e.gates && Wanted(e.d0) != l.gait && !MayFlip(r, l.hold + e.period, e.lastV)
  }

  function RunLatch(r: Rules, l: Latch, es: seq<Cycle>): Latch {
    if es == [] then l else NextLatch(r, RunLatch(r, l, es[..|es| - 1]), es[|es| - 1])
  }

  predicate FlipAt(r: Rules, l: Latch, es: seq<Cycle>, k: nat)
    requires k < |es|
  {
    RunLatch(r, l, es[..k + 1]).gait != RunLatch(r, l, es[..k]).gait
  }

  /** The time of cycles i .. j - 1. */
  function Elapsed(es: seq<Cycle>, i: nat, j: nat): real
    requires i <= j <= |es|
  {
    if i == j then 0.0 else Elapsed(es, i, j - 1) + es[j - 1].period
  }

  ghost predicate Timed(es: seq<Cycle>) { forall i :: 0 <= i < |es| ==> es[i].period >= 0.0 }

  predicate GatesOn(es: seq<Cycle>) { forall i :: 0 <= i < |es| ==> es[i].gates }

  lemma RunNext(r: Rules, l: Latch, es: seq<Cycle>, k: nat)
    requires k < |es|
    ensures RunLatch(r, l, es[..k + 1]) == NextLatch(r, RunLatch(r, l, es[..k]), es[k])
  {
    assert es[..k + 1][..k] == es[..k];
  }

  /** With every gate on, the direction changes only from rest and only after the dwell. */
  lemma FlipsFromRest(r: Rules, l: Latch, es: seq<Cycle>, k: nat)
    requires GatesOn(es) && k < |es| && FlipAt(r, l, es, k)
    ensures Abs(es[k].lastV) <= r.standstill && RunLatch(r, l, es[..k]).hold + es[k].period >= r.dwell
    ensures RunLatch(r, l, es[..k + 1]) == Latch(Wanted(es[k].d0), 0.0)
  {
    RunNext(r, l, es, k);
  }

  /** The hold never exceeds the time since any earlier change. */
  lemma {:induction false} HoldSince(r: Rules, l: Latch, es: seq<Cycle>, i: nat, j: nat)
    requires GatesOn(es) && Timed(es) && i < j <= |es| && FlipAt(r, l, es, i)
    ensures RunLatch(r, l, es[..j]).hold <= Elapsed(es, i + 1, j) && Elapsed(es, i + 1, j) >= 0.0
  {
    if j == i + 1 {
      FlipsFromRest(r, l, es, i);
    } else {
      HoldSince(r, l, es, i, j - 1);
      RunNext(r, l, es, j - 1);
    }
  }

  /** Two changes of direction are at least the dwell apart in accumulated time. */
  lemma FlipsApart(r: Rules, l: Latch, es: seq<Cycle>, i: nat, j: nat)
    requires GatesOn(es) && Timed(es) && i < j < |es| && FlipAt(r, l, es, i) && FlipAt(r, l, es, j)
    ensures Elapsed(es, i + 1, j + 1) >= r.dwell
  {
    HoldSince(r, l, es, i, j);
    FlipsFromRest(r, l, es, j);
  }

  /** The plan runs that way under the robot all along: backward where its direction is negative. */
  predicate AllWant(es: seq<Cycle>, w: Gait) { forall i :: 0 <= i < |es| ==> (es[i].d0 < 0.0 <==> w == Reverse) }

  /** A cycle at rest at which the dwell has passed. */
  predicate Rested(r: Rules, l: Latch, es: seq<Cycle>, k: nat) {
    k < |es| && Abs(es[k].lastV) <= r.standstill && l.hold + Elapsed(es, 0, k + 1) >= r.dwell
  }

  lemma {:induction false} ElapsedPrefix(es: seq<Cycle>, n: nat, k: nat)
    requires k <= n <= |es|
    ensures Elapsed(es[..n], 0, k) == Elapsed(es, 0, k)
  {
    if k > 0 { ElapsedPrefix(es, n, k - 1); }
  }

  /** While the plan asks for the other direction, with every gate on, the direction has changed
      if and only if some cycle so far found the robot at rest with the dwell passed; until
      then the change is pending and the dwell has run all the time. */
  lemma {:induction false} FlipsIff(r: Rules, l: Latch, es: seq<Cycle>, w: Gait)
    requires GatesOn(es) && AllWant(es, w) && w != l.gait
    ensures var t := RunLatch(r, l, es);
            && (t.gait == w <==> exists k :: Rested(r, l, es, k))
            && (t.gait != w ==> t == Latch(l.gait, l.hold + Elapsed(es, 0, |es|)))
    ensures es != [] ==> var was := RunLatch(r, l, es[..|es| - 1]); RunLatch(r, l, es).gait != w <==> was.gait != w && Pending(r, was, es[|es| - 1])
  {
    if es != [] {
      var last := |es| - 1;
      FlipsIff(r, l, es[..last], w);
      ElapsedPrefix(es, last, last);
      if k: nat :| Rested(r, l, es, k) {
        if k < last {
          ElapsedPrefix(es, last, k + 1);
          assert Rested(r, l, es[..last], k);
        }
      }
      if k: nat :| Rested(r, l, es[..last], k) {
        ElapsedPrefix(es, last, k + 1);
        assert Rested(r, l, es, k);
      }
      if MayFlip(r, RunLatch(r, l, es[..last]).hold + es[last].period, es[last].lastV) && RunLatch(r, l, es[..last]).gait != w {
        assert Rested(r, l, es, last);
      }
    }
  }

  /** In any run, a cycle changes direction without rest and dwell if and only if one of its
      gates is off while the robot was driving in reverse. */
  lemma UnguardedFlipIff(r: Rules, l: Latch, es: seq<Cycle>, k: nat)
    requires k < |es|
    ensures var was := RunLatch(r, l, es[..k]);
            var guarded := MayFlip(r, was.hold + es[k].period, es[k].lastV);
            FlipAt(r, l, es, k) && !guarded <==> !es[k].gates && was.gait == Reverse && !guarded
  {
    RunNext(r, l, es, k);
  }

  // ----- how far the reference may reach

  /** A segment is driven the way the robot travels, or carries no direction. */
  predicate Agrees(d: real, gait: Gait) { d == 0.0 || Wanted(d) == gait }

  /** Where the reference of a cycle ends: at the robot while a change of direction is
      pending, otherwise at the first segment driven the other way or the end of the plan. */
  ghost predicate EndsAt(s: seq<real>, along: seq<real>, pl: Place, gates: bool, pending: bool, gait: Gait, sEnd: real)
    requires |along| + 1 == |s|
  {
    && pl.s0 <= sEnd <= s[|s| - 1] && (pending ==> sEnd == pl.s0) && (!gates ==> sEnd == s[|s| - 1])
    && (gates && !pending ==> forall k {:trigger along[k]} :: pl.seg <= k < |along| && s[k] < sEnd ==> Agrees(along[k], gait))
    && (!pending ==> sEnd == s[|s| - 1] || exists k :: pl.seg < k < |along| && sEnd == s[k] && !Agrees(along[k], gait))
  }

  class DirectionLatch {
    const rules: Rules
    var gait: Gait
    var hold: real

    function Now(): Latch reads this { Latch(gait, hold) }

    /** A new task: forward, with the dwell already spent. */
    constructor (rules: Rules)
      ensures this.rules == rules && Now() == Latch(Forward, rules.dwell)
    {
      this.rules, gait, hold := rules, Forward, rules.dwell;
    }

    /** Advance the dwell and decide the direction; the reference ends at the robot while a
        change is pending, otherwise at the first segment driven the other way, or at the
        end of the plan. `along` holds the signed length of each segment seen from the
        heading of its start. */
    method Direct(root: real -> real, p: Polyline, s: seq<real>, along: seq<real>, pl: Place, e: Cycle) returns (sEnd: real)
      requires IsArc(root, p, s) && |along| + 1 == |p| && pl.seg < |p|
      requires s[pl.seg] <= pl.s0 <= s[|s| - 1] && (pl.seg + 1 < |p| ==> pl.s0 <= s[pl.seg + 1])
      requires e.gates ==> pl.seg < |along| && e.d0 == along[pl.seg]
      modifies this
      ensures Now() == NextLatch(rules, old(Now()), e)
      ensures EndsAt(s, along, pl, e.gates, Pending(rules, old(Now()), e), gait, sEnd)
    {
      hide IsArc;
      hold := hold + e.period;
      ArcSize(root, p, s);
      sEnd := s[|s| - 1];
      if !e.gates {
        gait := Forward;
        return;
      }
      if Wanted(e.d0) != gait {
        if MayFlip(rules, hold, e.lastV) {
          gait, hold := Wanted(e.d0), 0.0;
        } else {
          return pl.s0;
        }
      }
      if sEnd > pl.s0 {
        for i := pl.seg + 1 to |along|
          invariant sEnd == s[|s| - 1] && forall k :: pl.seg <= k < i ==> Agrees(along[k], gait)
        {
          if along[i] != 0.0 && (along[i] < 0.0) != (gait == Reverse) {
            sEnd := s[i];
            ArcOrdered(root, p, s, pl.seg + 1, i);
            ArcOrdered(root, p, s, i, |s| - 1);
            forall k | pl.seg <= k < |along| && s[k] < sEnd ensures Agrees(along[k], gait) {
              if k >= i { ArcOrdered(root, p, s, i, k); }
            }
            break;
          }
        }
      } else {
        forall k | pl.seg <= k < |along| && s[k] < sEnd ensures Agrees(along[k], gait) {
          if k > pl.seg { ArcOrdered(root, p, s, pl.seg + 1, k); }
        }
      }
    }
  }

  lemma ArcSize(root: real -> real, p: Polyline, s: seq<real>)
    requires IsArc(root, p, s)
    ensures |s| == |p| > 0
  {
  }

  // ----- cruise speed

  /** What may slow the cruise: the caps, the terminal easing, the curvature taper and the
      yield to moving obstacles, the last two off while settling. */
  datatype Easing = Easing(desired: real, maxLinear: real, rotate: bool, xyTol: Option<real>, settling: bool,
                           curvatureGain: real, kappa: real, yieldFactor: real)

  predicate ValidEasing(z: Easing) {
    (z.xyTol.Some? ==> z.xyTol.value > 0.0) && z.curvatureGain >= 0.0 && z.kappa >= 0.0 && 0.0 <= z.yieldFactor <= 1.0
  }

  /** The cruise speed before any easing: no faster than asked for, and slow enough that the
      horizon does not pass the end of the reference. */
  function Base(z: Easing, remaining: real, horizon: real): (v: real)
    requires horizon > 0.0
    ensures v >= 0.0 && (z.desired >= 0.0 ==> v <= z.desired) && (z.maxLinear >= 0.0 ==> v <= z.maxLinear)
    ensures remaining >= 0.0 ==> Mul(v, horizon) <= remaining
    ensures remaining <= 0.0 ==> v == 0.0
  {
    var v := Min(Min(z.desired, z.maxLinear), remaining / horizon);
    Taper(remaining, horizon);
    Scaled(remaining / horizon, v, horizon);
    if v < 0.0 then 0.0 else v
  }

  /** The share the terminal easing leaves. */
  function TerminalShare(z: Easing, remaining: real): (f: real)
    requires ValidEasing(z)
    ensures 0.0 <= f <= 1.0 && (z.rotate ==> f == 0.0)
  {
    if z.rotate then 0.0 else if z.xyTol.Some? then Clamp(remaining / z.xyTol.value, 0.0, 1.0) else 1.0
  }

  /** The share the curvature taper leaves. */
  function BendShare(z: Easing): (f: real)
    requires ValidEasing(z)
    ensures 0.0 < f <= 1.0
  {
    BendLaw(1.0, z.curvatureGain, z.kappa);
    if z.settling then 1.0 else 1.0 / (1.0 + Mul(z.curvatureGain, z.kappa))
  }

  function YieldShare(z: Easing): (f: real)
    requires ValidEasing(z)
    ensures 0.0 <= f <= 1.0
  {
    if z.settling then 1.0 else z.yieldFactor
  }

  /** The cruise speed: the base eased by the three shares. */
  function Pace(z: Easing, remaining: real, horizon: real): real
    requires ValidEasing(z) && horizon > 0.0
  {
    Mul(Mul(Mul(Base(z, remaining, horizon), TerminalShare(z, remaining)), BendShare(z)), YieldShare(z))
  }

  /** The cruise speed is the base eased by three shares, so it never exceeds the base: the
      horizon still ends within the reference, and any share of zero stops the robot. */
  method Cruise(z: Easing, remaining: real, horizon: real) returns (v: real)
    requires ValidEasing(z) && horizon > 0.0
    ensures v == Pace(z, remaining, horizon)
    ensures 0.0 <= v <= Base(z, remaining, horizon)
    ensures remaining >= 0.0 ==> Mul(v, horizon) <= remaining
    ensures remaining <= 0.0 || z.rotate || YieldShare(z) == 0.0 ==> v == 0.0
  {
    hide Mul;
    v := Min(Min(z.desired, z.maxLinear), remaining / horizon);
    if v < 0.0 { v := 0.0; }
    var base := v;
    assert base == Base(z, remaining, horizon);
    EaseShrinks(base, TerminalShare(z, remaining));
    if z.rotate {
      v := 0.0;
    } else if z.xyTol.Some? {
      v := Mul(v, Clamp(remaining / z.xyTol.value, 0.0, 1.0));
    }
    ghost var eased := Mul(base, TerminalShare(z, remaining));
    assert v == eased;
    BendLaw(v, z.curvatureGain, z.kappa);
    EaseShrinks(v, BendShare(z));
    if z.curvatureGain > 0.0 && v > 0.0 && !z.settling {
      v := v / (1.0 + Mul(z.curvatureGain, z.kappa));
    }
    assert v == Mul(eased, BendShare(z));
    EaseShrinks(v, YieldShare(z));
    if v > 0.0 && !z.settling {
      v := Mul(v, z.yieldFactor);
    }
    Scaled(base, v, horizon);
  }

  /** What the cruise is. With no easing it is the least of the speed asked for, the limit and
      what reaches the end of the reference with the horizon, or zero; inside the tolerance it
      is smaller in proportion to the distance left; bending divides it, the yield scales it,
      and both are off while settling; and turning on the spot it is zero. */
  lemma PaceLaw(z: Easing, remaining: real, horizon: real)
    requires ValidEasing(z) && horizon > 0.0
    ensures var v := Pace(z, remaining, horizon);
            && (z.rotate ==> v == 0.0)
            && (!z.rotate && z.xyTol.Some? && remaining >= z.xyTol.value ==> v == Pace(z.(xyTol := None), remaining, horizon))
            && (!z.rotate && z.xyTol.Some? && 0.0 <= remaining <= z.xyTol.value ==> Mul(v, z.xyTol.value) == Mul(Pace(z.(xyTol := None), remaining, horizon), remaining))
            && (!z.settling ==> Mul(v, 1.0 + Mul(z.curvatureGain, z.kappa)) == Pace(z.(kappa := 0.0), remaining, horizon))
            && (!z.settling ==> v == Mul(Pace(z.(yieldFactor := 1.0), remaining, horizon), z.yieldFactor))
            && (z.settling ==> v == Pace(z.(kappa := 0.0, yieldFactor := 1.0), remaining, horizon))
            && (remaining <= 0.0 || z.desired <= 0.0 || z.maxLinear <= 0.0 ==> v == 0.0)
    ensures var v := Pace(z.(rotate := false, xyTol := None, kappa := 0.0, yieldFactor := 1.0), remaining, horizon);
            remaining >= 0.0 && z.desired >= 0.0 && z.maxLinear >= 0.0 ==>
              && v <= z.desired && v <= z.maxLinear && Mul(v, horizon) <= remaining
              && (v == z.desired || v == z.maxLinear || Mul(v, horizon) == remaining)
  {
    hide Mul, Base;
    var b := Base(z, remaining, horizon);
    BasesAgree(z, remaining, horizon);
    UnitShares(b);
    BendUndone(Mul(b, TerminalShare(z, remaining)), z.curvatureGain, z.kappa, z.yieldFactor);
    BendLaw(1.0, z.curvatureGain, 0.0);
    UnitShares(Mul(b, TerminalShare(z, remaining)));
    UnitShares(Mul(Mul(b, TerminalShare(z, remaining)), BendShare(z)));
    if z.xyTol.Some? { TerminalUndone(b, z, remaining); }
    BaseIsLeast(z, remaining, horizon);
  }

  lemma UnitShares(v: real)
    ensures Mul(v, 1.0) == v && Mul(v, 0.0) == 0.0 && forall f: real {:trigger Mul(0.0, f)} :: Mul(0.0, f) == 0.0
  {
  }

  /** The caps alone decide the base. */
  lemma BasesAgree(z: Easing, remaining: real, horizon: real)
    requires horizon > 0.0
    ensures forall y: Easing {:trigger Base(y, remaining, horizon)} :: y.desired == z.desired && y.maxLinear == z.maxLinear ==> Base(y, remaining, horizon) == Base(z, remaining, horizon)
  {
  }

  lemma BaseIsLeast(z: Easing, remaining: real, horizon: real)
    requires horizon > 0.0
    ensures remaining <= 0.0 || z.desired <= 0.0 || z.maxLinear <= 0.0 ==> Base(z, remaining, horizon) == 0.0
    ensures remaining >= 0.0 && z.desired >= 0.0 && z.maxLinear >= 0.0 ==>
              var v := Base(z, remaining, horizon); v == z.desired || v == z.maxLinear || Mul(v, horizon) == remaining
  {
    Taper(remaining, horizon);
  }

  lemma BendUndone(b: real, gain: real, kappa: real, f: real)
    requires gain >= 0.0 && kappa >= 0.0
    ensures Mul(gain, 0.0) == 0.0
    ensures 1.0 + Mul(gain, kappa) > 0.0 && Mul(Mul(Mul(b, 1.0 / (1.0 + Mul(gain, kappa))), f), 1.0 + Mul(gain, kappa)) == Mul(Mul(b, 1.0), f)
  {
    BendLaw(b, gain, kappa);
    var d := 1.0 + Mul(gain, kappa);
    var q := 1.0 / d;
    assert Mul(q, d) == 1.0;
    hide Mul;
    Regroup(b, q, f, d);
  }

  lemma Regroup(b: real, q: real, f: real, d: real)
    requires Mul(q, d) == 1.0
    ensures Mul(Mul(Mul(b, q), f), d) == Mul(Mul(b, 1.0), f)
  {
    assert b * q * f * d == b * f * (q * d);
    var one := q * d;
    assert one == 1.0;
    assert b * f * one == b * f;
  }

  lemma TerminalUndone(b: real, z: Easing, remaining: real)
    requires ValidEasing(z) && z.xyTol.Some?
    ensures !z.rotate && remaining >= z.xyTol.value ==> TerminalShare(z, remaining) == 1.0
    ensures !z.rotate && 0.0 <= remaining <= z.xyTol.value ==>
              forall g: real, f: real {:trigger Mul(Mul(Mul(b, TerminalShare(z, remaining)), g), f)} ::
                Mul(Mul(Mul(Mul(b, TerminalShare(z, remaining)), g), f), z.xyTol.value) == Mul(Mul(Mul(Mul(b, 1.0), g), f), remaining)
  {
    var tol, q := z.xyTol.value, remaining / z.xyTol.value;
    assert Mul(q, tol) == remaining;
    if remaining >= tol { OrderProduct(tol, 1.0, q); }
    if remaining <= tol { OrderProduct(tol, q, 1.0); }
    if remaining >= 0.0 { OrderProduct(tol, 0.0, q); }
    if !z.rotate && 0.0 <= remaining <= tol {
      assert TerminalShare(z, remaining) == q;
      hide Mul, TerminalShare;
      forall g: real, f: real {:trigger Mul(Mul(Mul(b, q), g), f)} ensures Mul(Mul(Mul(Mul(b, q), g), f), tol) == Mul(Mul(Mul(Mul(b, 1.0), g), f), remaining) {
        Rescaled(b, q, g, f, tol, remaining);
      }
    }
  }

  lemma Rescaled(b: real, q: real, g: real, f: real, tol: real, remaining: real)
    requires Mul(q, tol) == remaining
    ensures Mul(Mul(Mul(Mul(b, q), g), f), tol) == Mul(Mul(Mul(Mul(b, 1.0), g), f), remaining)
  {
    assert b * q * g * f * tol == b * g * f * (q * tol);
  }

  /** Dividing by one plus the bend is taking a share. */
  lemma BendLaw(v: real, gain: real, kappa: real)
    requires gain >= 0.0 && kappa >= 0.0
    ensures Mul(gain, kappa) >= 0.0 && (gain == 0.0 ==> Mul(gain, kappa) == 0.0)
    ensures 0.0 < 1.0 / (1.0 + Mul(gain, kappa)) <= 1.0
    ensures v / (1.0 + Mul(gain, kappa)) == Mul(v, 1.0 / (1.0 + Mul(gain, kappa)))
    ensures Mul(v, 1.0) == v && Mul(0.0, 1.0 / (1.0 + Mul(gain, kappa))) == 0.0
  {
    var d := 1.0 + gain * kappa;
    assert gain * kappa >= 0.0;
    var q := 1.0 / d;
    assert q * d == 1.0;
    assert v / d * d == v && v * (q * d) == v;
    QuotientUnique(v / d, v * q, d);
    if q > 1.0 { PositiveProduct(q - 1.0, d); }
  }

  lemma QuotientUnique(a: real, b: real, d: real)
    requires d > 0.0 && Mul(a, d) == Mul(b, d)
    ensures a == b
  {
    assert (a - b) * d == 0.0;
  }

  lemma Taper(remaining: real, horizon: real)
    requires horizon > 0.0
    ensures Mul(remaining / horizon, horizon) == remaining && (remaining <= 0.0 ==> remaining / horizon <= 0.0) && Mul(0.0, horizon) == 0.0
  {
  }

  lemma Scaled(a: real, b: real, horizon: real)
    requires horizon > 0.0
    ensures b <= a ==> Mul(b, horizon) <= Mul(a, horizon)
    ensures Mul(0.0, horizon) == 0.0
  {
    if b <= a { MonoProduct(horizon, b, a); }
  }

  lemma EaseShrinks(v: real, f: real)
    requires v >= 0.0 && 0.0 <= f <= 1.0
    ensures 0.0 <= Mul(v, f) <= v && Mul(v, 0.0) == 0.0 && Mul(v, 1.0) == v && Mul(0.0, f) == 0.0
  {
    FractionProduct(f, v);
  }

  /** No node of the horizon is referred past the end of the reference. */
  lemma NeverOvershoots(s0: real, sEnd: real, v: real, dt: real, np: nat, k: nat)
    requires s0 <= sEnd && v >= 0.0 && dt > 0.0 && k <= np && Mul(v, np as real * dt) <= sEnd - s0
    ensures s0 <= s0 + Mul(v, k as real * dt) <= sEnd
  {
    var a, b := k as real * dt, np as real * dt;
    assert 0.0 <= a <= b by { assert (np - k) as real * dt >= 0.0; assert k as real * dt >= 0.0; }
    assert v * (b - a) >= 0.0 && v * a >= 0.0;
  }

  // ----- terminal settling

  /** Settling is entered inside the tolerance, left outside a wider band, and never on a
      reference that stops short of the goal. */
  function Settle(settling: bool, atGoal: bool, tol: Option<real>, remaining: real, band: real): bool {
    tol.Some? && atGoal && remaining <= (if settling then tol.value + band else tol.value)
  }

  /** A run of cycles, each with whether the reference ends at the goal and how far that is. */
  function RunSettle(settling: bool, tol: real, band: real, cycles: seq<(bool, real)>): bool {
    if cycles == [] then settling
    else
      var (atGoal, remaining) := cycles[|cycles| - 1];
      Settle(RunSettle(settling, tol, band, cycles[..|cycles| - 1]), atGoal, Some(tol), remaining, band)
  }

  predicate WithinBand(c: (bool, real), tol: real, band: real) { c.0 && c.1 <= tol + band }

  /** The mode is on after a run exactly when it was entered, inside the tolerance of the goal,
      or was on before the run, and no cycle since has left the wider band or the goal. So
      tracking noise narrower than the band cannot toggle it. */
  lemma {:induction false} SettlesIff(settling: bool, tol: real, band: real, cycles: seq<(bool, real)>)
    requires band >= 0.0
    ensures RunSettle(settling, tol, band, cycles) <==>
            || (settling && forall k :: 0 <= k < |cycles| ==> WithinBand(cycles[k], tol, band))
            || exists i :: 0 <= i < |cycles| && cycles[i].0 && cycles[i].1 <= tol && forall k :: i <= k < |cycles| ==> WithinBand(cycles[k], tol, band)
  {
    if cycles != [] {
      var last := |cycles| - 1;
      var before := cycles[..last];
      SettlesIff(settling, tol, band, before);
      if RunSettle(settling, tol, band, before) && WithinBand(cycles[last], tol, band) {
        if i :| 0 <= i < last && before[i].0 && before[i].1 <= tol && forall k :: i <= k < last ==> WithinBand(before[k], tol, band) {
          assert cycles[i] == before[i];
        }
      }
      if i :| 0 <= i < |cycles| && cycles[i].0 && cycles[i].1 <= tol && forall k :: i <= k < |cycles| ==> WithinBand(cycles[k], tol, band) {
        if i < last { assert before[i] == cycles[i]; }
      }
    }
  }

  lemma SettleHolds(settling: bool, tol: real, band: real, cycles: seq<(bool, real)>, i: nat)
    requires band >= 0.0 && i < |cycles| && cycles[i].0 && cycles[i].1 <= tol && forall k :: i <= k < |cycles| ==> WithinBand(cycles[k], tol, band)
    ensures RunSettle(settling, tol, band, cycles)
  {
    SettlesIff(settling, tol, band, cycles);
  }

  // ----- the sampled reference

  /** A node's reference is a plan point at an arc length that lags the wanted one by no
      more than the degenerate length, and the wanted one is not past the end. */
  ghost predicate IsNode(p: Polyline, s: seq<real>, want: real, sEnd: real, q: Point, at: real)
    requires |s| == |p|
  {
    && (|p| > 1 ==> AtArc(p, s, at, q)) && (|p| == 1 ==> q == p[0])
    && want - DEGENERATE_LEN <= at <= want <= sEnd
  }

  function Want(pl: Place, sEnd: real, v: real, dt: real, settling: bool, k: nat): real {
    if settling then sEnd else pl.s0 + Mul(v, k as real * dt)
  }

  /** The nodes start at the robot and follow each other at the cruise speed, a step apart; while
      settling all of them stand at the end of the reference. */
  lemma WantLaw(pl: Place, sEnd: real, v: real, dt: real, k: nat)
    ensures Want(pl, sEnd, v, dt, false, 0) == pl.s0
    ensures Want(pl, sEnd, v, dt, false, k + 1) - Want(pl, sEnd, v, dt, false, k) == Mul(v, dt)
    ensures Want(pl, sEnd, v, dt, true, k) == sEnd
  {
    var t := k as real * dt;
    assert (k + 1) as real * dt == t + dt;
    assert v * (t + dt) == v * t + v * dt;
    assert 0.0 * dt == 0.0 && v * 0.0 == 0.0;
  }

  /** The reference point of every node, and the arc length each one stands for. */
  method Nodes(root: real -> real, p: Polyline, s: seq<real>, pl: Place, sEnd: real, v: real, dt: real, np: nat, settling: bool)
      returns (q: seq<Point>, ghost at: seq<real>)
    requires IsArc(root, p, s) && 0.0 <= pl.s0 <= sEnd <= s[|s| - 1] && v >= 0.0 && dt > 0.0 && np > 0 && Mul(v, np as real * dt) <= sEnd - pl.s0
    ensures |q| == np + 1 && |at| == np + 1
    ensures forall k :: 0 <= k <= np ==> IsNode(p, s, Want(pl, sEnd, v, dt, settling, k), sEnd, q[k], at[k])
  {
    hide IsArc, Mul, AtArc;
    ArcSize(root, p, s);
    q, at := [], [];
    for k := 0 to np + 1
      invariant |q| == k && |at| == k
      invariant forall j :: 0 <= j < k ==> IsNode(p, s, Want(pl, sEnd, v, dt, settling, j), sEnd, q[j], at[j])
    {
      NeverOvershoots(pl.s0, sEnd, v, dt, np, k);
      var point, w := Sample(root, p, s, sEnd, Want(pl, sEnd, v, dt, settling, k));
      assert IsNode(p, s, Want(pl, sEnd, v, dt, settling, k), sEnd, point, w);
      q, at := q + [point], at + [w];
    }
  }

  // ----- headings

  /** The remainder of an angle after the nearest whole number of turns. */
  function Remainder(x: real, turn: real): (r: real)
    requires turn > 0.0
  {
    x - Mul(NearestTurns(x, turn) as real, turn)
  }

  function NearestTurns(x: real, turn: real): int
    requires turn > 0.0
  {
    (x / turn + 0.5).Floor
  }

  lemma RemainderHalf(x: real, turn: real)
    requires turn > 0.0
    ensures -turn <= 2.0 * Remainder(x, turn) <= turn
  {
    var q, n := x / turn, NearestTurns(x, turn) as real;
    assert Mul(q, turn) == x;
    var a := q - n;
    assert -0.5 <= a <= 0.5;
    assert Mul(a, turn) == x - Mul(n, turn);
    MonoProduct(turn, -0.5, a);
    MonoProduct(turn, a, 0.5);
  }

  /** Two angles that differ by whole turns. */
  ghost predicate SameAngle(a: real, b: real, turn: real) { exists n: int :: TurnsApart(a, b, turn, n) }

  predicate TurnsApart(a: real, b: real, turn: real, n: int) { a == b + Mul(n as real, turn) }

  /** No more than half a turn from one heading to the next. */
  predicate NoJump(a: real, b: real, turn: real) { 2.0 * Abs(b - a) <= turn }

  ghost predicate Smooth(psi: seq<real>, start: real, turn: real) {
    forall k {:trigger psi[k]} :: 0 <= k < |psi| ==> NoJump(if k == 0 then start else psi[k - 1], psi[k], turn)
  }

  /** The headings of a horizon without jumps: each stands for the same direction as the raw
      one, and none is more than half a turn from the one before, or the first from where it
      is counted from. */
  method Unwrap(raw: seq<real>, start: real, turn: real) returns (psi: seq<real>)
    requires turn > 0.0
    ensures |psi| == |raw| && Smooth(psi, start, turn)
    ensures forall k :: 0 <= k < |raw| ==> SameAngle(psi[k], raw[k], turn)
  {
    hide Mul, NearestTurns, Remainder, SameAngle, NoJump;
    psi := [];
    var prev := start;
    for i := 0 to |raw|
      invariant |psi| == i && prev == (if i == 0 then start else psi[i - 1]) && Smooth(psi, start, turn)
      invariant forall k :: 0 <= k < i ==> SameAngle(psi[k], raw[k], turn)
    {
      var next := prev + Remainder(raw[i] - prev, turn);
      HalfTurn(raw[i], prev, turn);
      WholeTurns(raw[i], prev, turn);
      psi := psi + [next];
      prev := next;
    }
  }

  lemma HalfTurn(raw: real, prev: real, turn: real)
    requires turn > 0.0
    ensures NoJump(prev, prev + Remainder(raw - prev, turn), turn)
  {
    RemainderHalf(raw - prev, turn);
  }

  lemma WholeTurns(raw: real, prev: real, turn: real)
    requires turn > 0.0
    ensures SameAngle(prev + Remainder(raw - prev, turn), raw, turn)
  {
    var n := -NearestTurns(raw - prev, turn);
    assert Mul(n as real, turn) == -Mul(NearestTurns(raw - prev, turn) as real, turn);
    assert TurnsApart(prev + Remainder(raw - prev, turn), raw, turn, n);
  }

  // ----- one cycle of the reference

  /** What a cycle finds: where the robot stands, the period, the gates and the speed last
      commanded. */
  datatype Visit = Visit(c: Point, period: real, gates: bool, lastV: real)

  /** The cycle as the latch sees it from a segment; past the last one no gate is on. */
  function CycleAt(along: seq<real>, i: nat, e: Visit): Cycle {
    if i < |along| then Cycle(e.period, e.gates, along[i], e.lastV) else Cycle(e.period, false, 0.0, e.lastV)
  }

  /** The retained part of the reference: the segment the robot was last seen on, the
      direction latch and the settling mode. */
  class Guide {
    const latch: DirectionLatch
    const band: real
    var index: nat
    var settling: bool

    constructor (latch: DirectionLatch, band: real)
      ensures this.latch == latch && this.band == band && index == 0 && !settling
    {
      this.latch, this.band, index, settling := latch, band, 0, false;
    }

    /** One cycle: measure the plan, project the robot, decide the direction and the end of
        the reference, ease the cruise and place the nodes. No node is past the end of the
        plan, the horizon never spans a segment driven the other way, and while a change of
        direction is pending the whole horizon stays at the robot. */
    method Refer(root: real -> real, p: Polyline, along: seq<real>, e: Visit, z: Easing, look: Bearings, dt: real, np: nat)
      returns (q: seq<Point>, psi: seq<real>, v: real, ghost s: seq<real>, ghost pl: Place, ghost sEnd: real, ghost at: seq<real>)
      requires IsRoot(root) && |p| > 0 && |along| + 1 == |p| && ValidEasing(z) && look.turn > 0.0 && dt > 0.0 && np > 0
      modifies this, latch
      ensures index == pl.seg == PlanPath.Segment(p, if old(index) < |p| then old(index) else 0, e.c)
      ensures latch.Now() == NextLatch(latch.rules, old(latch.Now()), CycleAt(along, index, e))
      ensures IsArc(root, p, s) && IsPlace(p, s, pl, e.c)
      ensures var now := CycleAt(along, index, e);
              EndsAt(s, along, pl, now.gates, Pending(latch.rules, old(latch.Now()), now), latch.gait, sEnd)
      ensures settling == Settle(old(settling), sEnd >= s[|s| - 1], z.xyTol, sEnd - pl.s0, band)
      ensures var eased := z.(settling := settling, rotate := z.rotate && settling);
              np as real * dt > 0.0 && ValidEasing(eased) && v == Pace(eased, sEnd - pl.s0, np as real * dt)
      ensures Horizon(p, s, pl, sEnd, v, look, dt, np, settling, z.rotate && settling, latch.gait, q, psi, at)
      ensures Pending(latch.rules, old(latch.Now()), CycleAt(along, index, e)) ==> v == 0.0 && forall k :: 0 <= k <= np ==> at[k] <= pl.s0
      ensures e.gates && !Pending(latch.rules, old(latch.Now()), CycleAt(along, index, e)) ==>
                forall k, j {:trigger at[k], along[j]} :: 0 <= k <= np && index <= j < |along| && s[j] < at[k] ==> Agrees(along[j], latch.gait)
    {
      hide IsArc, Mul, AtArc, Base, TerminalShare, BendShare, YieldShare, ValidEasing, PlanPath.Segment, Nearest, NextLatch, Pending, Agrees, Eased, Pace, Settle,
           Horizon, Foot;
      var lengths := ArcLengths(root, p);
      s := lengths;
      assert IsArc(root, p, s) by { Measured(root, p, s); }
      var from := if index < |p| then index else 0;
      var place := Project(root, p, lengths, from, e.c);
      index := place.seg;
      pl := place;
      var end := latch.Direct(root, p, lengths, along, place, CycleAt(along, index, e));
      sEnd := end;
      var remaining := end - place.s0;
      settling := Settle(settling, end >= lengths[|lengths| - 1], z.xyTol, remaining, band);
      EasingKept(z, settling);
      HorizonPositive(np, dt);
      v := Cruise(Eased(z, settling), remaining, np as real * dt);
      q, psi, at := Lay(root, p, lengths, place, end, v, look, dt, np, settling, z.rotate && settling, latch.gait);
    }
  }

  /** The easing of a cycle: turning on the spot needs the settling mode. */
  function Eased(z: Easing, settling: bool): Easing { z.(settling := settling, rotate := z.rotate && settling) }

  /** A place is the foot of the robot on its segment, nearest from there on. */
  ghost predicate IsPlace(p: Polyline, s: seq<real>, pl: Place, c: Point)
    requires |s| == |p|
  {
    && pl.seg < |p| && (pl.seg + 1 < |p| ==> pl.t == Foot(p, pl.seg, c) && pl.s0 == s[pl.seg] + Mul(pl.t, s[pl.seg + 1] - s[pl.seg]))
    && (pl.seg + 1 == |p| ==> pl.s0 == s[pl.seg])
  }

  /** The nodes and headings of a horizon. */
  ghost predicate Horizon(p: Polyline, s: seq<real>, pl: Place, sEnd: real, v: real, look: Bearings, dt: real, np: nat, settling: bool, rotate: bool,
                          gait: Gait, q: seq<Point>, psi: seq<real>, at: seq<real>)
    requires |s| == |p|
  {
    && |q| == np + 1 && |psi| == np + 1 && |at| == np + 1 && Smooth(psi, if gait == Reverse then look.heading + look.turn / 2.0 else look.heading, look.turn)
    && (rotate ==> forall k :: 0 <= k <= np ==> q[k] == look.stand && SameAngle(psi[k], look.goal, look.turn) && at[k] == pl.s0)
    && (!rotate ==> forall k :: 0 <= k <= np ==>
          IsNode(p, s, Want(pl, sEnd, v, dt, settling, k), sEnd, q[k], at[k]) && SameAngle(psi[k], look.bearing(Want(pl, sEnd, v, dt, settling, k)), look.turn))
  }

  /** The nodes of the horizon and their headings: sampled from the plan, or, turning on the
      spot, held where the robot stands with the heading of the goal. */
  method Lay(root: real -> real, p: Polyline, s: seq<real>, pl: Place, sEnd: real, v: real, look: Bearings, dt: real, np: nat,
             settling: bool, rotate: bool, gait: Gait) returns (q: seq<Point>, psi: seq<real>, ghost at: seq<real>)
    requires IsArc(root, p, s) && 0.0 <= pl.s0 <= sEnd <= s[|s| - 1] && v >= 0.0 && dt > 0.0 && np > 0 && Mul(v, np as real * dt) <= sEnd - pl.s0
    requires look.turn > 0.0
    ensures |q| == np + 1 && |psi| == np + 1 && |at| == np + 1
    ensures Horizon(p, s, pl, sEnd, v, look, dt, np, settling, rotate, gait, q, psi, at)
    ensures forall k :: 0 <= k <= np ==> at[k] <= sEnd
  {
    hide IsArc, Mul, AtArc, SameAngle, Smooth, Want;
    ArcSize(root, p, s);
    var raw: seq<real>;
    if rotate {
      q, raw := seq(np + 1, k => look.stand), seq(np + 1, k => look.goal);
      at := seq(np + 1, k => pl.s0);
    } else {
      q, at := Nodes(root, p, s, pl, sEnd, v, dt, np, settling);
      raw := seq(np + 1, k requires 0 <= k <= np => look.bearing(Want(pl, sEnd, v, dt, settling, k)));
    }
    psi := Unwrap(raw, Travelling(look, gait), look.turn);
  }

  /** What the headings come from: the plan's tangent at an arc length, the heading of the
      goal, the robot's own heading and where its reference point stands, and a full turn. */
  datatype Bearings = Bearings(bearing: real -> real, goal: real, heading: real, stand: Point, turn: real)

  /** The direction of travel the horizon's headings are counted from. */
  function Travelling(look: Bearings, gait: Gait): real { if gait == Reverse then look.heading + look.turn / 2.0 else look.heading }

  lemma Measured(root: real -> real, p: Polyline, s: seq<real>)
    requires IsRoot(root) && |p| > 0 && |s| == |p| && forall i :: 0 <= i < |p| ==> s[i] == Arc(root, p, i)
    ensures IsArc(root, p, s)
  {
  }

  lemma EasingKept(z: Easing, settling: bool)
    requires ValidEasing(z)
    ensures ValidEasing(Eased(z, settling)) && Eased(z, settling) == z.(settling := settling, rotate := z.rotate && settling)
  {
  }

  lemma HorizonPositive(np: nat, dt: real)
    requires np > 0 && dt > 0.0
    ensures np as real * dt > 0.0
  {
    PositiveProduct(np as real, dt);
  }

  // ----- held at a cusp

  /** The segment and the latch after a run of cycles on one plan. */
  function RunVisits(p: Polyline, along: seq<real>, r: Rules, from: nat, l: Latch, es: seq<Visit>): (now: (nat, Latch))
    requires from < |p|
    ensures from <= now.0 < |p|
  {
    if es == [] then (from, l)
    else
      var (i, t) := RunVisits(p, along, r, from, l, es[..|es| - 1]);
      var k := PlanPath.Segment(p, i, es[|es| - 1].c);
      (k, NextLatch(r, t, CycleAt(along, k, es[|es| - 1])))
  }

  /** A point of a segment past a vertex that the segment into the vertex does not have. */
  ghost predicate Off(p: Polyline, v: nat, i: nat, q: Point)
    requires 0 < v < |p|
  {
    v <= i && i + 1 < |p| && OnLeg(p, i, q) && !OnLeg(p, v - 1, q)
  }

  /** Everything past a vertex is driven back over the segment into it. */
  ghost predicate Retraced(p: Polyline, v: nat)
    requires 0 < v < |p|
  {
    forall i: nat, q: Point :: !Off(p, v, i, q)
  }

  /** A run that starts on the segment into a vertex and gets past it. */
  predicate GetsPast(p: Polyline, along: seq<real>, r: Rules, l: Latch, v: nat, es: seq<Visit>)
    requires 0 < v < |p|
  {
    RunVisits(p, along, r, v - 1, l, es).0 >= v
  }

  /** From the segment into a vertex, some run of cycles gets past the vertex if and only if
      the plan past it is not all driven back over that segment. Where it is, no motion of
      the robot moves the projection on. */
  lemma RunPassesIff(p: Polyline, along: seq<real>, r: Rules, l: Latch, v: nat)
    requires 0 < v && v + 1 < |p|
    ensures (exists es: seq<Visit> :: GetsPast(p, along, r, l, v, es)) <==> !Retraced(p, v)
  {
    hide PlanPath.Segment, NextLatch, OnLeg;
    if Retraced(p, v) {
      forall es: seq<Visit> ensures !GetsPast(p, along, r, l, v, es) { NeverPasses(p, along, r, v - 1, l, v, es); }
    } else {
      var i: nat, q: Point :| Off(p, v, i, q);
      assert Leaves(p, v - 1, v, i, q);
      PassableIff(p, v - 1, v);
      var c: Point :| PlanPath.Segment(p, v - 1, c) >= v;
      var es := [Visit(c, 0.0, true, 0.0)];
      assert es[..0] == [];
      assert GetsPast(p, along, r, l, v, es);
    }
  }

  lemma {:induction false} NeverPasses(p: Polyline, along: seq<real>, r: Rules, from: nat, l: Latch, v: nat, es: seq<Visit>)
    requires from < v && v + 1 < |p| && Retraced(p, v)
    ensures RunVisits(p, along, r, from, l, es).0 < v
  {
    hide PlanPath.Segment, NextLatch, OnLeg;
    if es != [] {
      var last := |es| - 1;
      NeverPasses(p, along, r, from, l, v, es[..last]);
      var i := RunVisits(p, along, r, from, l, es[..last]).0;
      PassableIff(p, i, v);
      forall k: nat, q: Point ensures !Leaves(p, i, v, k, q) { assert !Off(p, v, k, q); }
      assert PlanPath.Segment(p, i, es[last].c) < v;
    }
  }

  /** With a segment ahead driven the other way, the reference ends no later than its start. */
  lemma EndsByCusp(s: seq<real>, along: seq<real>, pl: Place, gait: Gait, sEnd: real, v: nat)
    requires |along| + 1 == |s| && pl.seg <= v < |along| && EndsAt(s, along, pl, true, false, gait, sEnd) && !Agrees(along[v], gait)
    ensures sEnd <= s[v]
  {
  }

  /** A robot that has come to such a cusp in the direction of its legs stays in it: over any
      run with every gate on, the latch keeps its direction, never waits for a change, and
      so the reference ends at the cusp in every cycle. */
  lemma {:induction false} HeldAtCusp(p: Polyline, along: seq<real>, r: Rules, from: nat, l: Latch, v: nat, es: seq<Visit>)
    requires from < v && v + 1 < |p| && |along| + 1 == |p| && Retraced(p, v)
    requires (forall j :: from <= j < v ==> Wanted(along[j]) == l.gait) && !Agrees(along[v], l.gait) && forall k :: 0 <= k < |es| ==> es[k].gates
    ensures var (i, t) := RunVisits(p, along, r, from, l, es);
            i < v && t.gait == l.gait && !Agrees(along[v], t.gait)
    ensures es != [] ==> var (i, t) := RunVisits(p, along, r, from, l, es[..|es| - 1]);
                         var k := PlanPath.Segment(p, i, es[|es| - 1].c);
                         !Pending(r, t, CycleAt(along, k, es[|es| - 1]))
  {
    hide PlanPath.Segment, Retraced;
    NeverPasses(p, along, r, from, l, v, es);
    if es != [] { HeldAtCusp(p, along, r, from, l, v, es[..|es| - 1]); }
  }
}
