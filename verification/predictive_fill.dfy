/** Obstacle slots from tracked movers: prediction along sampled polylines, the forward
    shadow, and the hand-over of the remaining slots to static clutter. */
module PredictiveFill {
  import opened Basics
  import opened Linear
  import opened Planar
  import opened QpLayout
  import opened QpRows
  import opened Sorting
  import opened StaticSlots
  import opened CostmapScan
  import PlanPath

  // ----- prediction

  /** A tracked mover in the solver's frame; no samples means a straight ray. */
  datatype Track = Track(id: nat, at: Point, vx: real, vy: real, radius: real, samples: seq<Point>, sampleDt: real)

  predicate ValidTrack(t: Track) { t.radius >= 0.0 && (t.samples != [] ==> t.sampleDt > 0.0) }

  /** The k-th knot of the prediction: the position now, then the samples. */
  function Knot(t: Track, k: nat): Point
    requires k <= |t.samples|
  {
    if k == 0 then t.at else t.samples[k - 1]
  }

  /** From one point towards another, at a share of the way. */
  function Toward(p: Point, q: Point, share: real): Point {
    Point(p.x + Mul(q.x - p.x, share), p.y + Mul(q.y - p.y, share))
  }

  /** The time of the k-th knot. */
  function KnotTime(k: nat, dt: real): real { Mul(k as real, dt) }

  function Share(part: real, dt: real): real
    requires dt > 0.0
  {
    part / dt
  }

  /** The sampling interval a time falls in. */
  function Interval(time: real, dt: real): (k: nat)
    requires dt > 0.0 && time >= 0.0
  {
    FloorNonneg(time, dt);
    (time / dt).Floor
  }

  lemma FloorNonneg(time: real, dt: real)
    requires time >= 0.0 && dt > 0.0
    ensures (time / dt).Floor >= 0
  {
    assert time / dt >= 0.0;
  }

  /** Position along the sampled prediction. */
  function SamplePolyline(t: Track, time: real): Point
    requires ValidTrack(t) && t.samples != [] && time >= 0.0
  {
    var n := |t.samples|;
    var span := KnotTime(n, t.sampleDt);
    if time >= span then
      var last, before, s := Knot(t, n), Knot(t, n - 1), Share(time - span, t.sampleDt);
      Point(last.x + Mul(last.x - before.x, s), last.y + Mul(last.y - before.y, s))
    else
      var raw := Interval(time, t.sampleDt);
      var k := if raw < n - 1 then raw else n - 1;
      Toward(Knot(t, k), Knot(t, k + 1), Share(time - KnotTime(k, t.sampleDt), t.sampleDt))
  }

  /** On every closed sampling interval the prediction runs straight from its first knot to
      its last, whichever branch computes it, so it is one continuous curve through every
      sample. */
  lemma StraightBetweenKnots(t: Track, k: nat, time: real)
    requires ValidTrack(t) && k < |t.samples| && KnotTime(k, t.sampleDt) <= time <= KnotTime(k + 1, t.sampleDt)
    ensures time >= 0.0
    ensures SamplePolyline(t, time) == Toward(Knot(t, k), Knot(t, k + 1), Share(time - KnotTime(k, t.sampleDt), t.sampleDt))
  {
    hide KnotTime, Interval, Share, SamplePolyline, Toward, Knot;
    Spans(k, |t.samples|, t.sampleDt);
    if time < KnotTime(k + 1, t.sampleDt) { InsideInterval(t, k, time); } else { AtKnot(t, k, time); }
  }

  lemma InsideInterval(t: Track, k: nat, time: real)
    requires ValidTrack(t) && k < |t.samples| && time >= 0.0 && KnotTime(k, t.sampleDt) <= time < KnotTime(k + 1, t.sampleDt)
    ensures SamplePolyline(t, time) == Toward(Knot(t, k), Knot(t, k + 1), Share(time - KnotTime(k, t.sampleDt), t.sampleDt))
  {
    hide KnotTime, Interval, Share, Toward, Knot;
    Spans(k, |t.samples|, t.sampleDt);
    IntervalOf(time, t.sampleDt, k);
  }

  lemma AtKnot(t: Track, k: nat, time: real)
    requires ValidTrack(t) && k < |t.samples| && time >= 0.0 && time == KnotTime(k + 1, t.sampleDt)
    ensures SamplePolyline(t, time) == Knot(t, k + 1)
    ensures Toward(Knot(t, k), Knot(t, k + 1), Share(time - KnotTime(k, t.sampleDt), t.sampleDt)) == Knot(t, k + 1)
  {
    hide KnotTime, Interval, Share, Knot, Mul;
    var n, dt := |t.samples|, t.sampleDt;
    Spans(k, n, dt);
    Shares(dt);
    AtEnds(Knot(t, k), Knot(t, k + 1));
    if k + 1 < n {
      Spans(k + 1, n, dt);
      InsideInterval(t, k + 1, time);
      AtEnds(Knot(t, k + 1), Knot(t, k + 2));
    }
  }

  lemma Spans(k: nat, n: nat, dt: real)
    requires k < n && dt > 0.0
    ensures 0.0 <= KnotTime(k, dt) && KnotTime(k + 1, dt) <= KnotTime(n, dt) && KnotTime(k + 1, dt) == KnotTime(k, dt) + dt
  {
    var rest := (n - k - 1) as real;
    assert rest * dt >= 0.0;
    assert n as real == (k + 1) as real + rest;
    assert (k as real) * dt >= 0.0;
  }

  lemma IntervalOf(time: real, dt: real, k: nat)
    requires dt > 0.0 && KnotTime(k, dt) <= time < KnotTime(k + 1, dt)
    ensures time >= 0.0 && Interval(time, dt) == k
  {
    Spans(k, k + 1, dt);
    var q := time / dt;
    assert Mul(q, dt) == time;
    Quotient(q, k as real, dt);
    Quotient(q, (k + 1) as real, dt);
  }

  lemma Quotient(q: real, b: real, dt: real)
    requires dt > 0.0
    ensures Mul(q, dt) >= Mul(b, dt) <==> q >= b
  {
    var d := q - b;
    assert d * dt == q * dt - b * dt;
    if d > 0.0 { PositiveProduct(d, dt); }
    if d < 0.0 { PositiveProduct(-d, dt); assert -d * dt == -(d * dt); }
  }

  lemma Shares(dt: real)
    requires dt > 0.0
    ensures Share(0.0, dt) == 0.0 && Share(dt, dt) == 1.0
  {
  }

  lemma AtEnds(p: Point, q: Point)
    ensures Toward(p, q, 0.0) == p && Toward(p, q, 1.0) == q && Mul(q.x - p.x, 0.0) == 0.0 && Mul(q.y - p.y, 0.0) == 0.0
  {
  }

  /** The prediction starts at the position reported and is at each sample at its time. */
  lemma ThroughSamples(t: Track, k: nat)
    requires ValidTrack(t) && k <= |t.samples| && t.samples != []
    ensures Mul(k as real, t.sampleDt) >= 0.0
    ensures Predict(t, Mul(k as real, t.sampleDt)) == if k == 0 then t.at else t.samples[k - 1]
  {
    Spans(0, 1, t.sampleDt);
    Spans(k, k + 1, t.sampleDt);
    Shares(t.sampleDt);
    AtEnds(Knot(t, 0), Knot(t, 1));
    hide KnotTime, Interval, Share, SamplePolyline, Toward;
    assert Mul(k as real, t.sampleDt) == KnotTime(k, t.sampleDt) by { TimeOf(k, t.sampleDt); }
    if k == 0 {
      StraightBetweenKnots(t, 0, KnotTime(0, t.sampleDt));
    } else {
      Spans(k - 1, k, t.sampleDt);
      AtKnot(t, k - 1, KnotTime(k, t.sampleDt));
    }
  }

  lemma TimeOf(k: nat, dt: real)
    ensures Mul(k as real, dt) == KnotTime(k, dt)
  {
  }

  /** Past the last sample the prediction keeps the velocity of the last interval. */
  lemma StraightBeyond(t: Track, time: real)
    requires ValidTrack(t) && t.samples != [] && time >= KnotTime(|t.samples|, t.sampleDt)
    ensures time >= 0.0
    ensures SamplePolyline(t, time)
         == Toward(Knot(t, |t.samples| - 1), Knot(t, |t.samples|), 1.0 + Share(time - KnotTime(|t.samples|, t.sampleDt), t.sampleDt))
  {
    hide KnotTime, Interval, Share, Knot, Mul;
    Spans(|t.samples| - 1, |t.samples|, t.sampleDt);
    var p, q, s := Knot(t, |t.samples| - 1), Knot(t, |t.samples|), Share(time - KnotTime(|t.samples|, t.sampleDt), t.sampleDt);
    OnePlus(q.x - p.x, s);
    OnePlus(q.y - p.y, s);
  }

  lemma OnePlus(d: real, s: real)
    ensures Mul(d, 1.0 + s) == d + Mul(d, s)
  {
  }

  function Predict(t: Track, time: real): Point
    requires ValidTrack(t) && time >= 0.0
  {
    if t.samples == [] then Point(t.at.x + Mul(t.vx, time), t.at.y + Mul(t.vy, time)) else SamplePolyline(t, time)
  }

  // ----- the keep-out disc

  const MIN_SHADOW_SPEED := 0.001

  datatype Fill = Fill(robot: real, margin: real, growth: real, shadow: real, dt: real)

  predicate ValidFill(f: Fill) { f.robot >= 0.0 && f.margin >= 0.0 && f.growth >= 0.0 && f.dt > 0.0 }

  function Ahead(f: Fill, node: nat, age: real): real { (node + 1) as real * f.dt + age }

  function Clearance(f: Fill, t: Track, time: real): real { f.robot + t.radius + f.margin + Mul(f.growth, time) }

  /** Move a disc forward by `s` along a heading and grow it by the same. */
  function Shadowed(o: Disc, ux: real, uy: real, s: real): Disc {
    Disc(o.x + Mul(s, ux), o.y + Mul(s, uy), o.clearance + s)
  }

  predicate Covers(o: Disc, x: real, y: real) { o.clearance >= 0.0 && Norm2(x - o.x, y - o.y) <= Mul(o.clearance, o.clearance) }

  /** The shadowed disc covers the unshadowed one. */
  lemma ShadowCovers(o: Disc, ux: real, uy: real, s: real, x: real, y: real)
    requires ux * ux + uy * uy == 1.0 && s >= 0.0 && Covers(o, x, y)
    ensures Covers(Shadowed(o, ux, uy, s), x, y)
  {
    var vx, vy, d := x - o.x, y - o.y, o.clearance;
    var a := Mul(ux, vx) + Mul(uy, vy);
    ProjectionBounded(ux, uy, vx, vy, d);
    Shifted(vx, vy, ux, uy, s);
    assert Norm2(x - (o.x + Mul(s, ux)), y - (o.y + Mul(s, uy))) == Norm2(vx, vy) - 2.0 * Mul(s, a) + Mul(s, s) by {
      assert x - (o.x + Mul(s, ux)) == vx - Mul(s, ux) && y - (o.y + Mul(s, uy)) == vy - Mul(s, uy);
    }
    Grown(d, s);
    Slides(s, a, d);
  }

  lemma ProjectionBounded(ux: real, uy: real, vx: real, vy: real, d: real)
    requires ux * ux + uy * uy == 1.0 && d >= 0.0 && Norm2(vx, vy) <= Mul(d, d)
    ensures -d <= Mul(ux, vx) + Mul(uy, vy) <= d
  {
    var a, b := ux * vx + uy * vy, ux * vy - uy * vx;
    Lagrange(ux, uy, vx, vy);
    assert b * b >= 0.0;
    SquareOrder(a, d);
  }

  lemma Shifted(vx: real, vy: real, ux: real, uy: real, s: real)
    requires ux * ux + uy * uy == 1.0
    ensures Norm2(vx - Mul(s, ux), vy - Mul(s, uy)) == Norm2(vx, vy) - 2.0 * Mul(s, Mul(ux, vx) + Mul(uy, vy)) + Mul(s, s)
  {
    var w := s * s;
    assert (s * ux) * (s * ux) + (s * uy) * (s * uy) == w * (ux * ux + uy * uy);
    assert vx * (s * ux) + vy * (s * uy) == s * (ux * vx + uy * vy);
  }

  lemma Grown(d: real, s: real)
    ensures Mul(d + s, d + s) == Mul(d, d) + 2.0 * Mul(s, d) + Mul(s, s)
  {
  }

  lemma Slides(s: real, a: real, d: real)
    requires s >= 0.0 && a >= -d
    ensures -Mul(s, a) <= Mul(s, d)
  {
    assert s * (a + d) >= 0.0;
  }

  /** Along the heading the shadowed disc reaches from d behind the predicted position to
      d + 2 s ahead of it, and no farther. */
  lemma ShadowReach(o: Disc, ux: real, uy: real, s: real, r: real)
    requires ux * ux + uy * uy == 1.0 && s >= 0.0 && o.clearance >= 0.0
    ensures Covers(Shadowed(o, ux, uy, s), o.x + Mul(r, ux), o.y + Mul(r, uy)) <==> -o.clearance <= r <= o.clearance + 2.0 * s
  {
    var e := r - s;
    var dx, dy := Mul(r, ux) - Mul(s, ux), Mul(r, uy) - Mul(s, uy);
    assert dx == Mul(e, ux) && dy == Mul(e, uy);
    assert Norm2(dx, dy) == Mul(e, e) by { AlongUnit(e, ux, uy); }
    assert o.x + Mul(r, ux) - (o.x + Mul(s, ux)) == dx && o.y + Mul(r, uy) - (o.y + Mul(s, uy)) == dy;
    WithinIff(e, o.clearance + s);
  }

  lemma AlongUnit(e: real, ux: real, uy: real)
    requires ux * ux + uy * uy == 1.0
    ensures Norm2(Mul(e, ux), Mul(e, uy)) == Mul(e, e)
  {
    var w := e * e;
    assert (e * ux) * (e * ux) + (e * uy) * (e * uy) == w * (ux * ux + uy * uy);
  }

  lemma WithinIff(e: real, d: real)
    requires d >= 0.0
    ensures Mul(e, e) <= Mul(d, d) <==> -d <= e <= d
  {
    if e * e <= d * d { SquareOrder(e, d); }
    if -d <= e <= d {
      assert (d - e) * (d + e) >= 0.0;
      assert (d - e) * (d + e) == d * d - e * e;
    }
  }

  /** The disc a mover puts into its slot at a node. */
  function MoverDisc(f: Fill, root: real -> real, t: Track, node: nat, age: real, shift: Point): Disc
    requires ValidFill(f) && ValidTrack(t) && age >= 0.0
  {
    var time := Ahead(f, node, age);
    AheadNonneg(f, node, age);
    var p := Predict(t, time);
    var o := Disc(p.x + shift.x, p.y + shift.y, Clearance(f, t, time));
    var speed := root(Norm2(t.vx, t.vy));
    if f.shadow > 0.0 && speed > MIN_SHADOW_SPEED then Shadowed(o, t.vx / speed, t.vy / speed, Mul(f.shadow, speed)) else o
  }

  lemma AheadNonneg(f: Fill, node: nat, age: real)
    requires ValidFill(f) && age >= 0.0
    ensures Ahead(f, node, age) >= 0.0
  {
    assert (node + 1) as real * f.dt >= 0.0;
  }

  /** Whatever the speed and the shadow, a mover's disc covers the plain disc about its
      predicted position. */
  lemma MoverCovered(f: Fill, root: real -> real, t: Track, node: nat, age: real, shift: Point, x: real, y: real)
    requires ValidFill(f) && ValidTrack(t) && age >= 0.0 && IsRoot(root)
    requires Ahead(f, node, age) >= 0.0
    requires var p := Predict(t, Ahead(f, node, age));
             Covers(Disc(p.x + shift.x, p.y + shift.y, Clearance(f, t, Ahead(f, node, age))), x, y)
    ensures Covers(MoverDisc(f, root, t, node, age, shift), x, y)
  {
    hide Covers, Predict, Shadowed;
    var time := Ahead(f, node, age);
    var p := Predict(t, time);
    var o := Disc(p.x + shift.x, p.y + shift.y, Clearance(f, t, time));
    NormNonneg(t.vx, t.vy);
    var speed := root(Norm2(t.vx, t.vy));
    if f.shadow > 0.0 && speed > MIN_SHADOW_SPEED {
      UnitNormal(t.vx, t.vy, speed);
      PositiveProduct(f.shadow, speed);
      ShadowCovers(o, t.vx / speed, t.vy / speed, Mul(f.shadow, speed), x, y);
    }
  }

  /** Along its heading a mover's disc reaches from the plain clearance behind its predicted
      position to the plain clearance and twice the shadow ahead of it, and no farther; the
      shadow is what the mover covers in the configured time, or none at a crawl. */
  lemma MoverReach(f: Fill, root: real -> real, t: Track, node: nat, age: real, shift: Point, r: real)
    requires ValidFill(f) && ValidTrack(t) && age >= 0.0 && IsRoot(root) && root(Norm2(t.vx, t.vy)) > 0.0
    ensures (node + 1) as real * f.dt + age >= 0.0
    ensures var time, speed := (node + 1) as real * f.dt + age, root(Norm2(t.vx, t.vy));
            var p, d, s := Predict(t, time), f.robot + t.radius + f.margin + Mul(f.growth, time), if f.shadow > 0.0 && speed > MIN_SHADOW_SPEED then Mul(f.shadow, speed) else 0.0;
            Covers(MoverDisc(f, root, t, node, age, shift), p.x + shift.x + Mul(r, t.vx / speed), p.y + shift.y + Mul(r, t.vy / speed)) <==> -d <= r <= d + 2.0 * s
  {
    hide Predict, Mul, Norm2, Covers;
    AheadNonneg(f, node, age);
    var time, speed := Ahead(f, node, age), root(Norm2(t.vx, t.vy));
    assert time == (node + 1) as real * f.dt + age;
    NormNonneg(t.vx, t.vy);
    HeadingUnit(t.vx, t.vy, speed);
    var p := Predict(t, time);
    var o := Disc(p.x + shift.x, p.y + shift.y, f.robot + t.radius + f.margin + Mul(f.growth, time));
    NonnegProduct(f.growth, time);
    if f.shadow > 0.0 && speed > MIN_SHADOW_SPEED {
      PositiveProduct(f.shadow, speed);
      ShadowReach(o, t.vx / speed, t.vy / speed, Mul(f.shadow, speed), r);
    } else {
      ShadowReach(o, t.vx / speed, t.vy / speed, 0.0, r);
      NoShadow(o, t.vx / speed, t.vy / speed);
      hide Shadowed;
      assert MoverDisc(f, root, t, node, age, shift) == o;
    }
  }

  lemma HeadingUnit(vx: real, vy: real, speed: real)
    requires speed > 0.0 && speed * speed == Norm2(vx, vy)
    ensures (vx / speed) * (vx / speed) + (vy / speed) * (vy / speed) == 1.0
  {
    UnitNormal(vx, vy, speed);
  }

  lemma NoShadow(o: Disc, ux: real, uy: real)
    ensures Shadowed(o, ux, uy, 0.0) == o
  {
    assert Mul(0.0, ux) == 0.0 && Mul(0.0, uy) == 0.0;
  }

  // ----- which movers get a slot

  /** A tracked obstacle as received: `None` stands for a value that is not finite. */
  datatype Report = Report(id: nat, at: Option<Point>, velocity: Option<Point>, radius: Option<real>, samples: seq<Option<Point>>, sampleDt: Option<real>)

  /** A planar rigid motion: cosine and sine of its angle, and its translation. */
  datatype Frame = Frame(c: real, s: real, tx: real, ty: real)

  function Turned(m: Frame, v: Point): Point { Point(Mul(m.c, v.x) - Mul(m.s, v.y), Mul(m.s, v.x) + Mul(m.c, v.y)) }

  function Moved(m: Frame, p: Point): Point { Point(m.tx + Turned(m, p).x, m.ty + Turned(m, p).y) }

  /** What a cycle knows of the movers: the reports with their frame and age, the limits
      they are screened by, and the reference of this cycle. */
  datatype Scene = Scene(reports: seq<Report>, frame: Option<Frame>, age: Option<real>, timeout: real, maxRadius: real, slowest: real, reference: seq<Vec>)

  /** Predictions are used when they are recent and their frame is known. */
  predicate Fresh(sc: Scene) { sc.age.Some? && 0.0 <= sc.age.value <= sc.timeout && sc.frame.Some? }

  predicate AllKnown(samples: seq<Option<Point>>) { forall i :: 0 <= i < |samples| ==> samples[i].Some? }

  /** A sampled prediction is used whole or not at all. */
  function Samples(r: Report, m: Frame): (s: seq<Point>)
    ensures s != [] ==> r.sampleDt.Some? && r.sampleDt.value > 0.0 && |s| == |r.samples|
  {
    if r.sampleDt.Some? && r.sampleDt.value > 0.0 && AllKnown(r.samples)
    then seq(|r.samples|, i requires 0 <= i < |r.samples| => Moved(m, r.samples[i].value))
    else []
  }

  /** The mover a report stands for, in the solver's frame: none when a field is ill-formed,
      when it is too large to be a mover or too slow for one. */
  function Screened(root: real -> real, sc: Scene, r: Report): (t: Option<Track>)
    requires Fresh(sc)
    ensures t.Some? ==> ValidTrack(t.value) && (sc.maxRadius > 0.0 ==> t.value.radius <= sc.maxRadius)
    ensures t.Some? ==> root(Norm2(t.value.vx, t.value.vy)) >= sc.slowest
  {
    var m := sc.frame.value;
    if r.at.None? || r.velocity.None? || r.radius.None? || r.radius.value < 0.0 then None
    else if sc.maxRadius > 0.0 && r.radius.value > sc.maxRadius then None
    else
      var at, v, samples := Moved(m, r.at.value), Turned(m, r.velocity.value), Samples(r, m);
      if root(Norm2(v.x, v.y)) < sc.slowest then None
      else Some(Track(r.id, at, v.x, v.y, r.radius.value, samples, if samples == [] then 0.0 else r.sampleDt.value))
  }

  /** Which reports become movers, in the frame they are reported in: every field is finite, the
      radius is not negative nor over the limit, and the speed is not below the threshold. The
      mover is the report seen through the frame; its samples are taken when their step is
      positive and every one of them is finite. */
  lemma ScreenedIff(root: real -> real, sc: Scene, r: Report)
    requires Fresh(sc) && Mul(sc.frame.value.c, sc.frame.value.c) + Mul(sc.frame.value.s, sc.frame.value.s) == 1.0
    ensures Screened(root, sc, r).Some? <==>
            && r.at.Some? && r.velocity.Some? && r.radius.Some? && r.radius.value >= 0.0 && (sc.maxRadius > 0.0 ==> r.radius.value <= sc.maxRadius)
            && root(Norm2(r.velocity.value.x, r.velocity.value.y)) >= sc.slowest
    ensures Screened(root, sc, r).Some? ==>
              var t, m := Screened(root, sc, r).value, sc.frame.value;
              && t.id == r.id && t.radius == r.radius.value && t.at == Moved(m, r.at.value) && Point(t.vx, t.vy) == Turned(m, r.velocity.value)
              && (t.samples != [] <==> r.samples != [] && r.sampleDt.Some? && r.sampleDt.value > 0.0 && forall i :: 0 <= i < |r.samples| ==> r.samples[i].Some?)
              && (t.samples != [] ==> t.sampleDt == r.sampleDt.value && |t.samples| == |r.samples|
                                      && forall i :: 0 <= i < |r.samples| ==> t.samples[i] == Moved(m, r.samples[i].value))
  {
    hide Turned, Moved, Norm2;
    if r.velocity.Some? { SpeedFrameFree(sc.frame.value, r.velocity.value); }
  }

  /** A frame is a rotation and a translation: it takes the axes to a rotated pair, and keeps
      every distance. */
  lemma FrameRigid(m: Frame, p: Point, q: Point)
    requires Mul(m.c, m.c) + Mul(m.s, m.s) == 1.0
    ensures Dist2(Moved(m, p), Moved(m, q)) == Dist2(p, q)
    ensures Moved(m, Point(0.0, 0.0)) == Point(m.tx, m.ty)
    ensures Turned(m, Point(1.0, 0.0)) == Point(m.c, m.s) && Turned(m, Point(0.0, 1.0)) == Point(-m.s, m.c)
    ensures Moved(m, p).x - Moved(m, q).x == Turned(m, Point(p.x - q.x, p.y - q.y)).x && Moved(m, p).y - Moved(m, q).y == Turned(m, Point(p.x - q.x, p.y - q.y)).y
  {
    var d := Point(p.x - q.x, p.y - q.y);
    Apart2(m.c, p.x, q.x);
    Apart2(m.s, p.y, q.y);
    Apart2(m.s, p.x, q.x);
    Apart2(m.c, p.y, q.y);
    SpeedFrameFree(m, d);
    var u := Turned(m, d);
    assert Moved(m, p).x - Moved(m, q).x == u.x && Moved(m, p).y - Moved(m, q).y == u.y;
    assert Dist2(Moved(m, p), Moved(m, q)) == Norm2(u.x, u.y);
    assert Dist2(p, q) == Norm2(d.x, d.y);
  }

  lemma Apart2(c: real, a: real, b: real)
    ensures Mul(c, a) - Mul(c, b) == Mul(c, a - b)
  {
  }

  /** Whether an obstacle counts as moving does not depend on the frame it is reported in. */
  lemma SpeedFrameFree(m: Frame, v: Point)
    requires Mul(m.c, m.c) + Mul(m.s, m.s) == 1.0
    ensures Norm2(Turned(m, v).x, Turned(m, v).y) == Norm2(v.x, v.y)
  {
    Rotated(m.c, m.s, v.x, v.y);
    Unscaled(m.c, m.s, v.x * v.x + v.y * v.y);
  }

  lemma Rotated(c: real, s: real, x: real, y: real)
    ensures (c * x - s * y) * (c * x - s * y) + (s * x + c * y) * (s * x + c * y) == (c * c + s * s) * (x * x + y * y)
  {
  }

  lemma Unscaled(c: real, s: real, w: real)
    requires Mul(c, c) + Mul(s, s) == 1.0
    ensures (c * c + s * s) * w == w
  {
    var one := c * c + s * s;
    assert one == 1.0;
    assert one * w == w;
  }

  /** The point in two columns of a reference row. */
  function PointIn(row: Vec, i: nat, j: nat): Point
    requires i < |row| && j < |row|
  {
    Point(row[i], row[j])
  }

  ghost predicate Rows(reference: seq<Vec>) { forall node :: 0 <= node < |reference| ==> |reference[node]| >= 2 }

  /** How near a mover's prediction comes to columns i and j of the reference of a node. */
  function Gap(f: Fill, root: real -> real, t: Track, sc: Scene, node: nat, i: nat, j: nat): real
    requires ValidFill(f) && ValidTrack(t) && Fresh(sc) && node + 1 < |sc.reference| && i < |sc.reference[node + 1]| && j < |sc.reference[node + 1]|
  {
    AheadNonneg(f, node, sc.age.value);
    root(Dist2(Predict(t, Ahead(f, node, sc.age.value)), PointIn(sc.reference[node + 1], i, j)))
  }

  /** The closest approach of a mover's prediction to two columns of the reference over the
      horizon. */
  ghost predicate IsApproach(f: Fill, root: real -> real, t: Track, sc: Scene, i: nat, j: nat, v: real)
    requires ValidFill(f) && ValidTrack(t) && Fresh(sc) && forall node :: 0 <= node < |sc.reference| ==> i < |sc.reference[node]| && j < |sc.reference[node]|
  {
    && (forall node: nat :: node + 1 < |sc.reference| ==> v <= Gap(f, root, t, sc, node, i, j))
    && exists node: nat :: node + 1 < |sc.reference| && v == Gap(f, root, t, sc, node, i, j)
  }

  /** The priority of a mover: its closest approach to the first two columns, whatever state
      they carry. */
  ghost predicate IsPriority(f: Fill, root: real -> real, t: Track, sc: Scene, v: real)
    requires ValidFill(f) && ValidTrack(t) && Fresh(sc) && Rows(sc.reference)
  {
    IsApproach(f, root, t, sc, 0, 1, v)
  }

  /** A mover with its priority. */
  datatype Ranked = Ranked(track: Track, priority: real)

  /** The loop over the nodes of one mover. */
  method Score(f: Fill, root: real -> real, t: Track, sc: Scene) returns (best: real)
    requires ValidFill(f) && ValidTrack(t) && Fresh(sc) && |sc.reference| >= 2 && Rows(sc.reference)
    ensures IsPriority(f, root, t, sc, best)
  {
    hide Gap, ValidTrack, ValidFill;
    best := Gap(f, root, t, sc, 0, 0, 1);
    ghost var arg: nat := 0;
    for node := 1 to |sc.reference| - 1
      invariant forall k: nat :: k < node ==> best <= Gap(f, root, t, sc, k, 0, 1)
      invariant arg < node && best == Gap(f, root, t, sc, arg, 0, 1)
    {
      var d := Gap(f, root, t, sc, node, 0, 1);
      if d < best {
        best, arg := d, node;
      }
    }
  }

  /** The tracks of the reports that pass the screen, in the order received. */
  function Passing(root: real -> real, sc: Scene, n: nat): (ts: seq<Track>)
    requires Fresh(sc) && n <= |sc.reports|
  {
    if n == 0 then []
    else
      var rest, t := Passing(root, sc, n - 1), Screened(root, sc, sc.reports[n - 1]);
      if t.Some? then rest + [t.value] else rest
  }

  function TracksOf(rs: seq<Ranked>): (ts: seq<Track>)
    ensures |ts| == |rs| && forall i :: 0 <= i < |rs| ==> ts[i] == rs[i].track
  {
    seq(|rs|, i requires 0 <= i < |rs| => rs[i].track)
  }

  /** Screen every report and score the movers among them. */
  method Rate(f: Fill, root: real -> real, sc: Scene) returns (rated: seq<Ranked>)
    requires ValidFill(f) && Fresh(sc) && |sc.reference| >= 2 && Rows(sc.reference)
    ensures TracksOf(rated) == Passing(root, sc, |sc.reports|)
    ensures forall i :: 0 <= i < |rated| ==> ValidTrack(rated[i].track) && IsPriority(f, root, rated[i].track, sc, rated[i].priority)
  {
    hide IsPriority, ValidFill, ValidTrack, Screened;
    rated := [];
    for i := 0 to |sc.reports|
      invariant TracksOf(rated) == Passing(root, sc, i)
      invariant forall k :: 0 <= k < |rated| ==> ValidTrack(rated[k].track) && IsPriority(f, root, rated[k].track, sc, rated[k].priority)
    {
      var t := Screened(root, sc, sc.reports[i]);
      if t.Some? {
        var best := Score(f, root, t.value, sc);
        ghost var was := rated;
        rated := rated + [Ranked(t.value, best)];
        assert TracksOf(rated) == TracksOf(was) + [t.value];
      }
    }
  }

  /** How many movers get a slot: the capacity, and the cap if one is set. */
  function MoverCount(movers: nat, k: nat, cap: int): nat {
    var n := if movers < k then movers else k;
    if cap >= 0 && cap < n then cap else n
  }

  /** As many as there are, fit, and may: the most that exceed none of the three. */
  lemma MoverCountLaw(movers: nat, k: nat, cap: int, n: nat)
    ensures n <= MoverCount(movers, k, cap) <==> n <= movers && n <= k && (cap >= 0 ==> n <= cap)
  {
  }

  // ----- the fill

  const SENTINEL := Disc(FAR_SENTINEL, FAR_SENTINEL, 0.0)

  /** The movers' rows for the nodes before `upto`. */
  ghost predicate MoversPlaced(obs: seq<Disc>, f: Fill, root: real -> real, movers: seq<Track>, age: real, shift: seq<Point>, k: nat, np: nat, upto: nat)
    requires ValidFill(f) && age >= 0.0 && (forall j :: 0 <= j < |movers| ==> ValidTrack(movers[j])) && |movers| <= k && |shift| == np && upto <= np
  {
    && |obs| == Times(np, k)
    && (forall node: nat, j: nat {:trigger RowOf(k, node, j)} :: node < upto && j < |movers| ==>
          RowOf(k, node, j) < |obs| && obs[RowOf(k, node, j)] == MoverDisc(f, root, movers[j], node, age, shift[node]))
    && (forall node: nat, slot: nat {:trigger RowOf(k, node, slot)} :: node < np && slot < k && (node >= upto || slot >= |movers|) ==>
          RowOf(k, node, slot) < |obs| && obs[RowOf(k, node, slot)] == SENTINEL)
  }

  method Clear(obs: array<Disc>, k: nat, np: nat)
    requires obs.Length == Times(np, k)
    modifies obs
    ensures forall node: nat, slot: nat {:trigger RowOf(k, node, slot)} :: node < np && slot < k ==>
              RowOf(k, node, slot) < obs.Length && obs[RowOf(k, node, slot)] == SENTINEL
    ensures forall r :: 0 <= r < obs.Length ==> obs[r] == SENTINEL
  {
    hide Times;
    for r := 0 to obs.Length
      invariant forall i :: 0 <= i < r ==> obs[i] == SENTINEL
    {
      obs[r] := SENTINEL;
    }
    forall node: nat, slot: nat | node < np && slot < k ensures RowOf(k, node, slot) < obs.Length { TableCell(node, np, k, slot); }
  }

  /** Slot j carries mover j at every node. */
  method PlaceMovers(obs: array<Disc>, f: Fill, root: real -> real, movers: seq<Track>, age: real, shift: seq<Point>, k: nat, np: nat)
    requires ValidFill(f) && age >= 0.0 && (forall j :: 0 <= j < |movers| ==> ValidTrack(movers[j])) && |movers| <= k && |shift| == np
    requires MoversPlaced(obs[..], f, root, movers, age, shift, k, np, 0)
    modifies obs
    ensures MoversPlaced(obs[..], f, root, movers, age, shift, k, np, np)
  {
    hide Times, MoverDisc, ValidTrack, ValidFill;
    for node := 0 to np
      invariant MoversPlaced(obs[..], f, root, movers, age, shift, k, np, node)
    {
      for j := 0 to |movers|
        invariant obs.Length == Times(np, k)
        invariant forall n: nat, i: nat {:trigger RowOf(k, n, i)} :: (n < node && i < |movers|) || (n == node && i < j) ==>
                    RowOf(k, n, i) < obs.Length && obs[RowOf(k, n, i)] == MoverDisc(f, root, movers[i], n, age, shift[n])
        invariant forall n: nat, i: nat {:trigger RowOf(k, n, i)} :: n < np && i < k && (n > node || (n == node && i >= j) || i >= |movers|) ==>
                    RowOf(k, n, i) < obs.Length && obs[RowOf(k, n, i)] == SENTINEL
      {
        TableCell(node, np, k, j);
        RowsUnique(k, node, j);
        obs[RowOf(k, node, j)] := MoverDisc(f, root, movers[j], node, age, shift[node]);
      }
    }
  }

  lemma RowsUnique(k: nat, node: nat, j: nat)
    requires j < k
    ensures forall n: nat, i: nat {:trigger RowOf(k, n, i)} :: i < k && RowOf(k, n, i) == RowOf(k, node, j) ==> n == node && i == j
  {
    hide Times;
    forall n: nat, i: nat | i < k && RowOf(k, n, i) == RowOf(k, node, j) ensures n == node && i == j { CellUnique(n, i, node, j, k); }
  }

  /** What a cycle knows of the clutter: the costmap, how it is looked at, the nominal
      positions of the model's reference point and the shift from the robot's centre. */
  datatype Ground = Ground(grid: Grid, threshold: nat, cells: nat, nominal: seq<Point>, shift: seq<Point>, cluster: real)

  predicate ValidGround(w: Ground, np: nat) { np > 0 && |w.nominal| == np + 1 && |w.shift| == np && w.cluster >= 0.0 }

  /** The robot's centre at the state a node's rows will be linearised about. */
  function Centre(w: Ground, np: nat, node: nat): Point
    requires ValidGround(w, np) && node < np
  {
    var row := if node + 2 < np then node + 2 else np;
    Point(w.nominal[row].x - w.shift[node].x, w.nominal[row].y - w.shift[node].y)
  }

  function Looking(f: Fill, w: Ground): Look { Look(w.threshold, f.robot + f.margin + w.cluster, w.cells) }

  /** The movers' present footprints, grown by the cluster radius. */
  function Footprints(movers: seq<Track>, cluster: real): (e: seq<Exclusion>)
    ensures |e| == |movers|
  {
    seq(|movers|, i requires 0 <= i < |movers| => Exclusion(movers[i].at, movers[i].radius + cluster))
  }

  /** The scan of a node: there is one exactly when its centre is on the map, and it shows
      every cell to keep out of inside its window, and nothing else, nearest first. */
  ghost predicate ScanOf(f: Fill, w: Ground, excl: seq<Exclusion>, np: nat, node: nat, r: Option<Scan>)
    requires ValidFill(f) && ValidGround(w, np) && w.grid.res > 0.0 && node < np
  {
    && (r.Some? <==> CellOf(w.grid, Centre(w, np, node)).Some?)
    && (r.Some? ==> && r.value.centre == Centre(w, np, node) && NearestFirst(r.value)
                    && forall p :: p in r.value.cells <==> Kept(w.grid, Looking(f, w), excl, Centre(w, np, node), p))
  }

  /** The scans of all nodes. */
  method ScanNodes(f: Fill, w: Ground, excl: seq<Exclusion>, np: nat) returns (scans: seq<Option<Scan>>)
    requires ValidFill(f) && ValidGround(w, np) && w.grid.res > 0.0
    ensures |scans| == np && forall node :: 0 <= node < np ==> ScanOf(f, w, excl, np, node, scans[node])
  {
    hide Kept, CellOf, Dist2;
    scans := [];
    for node := 0 to np
      invariant |scans| == node && forall k :: 0 <= k < node ==> ScanOf(f, w, excl, np, k, scans[k])
    {
      var r := ScanNode(w.grid, Looking(f, w), excl, Centre(w, np, node));
      scans := scans + [r];
    }
  }

  // ----- when the ranking is by the reference position

  /** The reference carries its position in columns px and py, in rows of n states. */
  ghost predicate Carries(sc: Scene, n: nat, px: nat, py: nat) {
    |sc.reference| >= 2 && px < n && py < n && n >= 2 && forall node :: 0 <= node < |sc.reference| ==> |sc.reference[node]| == n
  }

  /** Every priority is the closest approach to the reference position. */
  ghost predicate RanksByPosition(f: Fill, root: real -> real, n: nat, px: nat, py: nat)
    requires ValidFill(f)
  {
    forall t: Track, sc: Scene, v: real {:trigger Ranks(f, root, t, sc, n, px, py, v)} ::
      ValidTrack(t) && Fresh(sc) && Carries(sc, n, px, py) ==> Ranks(f, root, t, sc, n, px, py, v)
  }

  ghost predicate Ranks(f: Fill, root: real -> real, t: Track, sc: Scene, n: nat, px: nat, py: nat, v: real)
    requires ValidFill(f) && ValidTrack(t) && Fresh(sc) && Carries(sc, n, px, py)
  {
    IsPriority(f, root, t, sc, v) <==> IsApproach(f, root, t, sc, px, py, v)
  }

  /** The ranking is by the closest approach to the reference position, for every mover and
      every reference, if and only if the model keeps its position in columns 0 and 1. */
  lemma RanksByPositionIff(f: Fill, root: real -> real, n: nat, px: nat, py: nat)
    requires ValidFill(f) && IsRoot(root) && px < n && py < n && px != py
    ensures RanksByPosition(f, root, n, px, py) <==> px == 0 && py == 1
  {
    if px == 0 && py == 1 {
      forall t: Track, sc: Scene, v: real {:trigger Ranks(f, root, t, sc, n, px, py, v)} |
        ValidTrack(t) && Fresh(sc) && Carries(sc, n, px, py) ensures Ranks(f, root, t, sc, n, px, py, v)
      {
      }
    } else {
      RanksElsewhere(f, root, n, px, py);
    }
  }

  /** A mover that stands on the first two columns of a reference whose other columns it is
      away from. */
  lemma RanksElsewhere(f: Fill, root: real -> real, n: nat, px: nat, py: nat)
    requires ValidFill(f) && IsRoot(root) && px < n && py < n && px != py && !(px == 0 && py == 1)
    ensures !RanksByPosition(f, root, n, px, py)
  {
    hide Gap, IsApproach, ValidFill, RanksByPosition, Dist2;
    var row := seq(n, i => if i == 0 then 0.0 else if i == 1 then 1.0 else 2.0);
    assert row[px] != 0.0 || row[py] != 1.0;
    BystanderGap(f, root, row, 0, 1);
    BystanderGap(f, root, row, px, py);
    RootApart(root, Bystander().at, PointIn(row, 0, 1));
    RootApart(root, Bystander().at, PointIn(row, px, py));
    GapsDiffer(f, root, Bystander(), OneNode(row, []), n, px, py);
  }

  /** Different distances at the only node are different priorities. */
  lemma GapsDiffer(f: Fill, root: real -> real, t: Track, sc: Scene, n: nat, px: nat, py: nat)
    requires ValidFill(f) && ValidTrack(t) && Fresh(sc) && Carries(sc, n, px, py) && |sc.reference| == 2
    requires Gap(f, root, t, sc, 0, 0, 1) != Gap(f, root, t, sc, 0, px, py)
    ensures !RanksByPosition(f, root, n, px, py)
  {
    hide Gap, IsApproach, ValidFill, ValidTrack;
    OnlyNode(f, root, t, sc, 0, 1);
    OnlyNode(f, root, t, sc, px, py);
    assert !Ranks(f, root, t, sc, n, px, py, Gap(f, root, t, sc, 0, 0, 1));
  }

  function Bystander(): Track { Track(0, Point(0.0, 1.0), 0.0, 0.0, 0.0, [], 0.0) }

  /** A fresh scene whose horizon has one node, with the same reference row at both ends. */
  function OneNode(row: Vec, reports: seq<Report>): Scene {
    Scene(reports, Some(Frame(1.0, 0.0, 0.0, 0.0)), Some(0.0), 0.0, 0.0, 0.0, [row, row])
  }

  lemma BystanderGap(f: Fill, root: real -> real, row: Vec, i: nat, j: nat)
    requires ValidFill(f) && i < |row| && j < |row|
    ensures Gap(f, root, Bystander(), OneNode(row, []), 0, i, j) == root(Dist2(Bystander().at, PointIn(row, i, j)))
  {
    hide Dist2, ValidFill;
    AheadNonneg(f, 0, 0.0);
    Still(Bystander(), Ahead(f, 0, 0.0));
  }

  /** With one node the closest approach is the distance there. */
  lemma OnlyNode(f: Fill, root: real -> real, t: Track, sc: Scene, i: nat, j: nat)
    requires ValidFill(f) && ValidTrack(t) && Fresh(sc) && |sc.reference| == 2 && (forall node :: 0 <= node < 2 ==> i < |sc.reference[node]| && j < |sc.reference[node]|)
    ensures forall v: real {:trigger IsApproach(f, root, t, sc, i, j, v)} :: IsApproach(f, root, t, sc, i, j, v) <==> v == Gap(f, root, t, sc, 0, i, j)
  {
    hide Gap, ValidFill;
    forall v: real {:trigger IsApproach(f, root, t, sc, i, j, v)} ensures IsApproach(f, root, t, sc, i, j, v) <==> v == Gap(f, root, t, sc, 0, i, j) {
      assert 0 + 1 < |sc.reference|;
    }
  }

  /** Two movers at a distance of one step, reported to a model that keeps its heading first
      and its position in columns 1 and 2: one will be at (0, 5), the other at (5, 0). */
  function North(): Report { Report(1, Some(Point(-1.0, 5.0)), Some(Point(1.0, 0.0)), Some(0.2), [], None) }
  function East(): Report { Report(2, Some(Point(4.0, 0.0)), Some(Point(1.0, 0.0)), Some(0.2), [], None) }

  /** With a reference that heads along 0 at the position (5, 0), every ranking puts the
      mover at (0, 5) first although the other one is at the reference position itself. */
  lemma WrongMoverFirst(f: Fill, root: real -> real, ranking: seq<Ranked>)
    requires ValidFill(f) && f.dt == 1.0 && IsRoot(root)
    requires Ranking(f, root, OneNode([0.0, 5.0, 0.0], [North(), East()]), ranking)
    ensures var sc := OneNode([0.0, 5.0, 0.0], [North(), East()]);
            && Carries(sc, 3, 1, 2) && |ranking| == 2 && ranking[0].track.id == 1 && ranking[1].track.id == 2
            && AtFirst(f, root, sc, ranking[1].track, ranking[0].track, 1, 2)
  {
    hide Gap, ValidFill, IsApproach, Passing, TracksOf;
    var row := [0.0, 5.0, 0.0];
    var sc := OneNode(row, [North(), East()]);
    var a, b := Track(1, Point(-1.0, 5.0), 1.0, 0.0, 0.2, [], 0.0), Track(2, Point(4.0, 0.0), 1.0, 0.0, 0.2, [], 0.0);
    BothPass(root, sc);
    TwoRanked(ranking, a, b);
    OtherColumns(f, root, sc, row, a, b);
    OnlyNode(f, root, a, sc, 0, 1);
    OnlyNode(f, root, b, sc, 0, 1);
    assert IsPriority(f, root, ranking[0].track, sc, ranking[0].priority) && IsPriority(f, root, ranking[1].track, sc, ranking[1].priority);
    assert ranking[0].priority <= ranking[1].priority;
  }

  /** A mover at unit speed along x, without samples. */
  predicate Strides(t: Track) { t.vx == 1.0 && t.vy == 0.0 && t.samples == [] && t.radius >= 0.0 }

  /** The first mover comes onto the point in two columns of the reference, the second does
      not. */
  ghost predicate AtFirst(f: Fill, root: real -> real, sc: Scene, a: Track, b: Track, i: nat, j: nat) {
    && ValidFill(f) && ValidTrack(a) && ValidTrack(b) && Fresh(sc) && |sc.reference| == 2 && i < |sc.reference[1]| && j < |sc.reference[1]|
    && Gap(f, root, a, sc, 0, i, j) == 0.0 && Gap(f, root, b, sc, 0, i, j) > 0.0
  }

  lemma OtherColumns(f: Fill, root: real -> real, sc: Scene, row: Vec, a: Track, b: Track)
    requires ValidFill(f) && f.dt == 1.0 && IsRoot(root) && |row| == 3 && row[0] == 0.0 && row[1] == 5.0 && row[2] == 0.0
    requires Strides(a) && Strides(b) && a.at == Point(-1.0, 5.0) && b.at == Point(4.0, 0.0) && sc == OneNode(row, sc.reports)
    ensures AtFirst(f, root, sc, a, b, 0, 1) && AtFirst(f, root, sc, b, a, 1, 2)
  {
    hide Gap, ValidFill;
    GapAfterOne(f, root, a, sc, row, 0, 1, Point(0.0, 5.0));
    GapAfterOne(f, root, b, sc, row, 0, 1, Point(5.0, 0.0));
    GapAfterOne(f, root, a, sc, row, 1, 2, Point(0.0, 5.0));
    GapAfterOne(f, root, b, sc, row, 1, 2, Point(5.0, 0.0));
  }

  lemma BothPass(root: real -> real, sc: Scene)
    requires IsRoot(root) && sc == OneNode([0.0, 5.0, 0.0], [North(), East()])
    ensures Passing(root, sc, 2) == [Track(1, Point(-1.0, 5.0), 1.0, 0.0, 0.2, [], 0.0), Track(2, Point(4.0, 0.0), 1.0, 0.0, 0.2, [], 0.0)]
  {
    hide Screened;
    PassesAsIs(root, sc, North());
    PassesAsIs(root, sc, East());
    assert Passing(root, sc, 0) == [] && Passing(root, sc, 1) == Passing(root, sc, 0) + [Screened(root, sc, North()).value];
    assert Passing(root, sc, 2) == Passing(root, sc, 1) + [Screened(root, sc, East()).value];
  }

  /** In its own frame and without limits a well-formed report passes as it is. */
  lemma PassesAsIs(root: real -> real, sc: Scene, r: Report)
    requires IsRoot(root) && Fresh(sc) && sc.frame == Some(Frame(1.0, 0.0, 0.0, 0.0)) && sc.maxRadius == 0.0 && sc.slowest == 0.0
    requires r.at.Some? && r.velocity.Some? && r.radius.Some? && r.radius.value >= 0.0 && r.samples == []
    ensures Screened(root, sc, r) == Some(Track(r.id, r.at.value, r.velocity.value.x, r.velocity.value.y, r.radius.value, [], 0.0))
  {
    hide Norm2;
    Unmoved(r.at.value);
    Unmoved(r.velocity.value);
    NormNonneg(r.velocity.value.x, r.velocity.value.y);
    assert root(Norm2(r.velocity.value.x, r.velocity.value.y)) >= 0.0;
    assert Samples(r, sc.frame.value) == [];
  }

  lemma Unmoved(p: Point)
    ensures Turned(Frame(1.0, 0.0, 0.0, 0.0), p) == p && Moved(Frame(1.0, 0.0, 0.0, 0.0), p) == p
  {
  }

  /** A ranking of two movers holds both. */
  lemma TwoRanked(ranking: seq<Ranked>, a: Track, b: Track)
    requires multiset(TracksOf(ranking)) == multiset([a, b]) && a != b
    ensures |ranking| == 2
    ensures (ranking[0].track == a && ranking[1].track == b) || (ranking[0].track == b && ranking[1].track == a)
  {
    var ts := TracksOf(ranking);
    assert |ts| == |multiset(ts)| == 2;
    assert ts == [ts[0], ts[1]];
    assert multiset([ts[0], ts[1]])[a] == 1 && multiset([ts[0], ts[1]])[b] == 1;
  }

  lemma GapAfterOne(f: Fill, root: real -> real, t: Track, sc: Scene, row: Vec, i: nat, j: nat, at: Point)
    requires ValidFill(f) && f.dt == 1.0 && IsRoot(root) && Strides(t)
    requires i < |row| && j < |row| && sc == OneNode(row, sc.reports) && at == Point(t.at.x + 1.0, t.at.y)
    ensures var g := Gap(f, root, t, sc, 0, i, j); if at == PointIn(row, i, j) then g == 0.0 else g > 0.0
  {
    hide Dist2;
    AheadNonneg(f, 0, 0.0);
    assert Ahead(f, 0, 0.0) == 1.0;
    assert Predict(t, 1.0) == at by { assert Mul(1.0, 1.0) == 1.0 && Mul(0.0, 1.0) == 0.0; }
    RootApart(root, at, PointIn(row, i, j));
  }

  lemma Still(t: Track, time: real)
    requires ValidTrack(t) && t.samples == [] && t.vx == 0.0 && t.vy == 0.0 && time >= 0.0
    ensures Predict(t, time) == t.at
  {
  }

  /** A distance is zero for the same point and positive otherwise. */
  lemma RootApart(root: real -> real, a: Point, b: Point)
    requires IsRoot(root)
    ensures if a == b then root(Dist2(a, b)) == 0.0 else root(Dist2(a, b)) > 0.0
  {
    PlanPath.Apart(a, b);
    var r := root(Dist2(a, b));
    assert r >= 0.0 && r * r == Dist2(a, b);
    if r > 0.0 { PositiveProduct(r, r); }
  }

  /** Rank the movers and keep those that get a slot. */
  method Choose(f: Fill, root: real -> real, sc: Scene, k: nat, cap: int) returns (movers: seq<Track>, ghost ranking: seq<Ranked>)
    requires ValidFill(f) && Fresh(sc) && |sc.reference| >= 2 && Rows(sc.reference)
    ensures Ranking(f, root, sc, ranking) && |movers| == MoverCount(|ranking|, k, cap) <= |ranking|
    ensures |movers| <= k && forall j :: 0 <= j < |movers| ==> movers[j] == ranking[j].track && ValidTrack(movers[j])
  {
    hide ValidFill, ValidTrack, IsPriority, Passing;
    var rated := Rate(f, root, sc);
    var sorted := SortBy((r: Ranked) => r.priority, rated);
    RatedKept(f, root, sc, rated, sorted);
    MoverCountFits(|rated|, k, cap);
    var n := MoverCount(|rated|, k, cap);
    movers, ranking := seq(n, i requires 0 <= i < n => sorted[i].track), sorted;
  }

  /** Every mover among the reports, once each, with its priority, least first. */
  ghost predicate Ranking(f: Fill, root: real -> real, sc: Scene, ranking: seq<Ranked>)
    requires ValidFill(f) && Fresh(sc) && Rows(sc.reference)
  {
    && multiset(TracksOf(ranking)) == multiset(Passing(root, sc, |sc.reports|))
    && (forall i :: 0 <= i < |ranking| ==> ValidTrack(ranking[i].track) && IsPriority(f, root, ranking[i].track, sc, ranking[i].priority))
    && (forall i, j :: 0 <= i < j < |ranking| ==> ranking[i].priority <= ranking[j].priority)
  }

  lemma RatedKept(f: Fill, root: real -> real, sc: Scene, rated: seq<Ranked>, sorted: seq<Ranked>)
    requires ValidFill(f) && Fresh(sc) && Rows(sc.reference) && multiset(sorted) == multiset(rated) && SortedBy((r: Ranked) => r.priority, sorted)
    requires TracksOf(rated) == Passing(root, sc, |sc.reports|)
    requires forall i :: 0 <= i < |rated| ==> ValidTrack(rated[i].track) && IsPriority(f, root, rated[i].track, sc, rated[i].priority)
    ensures |sorted| == |rated| && Ranking(f, root, sc, sorted)
  {
    hide ValidFill, ValidTrack, IsPriority, Passing;
    assert |multiset(sorted)| == |multiset(rated)|;
    SameTracks(rated, sorted);
    forall i | 0 <= i < |sorted| ensures ValidTrack(sorted[i].track) && IsPriority(f, root, sorted[i].track, sc, sorted[i].priority) {
      assert sorted[i] in multiset(rated);
      assert sorted[i] in rated;
    }
    var key := (r: Ranked) => r.priority;
    forall i, j | 0 <= i < j < |sorted| ensures sorted[i].priority <= sorted[j].priority { assert key(sorted[i]) <= key(sorted[j]); }
  }

  /** Reordering the ranked movers reorders their tracks. */
  lemma {:induction false} SameTracks(a: seq<Ranked>, b: seq<Ranked>)
    requires multiset(a) == multiset(b)
    ensures multiset(TracksOf(a)) == multiset(TracksOf(b))
    decreases |a|
  {
    if a == [] {
      assert |multiset(b)| == 0;
    } else {
      hide TracksOf;
      assert a[0] in multiset(a);
      assert a[0] in multiset(b);
      var k :| 0 <= k < |b| && b[k] == a[0];
      var rest, left := a[..0] + a[1..], b[..k] + b[k + 1..];
      Without(a, 0);
      Without(b, k);
      Cancel(a[0], multiset(rest), multiset(left));
      SameTracks(rest, left);
    }
  }

  lemma Cancel<T>(x: T, a: multiset<T>, b: multiset<T>)
    requires multiset{x} + a == multiset{x} + b
    ensures a == b
  {
    forall y ensures a[y] == b[y] { assert (multiset{x} + a)[y] == (multiset{x} + b)[y]; }
  }

  /** Taking out one mover takes out its track. */
  lemma Without(b: seq<Ranked>, k: nat)
    requires k < |b|
    ensures multiset(b) == multiset{b[k]} + multiset(b[..k] + b[k + 1..])
    ensures multiset(TracksOf(b)) == multiset{b[k].track} + multiset(TracksOf(b[..k] + b[k + 1..]))
  {
    assert b == b[..k] + ([b[k]] + b[k + 1..]);
    assert TracksOf(b) == TracksOf(b[..k]) + ([b[k].track] + TracksOf(b[k + 1..]));
    assert TracksOf(b[..k] + b[k + 1..]) == TracksOf(b[..k]) + TracksOf(b[k + 1..]);
  }

  /** The whole fill of a cycle. Without fresh tracks every slot is static. With them the
      movers are ranked by the closest approach of their predictions to the first two columns
      of the reference, the first get a slot each, and slot j carries mover j at every node. Static clutter only
      ever enters the slots after the movers'; each static disc is an occupied cell of the
      map within the search radius of its node and outside every mover's footprint; and a
      row nothing was put into holds the far sentinel. */
  method FillObstacles(obs: array<Disc>, f: Fill, root: real -> real, sc: Scene, w: Ground, k: nat, np: nat, cap: int)
      returns (movers: seq<Track>, ghost ranking: seq<Ranked>, ghost hits: seq<Hit>, ghost slots: seq<Option<nat>>)
    requires ValidFill(f) && ValidGround(w, np) && |sc.reference| == np + 1 && Rows(sc.reference) && obs.Length == Times(np, k)
    modifies obs
    ensures !Fresh(sc) ==> movers == []
    ensures Fresh(sc) ==> Ranking(f, root, sc, ranking) && |movers| == MoverCount(|ranking|, k, cap) <= |ranking|
    ensures Fresh(sc) ==> forall j :: 0 <= j < |movers| ==> movers[j] == ranking[j].track && ValidTrack(movers[j])
    ensures Fresh(sc) ==> forall node: nat, j: nat {:trigger RowOf(k, node, j)} :: node < np && j < |movers| && j < k ==>
              RowOf(k, node, j) < obs.Length && obs[RowOf(k, node, j)] == MoverDisc(f, root, movers[j], node, sc.age.value, w.shift[node])
    ensures forall h :: 0 <= h < |hits| ==> hits[h].owner < |slots| && hits[h].node < np && (slots[hits[h].owner].Some? ==> |movers| <= slots[hits[h].owner].value < k)
    ensures forall h :: 0 <= h < |hits| ==>
              w.grid.res > 0.0 && Kept(w.grid, Looking(f, w), Footprints(movers, w.cluster), Centre(w, np, hits[h].node), hits[h].at)
    ensures forall node: nat, slot: nat {:trigger RowOf(k, node, slot)} :: node < np && |movers| <= slot < k ==>
              RowOf(k, node, slot) < obs.Length && IsStatic(obs[RowOf(k, node, slot)], f, hits, slots, w.shift, k, node, slot)
    ensures w.grid.res > 0.0 ==> Walled(obs[..], f, w, Footprints(movers, w.cluster), |movers|, k, np)
  {
    hide Times, MoverDisc, ValidTrack, ValidFill, Square, Ranking, Kept, CellOf, Centre, Fresh, Walled, ScanOf, Shown, Footprints;
    Clear(obs, k, np);
    movers, ranking := [], [];
    if Fresh(sc) {
      movers, ranking := Choose(f, root, sc, k, cap);
      AgeKnown(sc);
      PlaceMovers(obs, f, root, movers, sc.age.value, w.shift, k, np);
    }
    hits, slots := [], [];
    if |movers| >= k { NoStaticSlots(obs[..], f, w, Footprints(movers, w.cluster), |movers|, k, np); }
    if |movers| < k && w.grid.res > 0.0 {
      ghost var was := obs[..];
      var scans := ScanNodes(f, w, Footprints(movers, w.cluster), np);
      ghost var objects, g, order;
      objects, hits, g, order, slots := FillStatic(obs, scans, w.shift, f.robot + f.margin, Square(w.cluster), |movers|, k);
      ScansKept(f, w, Footprints(movers, w.cluster), np, scans, hits);
      FillIsWalled(was, obs[..], f, w, Footprints(movers, w.cluster), scans, objects, hits, g, order, slots, |movers|, k, np);
      AfterStatic(was, obs[..], f, objects, hits, g, order, slots, w.shift, Square(w.cluster), |movers|, k, np);
    }
  }

  /** Some static slot has a disc at a node that stands for a cell: about the cell itself or
      less than the cluster radius away, and as wide as robot and margin. */
  ghost predicate Kerbed(obs: seq<Disc>, f: Fill, w: Ground, begin: nat, k: nat, node: nat, p: Point)
    requires node < |w.shift|
  {
    exists slot: nat, q: Point :: KerbedBy(obs, f, w, begin, k, node, p, slot, q)
  }

  ghost predicate KerbedBy(obs: seq<Disc>, f: Fill, w: Ground, begin: nat, k: nat, node: nat, p: Point, slot: nat, q: Point)
    requires node < |w.shift|
  {
    && begin <= slot < k && RowOf(k, node, slot) < |obs| && (q == p || Dist2(p, q) < Square(w.cluster))
    && obs[RowOf(k, node, slot)] == Disc(q.x + w.shift[node].x, q.y + w.shift[node].y, f.robot + f.margin)
  }

  /** A slot carries a cell to keep out of at some node. */
  ghost predicate InUse(obs: seq<Disc>, f: Fill, w: Ground, excl: seq<Exclusion>, k: nat, np: nat, slot: nat)
    requires ValidFill(f) && ValidGround(w, np) && w.grid.res > 0.0
  {
    exists node: nat, q: Point :: UsedAt(obs, f, w, excl, k, np, slot, node, q)
  }

  ghost predicate UsedAt(obs: seq<Disc>, f: Fill, w: Ground, excl: seq<Exclusion>, k: nat, np: nat, slot: nat, node: nat, q: Point)
    requires ValidFill(f) && ValidGround(w, np) && w.grid.res > 0.0
  {
    && node < np && RowOf(k, node, slot) < |obs| && Kept(w.grid, Looking(f, w), excl, Centre(w, np, node), q)
    && obs[RowOf(k, node, slot)] == Disc(q.x + w.shift[node].x, q.y + w.shift[node].y, f.robot + f.margin)
  }

  /** Every cell a node has to keep out of inside its window has a disc that stands for it at
      that node, unless all the slots left by the movers are in use. */
  ghost predicate Walled(obs: seq<Disc>, f: Fill, w: Ground, excl: seq<Exclusion>, begin: nat, k: nat, np: nat)
    requires ValidFill(f) && ValidGround(w, np) && w.grid.res > 0.0
  {
    forall node: nat, p: Point {:trigger Kerbed(obs, f, w, begin, k, node, p)} ::
      node < np && Kept(w.grid, Looking(f, w), excl, Centre(w, np, node), p) ==>
        Kerbed(obs, f, w, begin, k, node, p) || forall slot: nat {:trigger InUse(obs, f, w, excl, k, np, slot)} :: begin <= slot < k ==> InUse(obs, f, w, excl, k, np, slot)
  }

  /** An occupied cell of the map no farther from a scan centre than robot, margin and cluster
      radius together, and not under a mover as it stands. */
  predicate InTheWay(f: Fill, w: Ground, movers: seq<Track>, c: Point, mx: nat, my: nat) {
    && mx < w.grid.sizeX && my < w.grid.sizeY && w.grid.cost(mx, my) >= w.threshold && w.grid.cost(mx, my) != 255
    && Dist2(CentreOf(w.grid, mx, my), c) <= Square(f.robot + f.margin + w.cluster)
    && forall i :: 0 <= i < |movers| ==> Dist2(CentreOf(w.grid, mx, my), movers[i].at) >= Square(movers[i].radius + w.cluster)
  }

  /** No wall is missed: when the window spans the search radius, every cell in the way of a node
      on the map has a disc that stands for it at that node, unless all the slots left by the
      movers are in use. */
  lemma NoWallMissed(obs: seq<Disc>, f: Fill, w: Ground, movers: seq<Track>, k: nat, np: nat, node: nat, mx: nat, my: nat)
    requires ValidFill(f) && ValidGround(w, np) && w.grid.res > 0.0 && Walled(obs, f, w, Footprints(movers, w.cluster), |movers|, k, np)
    requires f.robot + f.margin + w.cluster < Mul(w.cells as real + 0.5, w.grid.res) && node < np && CellOf(w.grid, Centre(w, np, node)).Some?
    requires InTheWay(f, w, movers, Centre(w, np, node), mx, my)
    ensures Kerbed(obs, f, w, |movers|, k, node, CentreOf(w.grid, mx, my))
            || forall slot: nat {:trigger InUse(obs, f, w, Footprints(movers, w.cluster), k, np, slot)} :: |movers| <= slot < k ==> InUse(obs, f, w, Footprints(movers, w.cluster), k, np, slot)
  {
    hide Dist2, Square, CentreOf, Mul, CellOf, Centre, Kerbed, InUse;
    var excl := Footprints(movers, w.cluster);
    assert !Excluded(excl, CentreOf(w.grid, mx, my)) by {
      forall i | 0 <= i < |excl| ensures !(Dist2(CentreOf(w.grid, mx, my), excl[i].at) < Square(excl[i].radius)) {
        assert excl[i] == Exclusion(movers[i].at, movers[i].radius + w.cluster);
      }
    }
    assert Clutter(w.grid, Looking(f, w), excl, Centre(w, np, node), mx, my);
    WindowSees(w.grid, Looking(f, w), excl, Centre(w, np, node), mx, my);
  }

  lemma NoStaticSlots(obs: seq<Disc>, f: Fill, w: Ground, excl: seq<Exclusion>, begin: nat, k: nat, np: nat)
    requires ValidFill(f) && ValidGround(w, np) && begin >= k
    ensures w.grid.res > 0.0 ==> Walled(obs, f, w, excl, begin, k, np)
  {
  }

  lemma ScansKept(f: Fill, w: Ground, excl: seq<Exclusion>, np: nat, scans: seq<Option<Scan>>, hits: seq<Hit>)
    requires ValidFill(f) && ValidGround(w, np) && w.grid.res > 0.0 && |scans| == np && forall node :: 0 <= node < np ==> ScanOf(f, w, excl, np, node, scans[node])
    requires forall h :: 0 <= h < |hits| ==> hits[h].node < np && scans[hits[h].node].Some? && hits[h].at in scans[hits[h].node].value.cells
    ensures forall h :: 0 <= h < |hits| ==> Kept(w.grid, Looking(f, w), excl, Centre(w, np, hits[h].node), hits[h].at)
  {
    hide Kept, CellOf, Centre, NearestFirst;
  }

  /** A sighting whose object has a slot is a disc of its row. */
  lemma SightingIsDisc(was: seq<Disc>, now: seq<Disc>, f: Fill, hits: seq<Hit>, slots: seq<Option<nat>>, shift: seq<Point>, k: nat, np: nat, h: nat)
    requires (forall h :: 0 <= h < |hits| ==> hits[h].owner < |slots| && hits[h].node < |shift|) && |shift| == np && |was| == Times(np, k)
    requires Placed(was, now, hits, slots, shift, f.robot + f.margin, k, |hits|)
    requires h < |hits| && slots[hits[h].owner].Some? && slots[hits[h].owner].value < k
    ensures var row := RowOf(k, hits[h].node, slots[hits[h].owner].value); row < |now| && now[row] == DiscOf(hits[h], shift, f.robot + f.margin)
  {
    hide Times;
    TableCell(hits[h].node, np, k, slots[hits[h].owner].value);
    assert Writes(hits, slots, k, h, RowOf(k, hits[h].node, slots[hits[h].owner].value));
  }

  lemma FillIsWalled(was: seq<Disc>, now: seq<Disc>, f: Fill, w: Ground, excl: seq<Exclusion>, scans: seq<Option<Scan>>,
                     objects: seq<Object>, hits: seq<Hit>, g: Links, order: seq<nat>, slots: seq<Option<nat>>, begin: nat, k: nat, np: nat)
    requires ValidFill(f) && ValidGround(w, np) && w.grid.res > 0.0 && begin < k && |was| == Times(np, k)
    requires |scans| == np && forall node :: 0 <= node < np ==> ScanOf(f, w, excl, np, node, scans[node])
    requires forall node {:trigger scans[node]} :: 0 <= node < np && scans[node].Some? ==> Shown(hits, node, scans[node].value, k - begin, Square(w.cluster))
    requires Scanned(objects, hits, Square(w.cluster), g, np) && Slotted(objects, order, slots, begin, k - begin)
    requires forall h :: 0 <= h < |hits| ==> hits[h].owner < |slots| && hits[h].node < np && Kept(w.grid, Looking(f, w), excl, Centre(w, np, hits[h].node), hits[h].at)
    requires Placed(was, now, hits, slots, w.shift, f.robot + f.margin, k, |hits|)
    ensures Walled(now, f, w, excl, begin, k, np)
  {
    hide Times, Kept, Centre, Scanned, Slotted, Placed, Square, Dist2, NearestFirst, Kerbed, InUse;
    forall node: nat, p: Point {:trigger Kerbed(now, f, w, begin, k, node, p)} |
      node < np && Kept(w.grid, Looking(f, w), excl, Centre(w, np, node), p) && !Kerbed(now, f, w, begin, k, node, p)
      ensures forall slot: nat {:trigger InUse(now, f, w, excl, k, np, slot)} :: begin <= slot < k ==> InUse(now, f, w, excl, k, np, slot)
    {
      KeptIsScanned(f, w, excl, np, node, scans[node], p);
      assert ShownAt(hits, node, scans[node].value.centre, k - begin, Square(w.cluster), p);
      forall slot: nat {:trigger InUse(now, f, w, excl, k, np, slot)} | begin <= slot < k ensures InUse(now, f, w, excl, k, np, slot) {
        forall h | 0 <= h < |hits| && hits[h].owner < |slots| && StandsFor(hits[h], node, p, Square(w.cluster)) ensures slots[hits[h].owner].None? {
          if slots[hits[h].owner].Some? { SightingKerbs(was, now, f, w, objects, hits, g, order, slots, begin, k, np, node, p, h); }
        }
        LeftOut(objects, hits, Square(w.cluster), g, np, order, slots, begin, k - begin, node, scans[node].value.centre, p, slot);
        SlotUsed(was, now, f, w, excl, hits, slots, k, np, slot);
      }
    }
  }

  lemma KeptIsScanned(f: Fill, w: Ground, excl: seq<Exclusion>, np: nat, node: nat, r: Option<Scan>, p: Point)
    requires ValidFill(f) && ValidGround(w, np) && w.grid.res > 0.0 && node < np && ScanOf(f, w, excl, np, node, r)
    requires Kept(w.grid, Looking(f, w), excl, Centre(w, np, node), p)
    ensures r.Some? && NearestFirst(r.value) && p in r.value.cells
  {
    hide Centre, NearestFirst, CellOf;
  }

  lemma SightingKerbs(was: seq<Disc>, now: seq<Disc>, f: Fill, w: Ground, objects: seq<Object>, hits: seq<Hit>, g: Links, order: seq<nat>, slots: seq<Option<nat>>,
                      begin: nat, k: nat, np: nat, node: nat, p: Point, h: nat)
    requires ValidGround(w, np) && begin < k && |was| == Times(np, k) && node < np
    requires Scanned(objects, hits, Square(w.cluster), g, np) && Slotted(objects, order, slots, begin, k - begin)
    requires forall h :: 0 <= h < |hits| ==> hits[h].owner < |slots| && hits[h].node < np
    requires Placed(was, now, hits, slots, w.shift, f.robot + f.margin, k, |hits|)
    requires h < |hits| && StandsFor(hits[h], node, p, Square(w.cluster)) && slots[hits[h].owner].Some?
    ensures Kerbed(now, f, w, begin, k, node, p)
  {
    hide Times, Scanned, Slotted, Placed, Square, Dist2;
    SlotInRange(objects, order, slots, begin, k, hits, Square(w.cluster), g, np, h);
    SightingIsDisc(was, now, f, hits, slots, w.shift, k, np, h);
    assert KerbedBy(now, f, w, begin, k, node, p, slots[hits[h].owner].value, hits[h].at);
  }

  lemma SlotUsed(was: seq<Disc>, now: seq<Disc>, f: Fill, w: Ground, excl: seq<Exclusion>, hits: seq<Hit>, slots: seq<Option<nat>>, k: nat, np: nat, slot: nat)
    requires ValidFill(f) && ValidGround(w, np) && w.grid.res > 0.0 && |was| == Times(np, k) && slot < k
    requires forall h :: 0 <= h < |hits| ==> hits[h].owner < |slots| && hits[h].node < np && Kept(w.grid, Looking(f, w), excl, Centre(w, np, hits[h].node), hits[h].at)
    requires Placed(was, now, hits, slots, w.shift, f.robot + f.margin, k, |hits|) && Taken(hits, slots, slot)
    ensures InUse(now, f, w, excl, k, np, slot)
  {
    hide Times, Placed, Kept, Centre;
    var h: nat :| TakenBy(hits, slots, slot, h);
    SightingIsDisc(was, now, f, hits, slots, w.shift, k, np, h);
    assert UsedAt(now, f, w, excl, k, np, slot, hits[h].node, hits[h].at);
  }

  lemma AgeKnown(sc: Scene)
    requires Fresh(sc)
    ensures sc.age.Some? && sc.age.value >= 0.0
  {
  }

  lemma MoverCountFits(movers: nat, k: nat, cap: int)
    ensures MoverCount(movers, k, cap) <= movers && MoverCount(movers, k, cap) <= k
  {
  }

  /** A static row holds the sighting that owns it, or the sentinel when none does. */
  ghost predicate IsStatic(o: Disc, f: Fill, hits: seq<Hit>, slots: seq<Option<nat>>, shift: seq<Point>, k: nat, node: nat, slot: nat)
    requires forall h :: 0 <= h < |hits| ==> hits[h].owner < |slots| && hits[h].node < |shift|
  {
    && (forall h :: 0 <= h < |hits| && Writes(hits, slots, k, h, RowOf(k, node, slot)) ==> o == DiscOf(hits[h], shift, f.robot + f.margin))
    && ((forall h :: 0 <= h < |hits| ==> !Writes(hits, slots, k, h, RowOf(k, node, slot))) ==> o == SENTINEL)
  }

  lemma AfterStatic(was: seq<Disc>, now: seq<Disc>, f: Fill, objects: seq<Object>, hits: seq<Hit>, g: Links, order: seq<nat>, slots: seq<Option<nat>>,
                    shift: seq<Point>, cr2: real, begin: nat, k: nat, np: nat)
    requires begin < k && |shift| == np && |was| == Times(np, k) && Scanned(objects, hits, cr2, g, np) && Slotted(objects, order, slots, begin, k - begin)
    requires forall h :: 0 <= h < |hits| ==> hits[h].owner < |slots| && hits[h].node < |shift|
    requires Placed(was, now, hits, slots, shift, f.robot + f.margin, k, |hits|)
    ensures forall h :: 0 <= h < |hits| && slots[hits[h].owner].Some? ==> begin <= slots[hits[h].owner].value < k
    ensures forall node: nat, j: nat {:trigger RowOf(k, node, j)} :: node < np && j < begin && RowOf(k, node, j) < |was| ==>
              now[RowOf(k, node, j)] == was[RowOf(k, node, j)]
    ensures forall node: nat, slot: nat {:trigger RowOf(k, node, slot)} :: node < np && begin <= slot < k && RowOf(k, node, slot) < |was| && was[RowOf(k, node, slot)] == SENTINEL ==>
              IsStatic(now[RowOf(k, node, slot)], f, hits, slots, shift, k, node, slot)
  {
    hide Times, Scanned, Slotted;
    forall h | 0 <= h < |hits| && slots[hits[h].owner].Some? ensures begin <= slots[hits[h].owner].value < k {
      SlotInRange(objects, order, slots, begin, k, hits, cr2, g, np, h);
    }
    forall node: nat, j: nat {:trigger RowOf(k, node, j)} | node < np && j < begin && RowOf(k, node, j) < |was|
      ensures now[RowOf(k, node, j)] == was[RowOf(k, node, j)]
    {
      DynamicUntouched(was, now, objects, hits, order, slots, shift, f.robot + f.margin, begin, k, node, j);
    }
  }
}
