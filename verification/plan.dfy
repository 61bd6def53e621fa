/** The plan as a polyline: arc length, projection of the robot, and sampling. */
module PlanPath {
  import opened Basics
  import opened Linear

  type Polyline = seq<Point>

  /** Below this squared length a segment is projected onto its start. */
  const DEGENERATE_LEN2 := 0.000000000000000001
  /** Below this length a segment is sampled at its start. */
  const DEGENERATE_LEN := 0.000000001

  function Along(p: Polyline, i: nat, t: real): Point
    requires i + 1 < |p|
  {
    Point(p[i].x + Mul(t, p[i + 1].x - p[i].x), p[i].y + Mul(t, p[i + 1].y - p[i].y))
  }

  // ----- arc length

  function Arc(root: real -> real, p: Polyline, i: nat): real
    requires i < |p|
  {
    if i == 0 then 0.0 else Arc(root, p, i - 1) + root(Dist2(p[i], p[i - 1]))
  }

  lemma Dist2Nonneg(p: Point, q: Point)
    ensures Dist2(p, q) >= 0.0 && Dist2(p, q) == Dist2(q, p)
  {
  }

  lemma {:induction false} ArcMono(root: real -> real, p: Polyline, i: nat, j: nat)
    requires IsRoot(root) && i <= j < |p|
    ensures 0.0 <= Arc(root, p, i) <= Arc(root, p, j)
  {
    hide Dist2;
    if i < j {
      ArcMono(root, p, i, j - 1);
      Dist2Nonneg(p[j], p[j - 1]);
    } else if i > 0 {
      ArcMono(root, p, i - 1, i - 1);
      Dist2Nonneg(p[i], p[i - 1]);
    }
  }

  lemma ArcNext(root: real -> real, p: Polyline, i: nat)
    requires i < |p|
    ensures Arc(root, p, i) == if i == 0 then 0.0 else Arc(root, p, i - 1) + root(Dist2(p[i], p[i - 1]))
  {
  }

  /** The cumulative lengths of the plan's vertices. */
  method ArcLengths(root: real -> real, p: Polyline) returns (s: seq<real>)
    requires IsRoot(root) && |p| > 0
    ensures |s| == |p| && forall i :: 0 <= i < |p| ==> s[i] == Arc(root, p, i)
  {
    hide Dist2, Arc;
    s := [0.0];
    ArcNext(root, p, 0);
    for i := 1 to |p|
      invariant |s| == i && forall k :: 0 <= k < i ==> s[k] == Arc(root, p, k)
    {
      ArcNext(root, p, i);
      s := s + [s[i - 1] + root(Dist2(p[i], p[i - 1]))];
    }
  }

  ghost predicate IsArc(root: real -> real, p: Polyline, s: seq<real>) {
    IsRoot(root) && |p| > 0 && |s| == |p| && forall i :: 0 <= i < |p| ==> s[i] == Arc(root, p, i)
  }

  lemma ArcOrdered(root: real -> real, p: Polyline, s: seq<real>, i: nat, j: nat)
    requires IsArc(root, p, s) && i <= j < |p|
    ensures 0.0 <= s[i] <= s[j]
  {
    ArcMono(root, p, i, j);
  }

  /** From vertex to vertex the arc length grows by the length of the segment. */
  lemma ArcSteps(root: real -> real, p: Polyline, s: seq<real>, i: nat)
    requires IsArc(root, p, s) && i + 1 < |p|
    ensures s[0] == 0.0 && s[i + 1] >= s[i] && Square(s[i + 1] - s[i]) == Dist2(p[i], p[i + 1])
  {
    hide Dist2;
    Dist2Nonneg(p[i + 1], p[i]);
    assert s[i + 1] == s[i] + root(Dist2(p[i + 1], p[i]));
  }

  // ----- projection onto one segment

  function Len2(p: Polyline, i: nat): real
    requires i + 1 < |p|
  {
    Dist2(p[i + 1], p[i])
  }

  /** Where the foot of the robot falls on the line of a segment, times its squared length. */
  function Lean(p: Polyline, i: nat, c: Point): real
    requires i + 1 < |p|
  {
    Mul(c.x - p[i].x, p[i + 1].x - p[i].x) + Mul(c.y - p[i].y, p[i + 1].y - p[i].y)
  }

  function Foot(p: Polyline, i: nat, c: Point): (t: real)
    requires i + 1 < |p|
    ensures 0.0 <= t <= 1.0
  {
    if Len2(p, i) > DEGENERATE_LEN2 then
      var t := Lean(p, i, c) / Len2(p, i);
      if t < 0.0 then 0.0 else if t > 1.0 then 1.0 else t
    else 0.0
  }

  /** The squared distance to a point of a segment is a parabola in its parameter. */
  lemma Parabola(p: Polyline, i: nat, c: Point, t: real)
    requires i + 1 < |p|
    ensures Dist2(Along(p, i, t), c) == Dist2(p[i], c) - 2.0 * Mul(t, Lean(p, i, c)) + Mul(Square(t), Len2(p, i))
  {
    OneAxis(p[i].x, p[i + 1].x, c.x, t);
    OneAxis(p[i].y, p[i + 1].y, c.y, t);
    Collect(t, c.x - p[i].x, p[i + 1].x - p[i].x, c.y - p[i].y, p[i + 1].y - p[i].y);
  }

  lemma OneAxis(a: real, b: real, c: real, t: real)
    ensures Square(a + Mul(t, b - a) - c) == Square(a - c) - 2.0 * Mul(t, Mul(c - a, b - a)) + Mul(Square(t), Square(b - a))
  {
    var u, v := a - c, b - a;
    assert Square(u + Mul(t, v)) == Square(u) + 2.0 * Mul(t, Mul(u, v)) + Mul(Square(t), Square(v)) by { Binomial(u, v, t); }
    assert Mul(c - a, b - a) == -Mul(u, v);
    assert Mul(t, -Mul(u, v)) == -Mul(t, Mul(u, v));
  }

  lemma Binomial(u: real, v: real, t: real)
    ensures Square(u + Mul(t, v)) == Square(u) + 2.0 * Mul(t, Mul(u, v)) + Mul(Square(t), Square(v))
  {
  }

  lemma Collect(t: real, a: real, b: real, c: real, d: real)
    ensures Mul(t, Mul(a, b) + Mul(c, d)) == Mul(t, Mul(a, b)) + Mul(t, Mul(c, d))
    ensures Mul(Square(t), Square(b) + Square(d)) == Mul(Square(t), Square(b)) + Mul(Square(t), Square(d))
  {
  }

  /** A parabola over [0, 1] is lowest at the clamped vertex. */
  lemma ClampedVertex(lean: real, len2: real, t: real, u: real)
    requires len2 > 0.0 && 0.0 <= u <= 1.0
    requires t == (if lean / len2 < 0.0 then 0.0 else if lean / len2 > 1.0 then 1.0 else lean / len2)
    ensures -2.0 * Mul(t, lean) + Mul(Square(t), len2) <= -2.0 * Mul(u, lean) + Mul(Square(u), len2)
  {
    var v := lean / len2;
    Quotient(lean, len2);
    var a, b := (t - v) * (t - v), (u - v) * (u - v);
    assert a <= b by {
      if v < 0.0 { Wider(t - v, u - v); } else if v > 1.0 { Wider(v - t, v - u); } else { Wider(0.0, v - u); Wider(0.0, u - v); }
    }
    MonoProduct(len2, a, b);
    Expand(u, v, len2);
    Expand(t, v, len2);
  }

  lemma Quotient(lean: real, len2: real)
    requires len2 > 0.0
    ensures (lean / len2) * len2 == lean
  {
  }

  lemma Wider(a: real, b: real)
    ensures 0.0 <= a <= b ==> a * a <= b * b
  {
    if 0.0 <= a <= b {
      MonoProduct(a, a, b);
      MonoProduct(b, a, b);
    }
  }

  lemma Expand(u: real, v: real, len2: real)
    ensures (u - v) * (u - v) * len2 == -2.0 * Mul(u, v * len2) + Mul(Square(u), len2) + v * v * len2
  {
  }

  /** The foot is the nearest point of its segment: exactly, unless the segment is shorter
      than the degenerate length without being a single point. */
  lemma FootNearest(p: Polyline, i: nat, c: Point, u: real)
    requires i + 1 < |p| && 0.0 <= u <= 1.0 && (Len2(p, i) > DEGENERATE_LEN2 || Len2(p, i) == 0.0)
    ensures Dist2(Along(p, i, Foot(p, i, c)), c) <= Dist2(Along(p, i, u), c)
  {
    hide Dist2, Along, Lean, Len2;
    Parabola(p, i, c, u);
    Parabola(p, i, c, Foot(p, i, c));
    if Len2(p, i) == 0.0 {
      NoLean(p, i, c);
      Flat(u);
    } else {
      ClampedVertex(Lean(p, i, c), Len2(p, i), Foot(p, i, c), u);
    }
  }

  lemma Flat(u: real)
    ensures Mul(u, 0.0) == 0.0 && Mul(Square(u), 0.0) == 0.0 && Mul(0.0, 0.0) == 0.0
  {
  }

  lemma NoLean(p: Polyline, i: nat, c: Point)
    requires i + 1 < |p| && Len2(p, i) == 0.0
    ensures Lean(p, i, c) == 0.0
  {
    var ex, ey := p[i + 1].x - p[i].x, p[i + 1].y - p[i].y;
    NonnegSquare(ex);
    NonnegSquare(ey);
    ZeroSquare(ex);
    ZeroSquare(ey);
  }

  lemma ZeroSquare(v: real)
    requires Square(v) <= 0.0
    ensures v == 0.0
  {
    var w := -v;
    SquareOfNegative(v);
    if v > 0.0 { PositiveProduct(v, v); }
    if w > 0.0 { PositiveProduct(w, w); }
  }

  lemma SquareOfNegative(v: real)
    ensures Square(v) == v * v && Square(v) == Mul(v, v) && Mul(-v, -v) == Mul(v, v)
  {
  }

  /** A degenerate segment stays within the degenerate length of its start. */
  lemma FootOfDegenerate(p: Polyline, i: nat, c: Point, u: real)
    requires i + 1 < |p| && 0.0 <= u <= 1.0 && Len2(p, i) <= DEGENERATE_LEN2
    ensures Along(p, i, Foot(p, i, c)) == p[i] && Dist2(Along(p, i, u), p[i]) <= DEGENERATE_LEN2
  {
    Parabola(p, i, p[i], u);
    Shrinks(u, Len2(p, i));
    Flat(u);
    assert Dist2(p[i], p[i]) == 0.0;
    assert Lean(p, i, p[i]) == 0.0;
    Dist2Nonneg(p[i + 1], p[i]);
  }

  lemma Shrinks(u: real, a: real)
    requires 0.0 <= u <= 1.0
    ensures a >= 0.0 ==> Mul(Square(u), a) <= a
  {
    assert u * u <= 1.0 by { Wider(u, 1.0); }
    if a >= 0.0 { MonoProduct(a, u * u, 1.0); }
  }

  // ----- projection onto the plan

  /** A point of a segment is not nearer, up to the length under which a segment is treated
      as a point. */
  predicate Farther(p: Polyline, c: Point, at: Point, i: nat, u: real)
    requires i + 1 < |p|
  {
    if Len2(p, i) > DEGENERATE_LEN2 || Len2(p, i) == 0.0 then Dist2(at, c) <= Dist2(Along(p, i, u), c)
    else Dist2(at, c) <= Dist2(p[i], c) && Dist2(Along(p, i, u), p[i]) <= DEGENERATE_LEN2
  }

  /** No point of the plan from a segment on is nearer than this one. */
  ghost predicate Nearest(p: Polyline, from: nat, c: Point, at: Point) {
    forall i: nat, u: real :: from <= i && i + 1 < |p| && 0.0 <= u <= 1.0 ==> Farther(p, c, at, i, u)
  }

  /** The squared distance to the foot on a segment. */
  function Near2(p: Polyline, i: nat, c: Point): real
    requires i + 1 < |p|
  {
    Dist2(Along(p, i, Foot(p, i, c)), c)
  }

  lemma NearestFrom(p: Polyline, from: nat, c: Point, at: Point)
    requires forall i: nat {:trigger Near2(p, i, c)} :: from <= i && i + 1 < |p| ==> Dist2(at, c) <= Near2(p, i, c)
    ensures Nearest(p, from, c, at)
  {
    hide Dist2, Along, Foot, Len2;
    forall i: nat, u: real | from <= i && i + 1 < |p| && 0.0 <= u <= 1.0 ensures Farther(p, c, at, i, u) {
      assert Dist2(at, c) <= Near2(p, i, c);
      if Len2(p, i) > DEGENERATE_LEN2 || Len2(p, i) == 0.0 { FootNearest(p, i, c, u); } else { FootOfDegenerate(p, i, c, u); }
    }
  }

  /** The first nearest of the segments from `from` up to `upto`. */
  function Best(p: Polyline, from: nat, c: Point, upto: nat): (k: nat)
    requires from < upto < |p|
    ensures from <= k < upto
  {
    if upto == from + 1 then from
    else
      var k := Best(p, from, c, upto - 1);
      if Near2(p, upto - 1, c) < Near2(p, k, c) then upto - 1 else k
  }

  /** No segment is nearer, and every earlier one is farther. */
  lemma {:induction false} BestIsFirst(p: Polyline, from: nat, c: Point, upto: nat, i: nat)
    requires from <= i < upto < |p|
    ensures Near2(p, Best(p, from, c, upto), c) <= Near2(p, i, c)
    ensures i < Best(p, from, c, upto) ==> Near2(p, Best(p, from, c, upto), c) < Near2(p, i, c)
    decreases upto
  {
    hide Near2;
    if i < upto - 1 { BestIsFirst(p, from, c, upto - 1, i); }
  }

  /** Where the robot stands on the plan: a segment, the place on it, and its arc length. */
  datatype Place = Place(seg: nat, t: real, s0: real)

  function PointOf(p: Polyline, pl: Place): Point
    requires pl.seg < |p|
  {
    if pl.seg + 1 < |p| then Along(p, pl.seg, pl.t) else p[pl.seg]
  }

  /** The segment a projection from `from` on ends on; a plan tracked to its last vertex
      stays there. */
  function Segment(p: Polyline, from: nat, c: Point): (k: nat)
    requires from < |p|
    ensures from <= k < |p| && (from + 1 < |p| ==> k + 1 < |p|)
  {
    if from + 1 < |p| then Best(p, from, c, |p| - 1) else from
  }

  /** Project onto the segments from `from` on, keeping the first nearest one. */
  method Project(root: real -> real, p: Polyline, s: seq<real>, from: nat, c: Point) returns (pl: Place)
    requires IsArc(root, p, s) && from < |p|
    ensures pl.seg == Segment(p, from, c) && 0.0 <= pl.t <= 1.0 && (from + 1 < |p| ==> pl.t == Foot(p, pl.seg, c))
    ensures Nearest(p, from, c, PointOf(p, pl))
    ensures 0.0 <= s[pl.seg] <= pl.s0 <= s[|s| - 1] && (pl.seg + 1 < |p| ==> pl.s0 <= s[pl.seg + 1])
    ensures pl.seg + 1 < |p| ==> pl.s0 == s[pl.seg] + Mul(pl.t, s[pl.seg + 1] - s[pl.seg])
  {
    hide Dist2, Along, Foot, IsArc, Nearest;
    var best, bestT := from, 0.0;
    var bestD2 := 0.0;
    for i := from to |p| - 1
      invariant i == from ==> best == from && bestT == 0.0
      invariant i > from ==> best == Best(p, from, c, i) && bestT == Foot(p, best, c) && bestD2 == Near2(p, best, c)
    {
      var t := Foot(p, i, c);
      var d2 := Dist2(Along(p, i, t), c);
      if i == from || d2 < bestD2 {
        bestD2, best, bestT := d2, i, t;
      }
    }
    PlaceOrdered(root, p, s, best, bestT);
    var s0 := if best + 1 < |p| then s[best] + Mul(bestT, s[best + 1] - s[best]) else s[best];
    pl := Place(best, bestT, s0);
    forall i: nat {:trigger Near2(p, i, c)} | from <= i && i + 1 < |p| ensures Dist2(PointOf(p, pl), c) <= Near2(p, i, c) {
      BestIsFirst(p, from, c, |p| - 1, i);
    }
    NearestFrom(p, from, c, PointOf(p, pl));
  }

  // ----- getting past a vertex

  /** A parameter the projection may stop at: a segment too short to project onto counts as
      its start. */
  predicate Stop(p: Polyline, i: nat, u: real)
    requires i + 1 < |p|
  {
    0.0 <= u <= 1.0 && (Len2(p, i) > DEGENERATE_LEN2 || u == 0.0)
  }

  ghost predicate OnLeg(p: Polyline, i: nat, q: Point)
    requires i + 1 < |p|
  {
    exists u: real :: Stop(p, i, u) && Along(p, i, u) == q
  }

  /** The foot is on its segment, and nothing on the segment is nearer. */
  lemma FootOnLeg(p: Polyline, i: nat, c: Point)
    requires i + 1 < |p|
    ensures OnLeg(p, i, Along(p, i, Foot(p, i, c)))
    ensures forall q: Point {:trigger OnLeg(p, i, q)} :: OnLeg(p, i, q) ==> Near2(p, i, c) <= Dist2(q, c)
  {
    hide Dist2, Along, Len2;
    assert Stop(p, i, Foot(p, i, c));
    forall q: Point {:trigger OnLeg(p, i, q)} | OnLeg(p, i, q) ensures Near2(p, i, c) <= Dist2(q, c) {
      var u: real :| Stop(p, i, u) && Along(p, i, u) == q;
      if Len2(p, i) > DEGENERATE_LEN2 { FootNearest(p, i, c, u); }
    }
  }

  /** A projection passes a vertex exactly when some later segment is strictly nearer than
      every segment left before the vertex: a tie keeps the earlier one. */
  lemma PassesIff(p: Polyline, from: nat, c: Point, v: nat)
    requires from < v && v + 1 < |p|
    ensures Segment(p, from, c) >= v <==> exists i: nat :: v <= i && i + 1 < |p| && Nearer(p, from, c, v, i)
  {
    hide Near2, Best;
    var k := Best(p, from, c, |p| - 1);
    if k >= v {
      forall j | from <= j < v ensures Near2(p, k, c) < Near2(p, j, c) { BestIsFirst(p, from, c, |p| - 1, j); }
      assert Nearer(p, from, c, v, k);
    } else {
      forall i: nat | v <= i && i + 1 < |p| ensures !Nearer(p, from, c, v, i) { BestIsFirst(p, from, c, |p| - 1, i); }
    }
  }

  predicate Nearer(p: Polyline, from: nat, c: Point, v: nat, i: nat)
    requires v < |p| && i + 1 < |p|
  {
    forall j :: from <= j < v ==> Near2(p, i, c) < Near2(p, j, c)
  }

  /** There is somewhere the robot can stand for the projection to pass a vertex if and only
      if a later segment has a point that none of the segments left before the vertex has.
      A leg that is driven back over the one before it has no such point. */
  lemma PassableIff(p: Polyline, from: nat, v: nat)
    requires from < v && v + 1 < |p|
    ensures (exists c: Point :: Segment(p, from, c) >= v) <==> exists i: nat, q: Point :: Leaves(p, from, v, i, q)
  {
    hide Near2, Best, Along, Dist2, OnLeg, Segment;
    if exists c: Point :: Segment(p, from, c) >= v {
      var c: Point :| Segment(p, from, c) >= v;
      PassesIff(p, from, c, v);
      var i: nat :| v <= i && i + 1 < |p| && Nearer(p, from, c, v, i);
      FootLeaves(p, from, c, v, i);
    }
    if exists i: nat, q: Point :: Leaves(p, from, v, i, q) {
      var i: nat, q: Point :| Leaves(p, from, v, i, q);
      StandingOff(p, from, v, i, q);
      PassesIff(p, from, q, v);
      assert Segment(p, from, q) >= v;
    }
  }

  /** A point of a later segment that is on none of those from `from` up to the vertex. */
  ghost predicate Leaves(p: Polyline, from: nat, v: nat, i: nat, q: Point)
    requires v < |p|
  {
    v <= i && i + 1 < |p| && OnLeg(p, i, q) && forall j :: from <= j < v ==> !OnLeg(p, j, q)
  }

  lemma FootLeaves(p: Polyline, from: nat, c: Point, v: nat, i: nat)
    requires from < v <= i && i + 1 < |p| && Nearer(p, from, c, v, i)
    ensures Leaves(p, from, v, i, Along(p, i, Foot(p, i, c)))
  {
    hide Along, Dist2, OnLeg, Foot;
    FootOnLeg(p, i, c);
    forall j | from <= j < v ensures !OnLeg(p, j, Along(p, i, Foot(p, i, c))) { FootOnLeg(p, j, c); }
  }

  lemma StandingOff(p: Polyline, from: nat, v: nat, i: nat, q: Point)
    requires from < v && v < |p| && Leaves(p, from, v, i, q)
    ensures Nearer(p, from, q, v, i)
  {
    hide Along, OnLeg, Foot;
    FootOnLeg(p, i, q);
    forall j | from <= j < v ensures Near2(p, i, q) < Near2(p, j, q) {
      FootOnLeg(p, j, q);
      Apart(Along(p, j, Foot(p, j, q)), q);
    }
  }

  /** Only a point itself is at no distance from it. */
  lemma Apart(a: Point, b: Point)
    ensures Dist2(a, b) >= 0.0 && (Dist2(a, b) <= 0.0 <==> a == b)
  {
    var x, y := a.x - b.x, a.y - b.y;
    NonnegSquare(x);
    NonnegSquare(y);
    if Square(x) + Square(y) <= 0.0 {
      ZeroSquare(x);
      ZeroSquare(y);
    }
  }

  lemma NonnegSquare(v: real)
    ensures Square(v) >= 0.0 && (v == 0.0 ==> Square(v) == 0.0)
  {
    if v >= 0.0 { NonnegProduct(v, v); } else { NonnegProduct(-v, -v); SquareOfNegative(v); }
  }

  lemma PlaceOrdered(root: real -> real, p: Polyline, s: seq<real>, i: nat, t: real)
    requires IsArc(root, p, s) && i < |p| && 0.0 <= t <= 1.0
    ensures |s| == |p| && 0.0 <= s[i] <= s[|s| - 1]
    ensures i + 1 < |p| ==> s[i] <= s[i] + Mul(t, s[i + 1] - s[i]) <= s[i + 1] <= s[|s| - 1]
  {
    ArcOrdered(root, p, s, i, |p| - 1);
    if i + 1 < |p| {
      ArcOrdered(root, p, s, i, i + 1);
      ArcOrdered(root, p, s, i + 1, |p| - 1);
      Between(t, s[i + 1] - s[i]);
    }
  }

  lemma Between(t: real, d: real)
    requires 0.0 <= t <= 1.0 && d >= 0.0
    ensures 0.0 <= Mul(t, d) <= d
  {
    FractionProduct(t, d);
  }

  // ----- sampling

  /** A point of the plan at an arc length. */
  ghost predicate AtArc(p: Polyline, s: seq<real>, v: real, q: Point)
    requires |s| == |p|
  {
    exists i: nat, t: real :: AtArcBy(p, s, v, q, i, t)
  }

  predicate AtArcBy(p: Polyline, s: seq<real>, v: real, q: Point, i: nat, t: real)
    requires |s| == |p|
  {
    i + 1 < |p| && 0.0 <= t <= 1.0 && v == s[i] + Mul(t, s[i + 1] - s[i]) && q == Along(p, i, t)
  }

  /** The reference at an arc length, held at the end of the plan and never past `sEnd`. */
  method Sample(root: real -> real, p: Polyline, s: seq<real>, sEnd: real, at: real) returns (q: Point, ghost v: real)
    requires IsArc(root, p, s) && 0.0 <= sEnd <= s[|s| - 1]
    ensures var want := if at <= 0.0 then 0.0 else if at > sEnd then sEnd else at;
            && want - DEGENERATE_LEN <= v <= want
            && (if |p| == 1 then q == p[0] && v == want else AtArc(p, s, v, q))
            && (want == s[|s| - 1] ==> q == p[|p| - 1] && v == want)
  {
    hide Along, IsArc, Dist2;
    ArcStart(root, p, s);
    var sk := if at <= 0.0 then 0.0 else at;
    if sk > sEnd { sk := sEnd; }
    var last := |p| - 1;
    if sk >= s[last] || |p| < 2 {
      if |p| >= 2 {
        AlongEnds(p, last - 1);
        assert AtArcBy(p, s, s[last], p[last], last - 1, 1.0);
      }
      return p[last], sk;
    }
    var i := 0;
    while i + 1 < |p| && !(s[i] <= sk <= s[i + 1])
      invariant 0 <= i < |p| && s[i] <= sk
      decreases |p| - i
    {
      i := i + 1;
    }
    var seg := s[i + 1] - s[i];
    var t := if seg > DEGENERATE_LEN then (sk - s[i]) / seg else 0.0;
    q := Along(p, i, t);
    v := s[i] + Mul(t, seg);
    Share(sk - s[i], seg);
    assert AtArcBy(p, s, v, q, i, t);
  }

  lemma ArcStart(root: real -> real, p: Polyline, s: seq<real>)
    requires IsArc(root, p, s)
    ensures |s| == |p| > 0 && s[0] == 0.0
  {
  }

  lemma AlongEnds(p: Polyline, i: nat)
    requires i + 1 < |p|
    ensures Along(p, i, 1.0) == p[i + 1] && Along(p, i, 0.0) == p[i] && forall d: real {:trigger Mul(1.0, d)} :: Mul(1.0, d) == d
  {
  }

  lemma Share(a: real, seg: real)
    requires 0.0 <= a <= seg
    ensures seg > DEGENERATE_LEN ==> 0.0 <= a / seg <= 1.0 && Mul(a / seg, seg) == a
    ensures Mul(0.0, seg) == 0.0
  {
    if seg > DEGENERATE_LEN {
      var q := a / seg;
      assert q * seg == a;
      if q > 1.0 { assert (q - 1.0) * seg > 0.0; }
    }
  }
}
