/** Scan clustering: a linear sweep over bearing-ordered returns plus a seam splice. */
module Clustering {
  import opened Basics

  datatype Cluster = Cluster(x: real, y: real, radius: real, count: nat)

  /** A segment [begin, end) of the sweep. */
  datatype Segment = Segment(begin: nat, end: nat)

  /** What is closed as one cluster: up to two index ranges, the second one empty unless
      the pair was spliced across the seam. */
  datatype Group = Group(b1: nat, e1: nat, b2: nat, e2: nat)

  datatype Limits = Limits(minPoints: nat, maxRadius: real)

  predicate Near(p: Point, q: Point, gap2: real) {
    Dist2(p, q) <= gap2
  }

  // ----- the sweep

  /** The segments of the sweep from index i on. */
  function SegmentsFrom(ps: seq<Point>, gap2: real, i: nat): (s: seq<Segment>)
    requires i < |ps|
    ensures |s| > 0 && s[0].begin == i && s[0].begin < s[0].end
    decreases |ps| - i
  {
    if i + 1 == |ps| then [Segment(i, i + 1)]
    else
      var rest := SegmentsFrom(ps, gap2, i + 1);
      if Near(ps[i + 1], ps[i], gap2) then Extended(i, rest)
      else [Segment(i, i + 1)] + rest
  }

  predicate Wraps(ps: seq<Point>, gap2: real)
    requires ps != []
  {
    |SegmentsFrom(ps, gap2, 0)| >= 2 && Near(ps[0], ps[|ps| - 1], gap2)
  }

  /** The groups that are closed, in the order in which they are closed. */
  function Groups(ps: seq<Point>, gap2: real): (g: seq<Group>)
    requires ps != []
    ensures |g| == |SegmentsFrom(ps, gap2, 0)| - (if Wraps(ps, gap2) then 1 else 0)
  {
    var s := SegmentsFrom(ps, gap2, 0);
    seq(if Wraps(ps, gap2) then |s| - 1 else |s|, k requires 0 <= k < |s| => GroupAt(ps, gap2, s, k))
  }

  function GroupAt(ps: seq<Point>, gap2: real, s: seq<Segment>, k: nat): Group
    requires ps != [] && k < |s|
  {
    if k == 0 && Wraps(ps, gap2) then Group(s[|s| - 1].begin, s[|s| - 1].end, s[0].begin, s[0].end)
    else Group(s[k].begin, s[k].end, 0, 0)
  }

  // ----- one cluster

  predicate GroupFits(g: Group, n: nat) {
    g.b1 < g.e1 <= n && g.b2 <= g.e2 <= n
  }

  function Members(ps: seq<Point>, g: Group): seq<Point>
    requires GroupFits(g, |ps|)
  {
    ps[g.b1..g.e1] + ps[g.b2..g.e2]
  }

  function SumX(ps: seq<Point>): real { if ps == [] then 0.0 else SumX(ps[..|ps| - 1]) + ps[|ps| - 1].x }
  function SumY(ps: seq<Point>): real { if ps == [] then 0.0 else SumY(ps[..|ps| - 1]) + ps[|ps| - 1].y }

  /** The largest squared distance to c, zero when there are no points. */
  function Spread(ps: seq<Point>, c: Point): (r: real)
    ensures r >= 0.0
  {
    if ps == [] then 0.0 else Max(Spread(ps[..|ps| - 1], c), Dist2(ps[|ps| - 1], c))
  }

  function Centroid(ps: seq<Point>): Point
    requires ps != []
  {
    Point(SumX(ps) / |ps| as real, SumY(ps) / |ps| as real)
  }

  /** The cluster of a group of members, unless it is too small or too wide. */
  function Close(ps: seq<Point>, lim: Limits, sqrt: real -> real): Option<Cluster>
    requires ps != []
  {
    var c := Centroid(ps);
    var r := sqrt(Spread(ps, c));
    if |ps| < lim.minPoints || (lim.maxRadius > 0.0 && r > lim.maxRadius) then None
    else Some(Cluster(c.x, c.y, r, |ps|))
  }

  /** The clusters of all groups, before the cap. */
  function CloseAll(blocks: seq<seq<Point>>, lim: Limits, sqrt: real -> real): seq<Cluster>
    requires forall k :: 0 <= k < |blocks| ==> blocks[k] != []
  {
    if blocks == [] then [] else
      var r := Close(blocks[|blocks| - 1], lim, sqrt);
      CloseAll(blocks[..|blocks| - 1], lim, sqrt) + (if r.Some? then [r.value] else [])
  }

  function Blocks(ps: seq<Point>, gap2: real): (b: seq<seq<Point>>)
    requires ps != []
    ensures forall k :: 0 <= k < |b| ==> b[k] != []
  {
    GroupsFit(ps, gap2);
    var g := Groups(ps, gap2);
    seq(|g|, k requires 0 <= k < |g| => Members(ps, g[k]))
  }

  function Uncapped(ps: seq<Point>, gap2: real, lim: Limits, sqrt: real -> real): seq<Cluster> {
    if ps == [] then [] else CloseAll(Blocks(ps, gap2), lim, sqrt)
  }

  lemma {:induction false} SpreadAttained(ps: seq<Point>, c: Point) returns (at: nat)
    requires ps != []
    ensures forall k :: 0 <= k < |ps| ==> Dist2(ps[k], c) <= Spread(ps, c)
    ensures at < |ps| && Dist2(ps[at], c) == Spread(ps, c)
  {
    var n := |ps| - 1;
    assert Dist2(ps[n], c) >= 0.0 by { Squares(ps[n], c); }
    hide Dist2;
    if n == 0 {
      assert ps[..n] == [];
      at := 0;
    } else {
      at := SpreadAttained(ps[..n], c);
      assert forall k :: 0 <= k < n ==> ps[..n][k] == ps[k];
      if Dist2(ps[at], c) < Dist2(ps[n], c) { at := n; }
    }
  }

  lemma Squares(p: Point, q: Point)
    ensures Dist2(p, q) >= 0.0
  {
    assert (p.x - q.x) * (p.x - q.x) >= 0.0;
    assert (p.y - q.y) * (p.y - q.y) >= 0.0;
  }

  /** An emitted cluster sits at the mean of its members and its radius is the least one
      that encloses them all; it is emitted exactly when it is neither too small nor, with
      a radius limit set, too wide. */
  lemma ClusterEncloses(ps: seq<Point>, lim: Limits, sqrt: real -> real)
    requires ps != [] && IsRoot(sqrt)
    ensures var c, r := Close(ps, lim, sqrt), sqrt(Spread(ps, Centroid(ps)));
            && (c.Some? <==> |ps| >= lim.minPoints && (lim.maxRadius <= 0.0 || r <= lim.maxRadius))
            && (c.Some? ==>
                  var v := c.value;
                  && v.count == |ps| && v.x * |ps| as real == SumX(ps) && v.y * |ps| as real == SumY(ps)
                  && v.radius >= 0.0
                  && (forall k :: 0 <= k < |ps| ==> Dist2(ps[k], Point(v.x, v.y)) <= v.radius * v.radius)
                  && exists k :: 0 <= k < |ps| && Dist2(ps[k], Point(v.x, v.y)) == v.radius * v.radius)
  {
    hide Dist2, Spread, SumX, SumY, Centroid;
    var c := Centroid(ps);
    CentroidMean(ps);
    var at := SpreadAttained(ps, c);
    RootOf(sqrt, Spread(ps, c));
  }

  lemma CentroidMean(ps: seq<Point>)
    requires ps != []
    ensures Centroid(ps).x * |ps| as real == SumX(ps) && Centroid(ps).y * |ps| as real == SumY(ps)
  {
  }

  lemma RootOf(sqrt: real -> real, v: real)
    requires IsRoot(sqrt) && v >= 0.0
    ensures sqrt(v) >= 0.0 && sqrt(v) * sqrt(v) == v
  {
  }

  // ----- the shape of the segmentation

  /** Consecutive, non-empty, and cut exactly where consecutive points are not near. */
  ghost predicate Chain(ps: seq<Point>, gap2: real, s: seq<Segment>, i: nat) {
    && |s| > 0 && s[0].begin == i && s[|s| - 1].end == |ps|
    && (forall k :: 0 <= k < |s| ==> s[k].begin < s[k].end <= |ps|)
    && (forall k :: 0 <= k < |s| - 1 ==> Meets(s, k))
    && (forall k :: 0 <= k < |s| ==> Linked(ps, gap2, s[k]))
    && (forall k :: 0 < k < |s| ==> CutAt(ps, gap2, s[k].begin))
  }

  predicate Meets(s: seq<Segment>, k: nat)
    requires k + 1 < |s|
  {
    s[k].end == s[k + 1].begin
  }

  /** No gap inside a segment. */
  ghost predicate Linked(ps: seq<Point>, gap2: real, seg: Segment)
    requires seg.end <= |ps|
  {
    forall j :: seg.begin < j < seg.end ==> Near(ps[j], ps[j - 1], gap2)
  }

  predicate CutAt(ps: seq<Point>, gap2: real, i: nat)
    requires i < |ps|
  {
    0 < i && !Near(ps[i], ps[i - 1], gap2)
  }

  lemma {:induction false} SegmentsChain(ps: seq<Point>, gap2: real, i: nat)
    requires i < |ps|
    ensures Chain(ps, gap2, SegmentsFrom(ps, gap2, i), i)
    decreases |ps| - i
  {
    if i + 1 < |ps| {
      SegmentsChain(ps, gap2, i + 1);
      var rest := SegmentsFrom(ps, gap2, i + 1);
      if Near(ps[i + 1], ps[i], gap2) {
        ChainGrow(ps, gap2, rest, i);
      } else {
        ChainCut(ps, gap2, rest, i);
      }
    }
  }

  lemma ChainGrow(ps: seq<Point>, gap2: real, rest: seq<Segment>, i: nat)
    requires i + 1 < |ps| && Chain(ps, gap2, rest, i + 1) && Near(ps[i + 1], ps[i], gap2)
    ensures Chain(ps, gap2, Extended(i, rest), i)
  {
    hide Near, Extended;
    var s := Extended(i, rest);
    assert Linked(ps, gap2, rest[0]);
    assert Linked(ps, gap2, s[0]) by {
      forall j | i < j < rest[0].end ensures Near(ps[j], ps[j - 1], gap2) {
        assert j == i + 1 || rest[0].begin < j < rest[0].end;
      }
    }
    forall k | 0 < k < |s|
      ensures s[k] == rest[k] && Linked(ps, gap2, s[k]) && CutAt(ps, gap2, s[k].begin)
    {
    }
    forall k | 0 <= k < |s| - 1 ensures Meets(s, k) {
      assert Meets(rest, k);
    }
  }

  lemma ChainCut(ps: seq<Point>, gap2: real, rest: seq<Segment>, i: nat)
    requires i + 1 < |ps| && Chain(ps, gap2, rest, i + 1) && !Near(ps[i + 1], ps[i], gap2)
    ensures Chain(ps, gap2, [Segment(i, i + 1)] + rest, i)
  {
    hide Near;
    var s := [Segment(i, i + 1)] + rest;
    assert CutAt(ps, gap2, i + 1);
    forall k | 0 < k < |s|
      ensures s[k] == rest[k - 1] && Linked(ps, gap2, s[k]) && CutAt(ps, gap2, s[k].begin)
    {
    }
    forall k | 0 <= k < |s| - 1 ensures Meets(s, k) {
      if k > 0 { assert Meets(rest, k - 1); }
    }
  }

  lemma GroupsFit(ps: seq<Point>, gap2: real)
    requires ps != []
    ensures forall k :: 0 <= k < |Groups(ps, gap2)| ==> GroupFits(Groups(ps, gap2)[k], |ps|)
  {
    SegmentsChain(ps, gap2, 0);
  }

  // ----- connected components of the cyclic adjacency graph

  predicate InGroup(g: Group, i: nat) {
    g.b1 <= i < g.e1 || g.b2 <= i < g.e2
  }

  /** Indices next to each other on the cycle whose points are near. */
  predicate Adjacent(ps: seq<Point>, gap2: real, i: nat, j: nat)
    requires i < |ps| && j < |ps|
  {
    (j == (i + 1) % |ps| || i == (j + 1) % |ps|) && Near(ps[i], ps[j], gap2)
  }

  ghost predicate IsPath(ps: seq<Point>, gap2: real, path: seq<nat>) {
    && path != [] && (forall k :: 0 <= k < |path| ==> path[k] < |ps|)
    && forall k :: 0 <= k < |path| - 1 ==> Adjacent(ps, gap2, path[k], path[k + 1])
  }

  ghost predicate Connected(ps: seq<Point>, gap2: real, i: nat, j: nat) {
    exists path :: IsPath(ps, gap2, path) && path[0] == i && path[|path| - 1] == j
  }

  lemma {:induction false} SegmentOf(ps: seq<Point>, gap2: real, s: seq<Segment>, b: nat, i: nat) returns (k: nat)
    requires Chain(ps, gap2, s, b) && b <= i < |ps|
    ensures k < |s| && s[k].begin <= i < s[k].end
  {
    k := |s| - 1;
    while s[k].begin > i
      invariant k < |s| && i < s[k].end
    {
      k := k - 1;
      assert Meets(s, k);
    }
  }

  lemma {:induction false} SegmentsOrdered(ps: seq<Point>, gap2: real, s: seq<Segment>, b: nat, k: nat, l: nat)
    requires Chain(ps, gap2, s, b) && k < l < |s|
    ensures s[k].end <= s[l].begin
  {
    assert Meets(s, l - 1);
    if k + 1 < l { SegmentsOrdered(ps, gap2, s, b, k, l - 1); }
  }

  lemma SegmentUnique(ps: seq<Point>, gap2: real, s: seq<Segment>, b: nat, k: nat, l: nat, i: nat)
    requires Chain(ps, gap2, s, b) && k < |s| && l < |s|
    requires s[k].begin <= i < s[k].end && s[l].begin <= i < s[l].end
    ensures k == l
  {
    if k < l { SegmentsOrdered(ps, gap2, s, b, k, l); }
    if l < k { SegmentsOrdered(ps, gap2, s, b, l, k); }
  }

  /** Every index lies in exactly one group: the one its segment was closed in. */
  lemma GroupOf(ps: seq<Point>, gap2: real, i: nat) returns (m: nat, k: nat)
    requires i < |ps|
    ensures var s, g := SegmentsFrom(ps, gap2, 0), Groups(ps, gap2);
            && m < |s| && s[m].begin <= i < s[m].end
            && k < |g| && k == (if m == |g| then 0 else m)
            && InGroup(g[k], i)
            && forall l :: 0 <= l < |g| && InGroup(g[l], i) ==> l == k
  {
    hide Near, SegmentsFrom;
    var s, g := SegmentsFrom(ps, gap2, 0), Groups(ps, gap2);
    SegmentsChain(ps, gap2, 0);
    m := SegmentOf(ps, gap2, s, 0, i);
    k := if m == |g| then 0 else m;
    forall l | 0 <= l < |g| && InGroup(g[l], i) ensures l == k {
      GroupSegment(ps, gap2, s, i, m, l);
    }
  }

  lemma GroupSegment(ps: seq<Point>, gap2: real, s: seq<Segment>, i: nat, m: nat, l: nat)
    requires i < |ps| && s == SegmentsFrom(ps, gap2, 0) && Chain(ps, gap2, s, 0)
    requires m < |s| && s[m].begin <= i < s[m].end && l < |Groups(ps, gap2)| && InGroup(Groups(ps, gap2)[l], i)
    ensures l == if m == |Groups(ps, gap2)| then 0 else m
  {
    hide Near, SegmentsFrom;
    var t := if l == 0 && Wraps(ps, gap2) && s[|s| - 1].begin <= i then |s| - 1 else l;
    SegmentUnique(ps, gap2, s, 0, m, t, i);
  }

  lemma NearComm(p: Point, q: Point, gap2: real)
    ensures Near(p, q, gap2) == Near(q, p, gap2)
  {
    assert (p.x - q.x) * (p.x - q.x) == (q.x - p.x) * (q.x - p.x);
    assert (p.y - q.y) * (p.y - q.y) == (q.y - p.y) * (q.y - p.y);
  }

  /** Consecutive near points lie in one segment. */
  lemma SameSegment(ps: seq<Point>, gap2: real, s: seq<Segment>, i: nat, m: nat, l: nat)
    requires i + 1 < |ps| && Chain(ps, gap2, s, 0) && Near(ps[i + 1], ps[i], gap2) && m < |s| && l < |s|
    requires s[m].begin <= i < s[m].end && s[l].begin <= i + 1 < s[l].end
    ensures m == l
  {
    if s[m].end < |ps| { SegmentEnds(ps, gap2, s, m); }
    SegmentUnique(ps, gap2, s, 0, m, l, i + 1);
  }

  lemma SegmentEnds(ps: seq<Point>, gap2: real, s: seq<Segment>, m: nat)
    requires Chain(ps, gap2, s, 0) && m < |s| && s[m].end < |ps|
    ensures CutAt(ps, gap2, s[m].end)
  {
    assert Meets(s, m);
  }

  /** Adjacent indices share their group. */
  lemma AdjacentShare(ps: seq<Point>, gap2: real, i: nat, j: nat, g: Group)
    requires i < |ps| && j < |ps| && Adjacent(ps, gap2, i, j) && g in Groups(ps, gap2)
    ensures InGroup(g, i) == InGroup(g, j)
  {
    hide Near, SegmentsFrom;
    var s, n := SegmentsFrom(ps, gap2, 0), |ps|;
    SegmentsChain(ps, gap2, 0);
    NearComm(ps[i], ps[j], gap2);
    var m, k := GroupOf(ps, gap2, i);
    var l, k' := GroupOf(ps, gap2, j);
    NextIndex(i, n);
    NextIndex(j, n);
    if i + 1 == j {
      SameSegment(ps, gap2, s, i, m, l);
    } else if j + 1 == i {
      SameSegment(ps, gap2, s, j, l, m);
    } else if i == 0 && j == n - 1 {
      SeamSegments(ps, gap2, s, m, l);
    } else if j == 0 && i == n - 1 {
      SeamSegments(ps, gap2, s, l, m);
    }
    assert k == k';
  }

  lemma SeamSegments(ps: seq<Point>, gap2: real, s: seq<Segment>, m: nat, l: nat)
    requires ps != [] && Chain(ps, gap2, s, 0) && m < |s| && l < |s|
    requires s[m].begin <= 0 < s[m].end && s[l].begin <= |ps| - 1 < s[l].end
    ensures m == 0 && l == |s| - 1
  {
    SegmentUnique(ps, gap2, s, 0, m, 0, 0);
    SegmentUnique(ps, gap2, s, 0, l, |s| - 1, |ps| - 1);
  }

  lemma NextIndex(i: nat, n: nat)
    requires i < n
    ensures (i + 1) % n == if i + 1 == n then 0 else i + 1
  {
  }

  lemma {:induction false} PathStays(ps: seq<Point>, gap2: real, path: seq<nat>, g: Group)
    requires ps != [] && IsPath(ps, gap2, path) && g in Groups(ps, gap2) && InGroup(g, path[0])
    ensures InGroup(g, path[|path| - 1])
  {
    if |path| > 1 {
      AdjacentShare(ps, gap2, path[0], path[1], g);
      forall k | 0 <= k < |path[1..]| - 1 ensures Adjacent(ps, gap2, path[1..][k], path[1..][k + 1]) {
        assert Adjacent(ps, gap2, path[k + 1], path[k + 1 + 1]);
      }
      PathStays(ps, gap2, path[1..], g);
    }
  }

  lemma ConnectedJoin(ps: seq<Point>, gap2: real, i: nat, j: nat, l: nat)
    requires Connected(ps, gap2, i, j) && Connected(ps, gap2, j, l)
    ensures Connected(ps, gap2, i, l)
  {
    var p :| IsPath(ps, gap2, p) && p[0] == i && p[|p| - 1] == j;
    var q :| IsPath(ps, gap2, q) && q[0] == j && q[|q| - 1] == l;
    var r := p + q[1..];
    forall k | 0 <= k < |r| - 1 ensures Adjacent(ps, gap2, r[k], r[k + 1]) {
      if k < |p| - 1 { assert Adjacent(ps, gap2, p[k], p[k + 1]); }
      else { assert Adjacent(ps, gap2, q[k - |p| + 1], q[k - |p| + 2]); }
    }
    assert IsPath(ps, gap2, r);
  }

  lemma ConnectedStep(ps: seq<Point>, gap2: real, i: nat, j: nat)
    requires i < |ps| && j < |ps| && (i == j || Adjacent(ps, gap2, i, j))
    ensures Connected(ps, gap2, i, j) && Connected(ps, gap2, j, i)
  {
    if i == j {
      assert IsPath(ps, gap2, [i]);
    } else {
      NearComm(ps[i], ps[j], gap2);
      assert IsPath(ps, gap2, [i, j]) && IsPath(ps, gap2, [j, i]);
    }
  }

  /** Inside one segment all indices are connected. */
  lemma {:induction false} SegmentConnected(ps: seq<Point>, gap2: real, s: seq<Segment>, k: nat, i: nat, j: nat)
    requires Chain(ps, gap2, s, 0) && k < |s| && s[k].begin <= i <= j < s[k].end
    ensures Connected(ps, gap2, i, j) && Connected(ps, gap2, j, i)
    decreases j
  {
    if i == j {
      ConnectedStep(ps, gap2, i, i);
    } else {
      SegmentConnected(ps, gap2, s, k, i, j - 1);
      NextIndex(j - 1, |ps|);
      assert Linked(ps, gap2, s[k]);
      NearComm(ps[j], ps[j - 1], gap2);
      ConnectedStep(ps, gap2, j - 1, j);
      ConnectedJoin(ps, gap2, i, j - 1, j);
      ConnectedJoin(ps, gap2, j, j - 1, i);
    }
  }

  lemma SegmentPair(ps: seq<Point>, gap2: real, s: seq<Segment>, k: nat, i: nat, j: nat)
    requires Chain(ps, gap2, s, 0) && k < |s| && s[k].begin <= i < s[k].end && s[k].begin <= j < s[k].end
    ensures Connected(ps, gap2, i, j)
  {
    SegmentConnected(ps, gap2, s, k, if i <= j then i else j, if i <= j then j else i);
  }

  /** A leading and a trailing return are connected through the seam. */
  lemma SeamConnected(ps: seq<Point>, gap2: real, s: seq<Segment>, i: nat, j: nat)
    requires ps != [] && Wraps(ps, gap2) && s == SegmentsFrom(ps, gap2, 0) && Chain(ps, gap2, s, 0)
    requires i < s[0].end && s[|s| - 1].begin <= j < |ps|
    ensures Connected(ps, gap2, i, j) && Connected(ps, gap2, j, i)
  {
    var z := |ps| - 1;
    SegmentPair(ps, gap2, s, 0, i, 0);
    SegmentPair(ps, gap2, s, 0, 0, i);
    SegmentPair(ps, gap2, s, |s| - 1, z, j);
    SegmentPair(ps, gap2, s, |s| - 1, j, z);
    NextIndex(z, |ps|);
    ConnectedStep(ps, gap2, 0, z);
    ConnectedJoin(ps, gap2, i, 0, z);
    ConnectedJoin(ps, gap2, i, z, j);
    ConnectedJoin(ps, gap2, j, z, 0);
    ConnectedJoin(ps, gap2, j, 0, i);
  }

  lemma ShareConnected(ps: seq<Point>, gap2: real, i: nat, j: nat, g: Group)
    requires i < |ps| && j < |ps| && g in Groups(ps, gap2) && InGroup(g, i) && InGroup(g, j)
    ensures Connected(ps, gap2, i, j)
  {
    var s := SegmentsFrom(ps, gap2, 0);
    SegmentsChain(ps, gap2, 0);
    var m, k := GroupOf(ps, gap2, i);
    var l, k' := GroupOf(ps, gap2, j);
    assert k == k';
    if m == l {
      SegmentPair(ps, gap2, s, m, i, j);
    } else if m == 0 {
      SeamConnected(ps, gap2, s, i, j);
    } else {
      SeamConnected(ps, gap2, s, j, i);
    }
  }

  /** The groups are exactly the connected components of the cyclic graph that joins
      neighbouring returns within the gap: each return lies in exactly one group, and
      two returns share a group if and only if a chain of near neighbours joins them. */
  lemma GroupsAreComponents(ps: seq<Point>, gap2: real, i: nat, j: nat)
    requires i < |ps| && j < |ps|
    ensures exists k :: 0 <= k < |Groups(ps, gap2)| && InGroup(Groups(ps, gap2)[k], i)
    ensures forall k, l :: 0 <= k < l < |Groups(ps, gap2)| && InGroup(Groups(ps, gap2)[k], i) ==> !InGroup(Groups(ps, gap2)[l], i)
    ensures Connected(ps, gap2, i, j) <==> exists g :: g in Groups(ps, gap2) && InGroup(g, i) && InGroup(g, j)
  {
    var m, k := GroupOf(ps, gap2, i);
    var g := Groups(ps, gap2)[k];
    if Connected(ps, gap2, i, j) {
      var path :| IsPath(ps, gap2, path) && path[0] == i && path[|path| - 1] == j;
      PathStays(ps, gap2, path, g);
      assert g in Groups(ps, gap2) && InGroup(g, i) && InGroup(g, j);
    }
    forall h | h in Groups(ps, gap2) && InGroup(h, i) && InGroup(h, j) ensures Connected(ps, gap2, i, j) {
      ShareConnected(ps, gap2, i, j, h);
    }
  }

  // ----- one cluster per component

  /** A cluster stands for its members: it counts them, sits at their mean, and its radius is
      the least one that encloses them. */
  ghost predicate StandsFor(v: Cluster, ms: seq<Point>) {
    && v.count == |ms| && v.x * |ms| as real == SumX(ms) && v.y * |ms| as real == SumY(ms) && v.radius >= 0.0
    && (forall k :: 0 <= k < |ms| ==> Dist2(ms[k], Point(v.x, v.y)) <= v.radius * v.radius)
    && exists k :: 0 <= k < |ms| && Dist2(ms[k], Point(v.x, v.y)) == v.radius * v.radius
  }

  /** Members that are neither too few nor, with a radius limit set, too far from their mean. */
  ghost predicate Admitted(ms: seq<Point>, lim: Limits) {
    && |ms| >= lim.minPoints
    && (lim.maxRadius > 0.0 ==> forall k :: 0 <= k < |ms| ==> FromMean(ms, ms[k]) <= Square(lim.maxRadius))
  }

  /** The squared distance of a point from the mean of some others. */
  function FromMean(ms: seq<Point>, p: Point): real
    requires ms != []
  {
    Dist2(p, Point(SumX(ms) / |ms| as real, SumY(ms) / |ms| as real))
  }

  lemma ClosedIff(ms: seq<Point>, lim: Limits, sqrt: real -> real)
    requires ms != [] && IsRoot(sqrt)
    ensures Close(ms, lim, sqrt).Some? <==> Admitted(ms, lim)
    ensures Close(ms, lim, sqrt).Some? ==> StandsFor(Close(ms, lim, sqrt).value, ms)
  {
    hide Dist2, Spread, SumX, SumY, Close, Square;
    ClusterEncloses(ms, lim, sqrt);
    var at := SpreadAttained(ms, Centroid(ms));
    var r := sqrt(Spread(ms, Centroid(ms)));
    RootOf(sqrt, Spread(ms, Centroid(ms)));
    if lim.maxRadius > 0.0 { RootOrder(r, lim.maxRadius); }
    assert forall k :: 0 <= k < |ms| ==> FromMean(ms, ms[k]) == Dist2(ms[k], Centroid(ms));
    assert lim.maxRadius > 0.0 ==> (Spread(ms, Centroid(ms)) <= Square(lim.maxRadius) <==> r <= lim.maxRadius);
    if Admitted(ms, lim) && lim.maxRadius > 0.0 { assert FromMean(ms, ms[at]) <= Square(lim.maxRadius); }
  }

  lemma RootOrder(r: real, top: real)
    requires r >= 0.0 && top > 0.0
    ensures r * r <= Square(top) <==> r <= top
  {
    if r > top {
      assert r * r > top * r by { assert (r - top) * r > 0.0; }
      assert top * r > top * top by { assert top * (r - top) > 0.0; }
    } else {
      assert top * (top - r) >= 0.0 && r * (top - r) >= 0.0;
    }
  }

  /** The places of the blocks that close. */
  ghost function ClosedAt(blocks: seq<seq<Point>>, lim: Limits, sqrt: real -> real): (at: seq<nat>)
    requires forall k :: 0 <= k < |blocks| ==> blocks[k] != []
    ensures (forall i, j :: 0 <= i < j < |at| ==> at[i] < at[j]) && forall i :: 0 <= i < |at| ==> at[i] < |blocks|
  {
    if blocks == [] then [] else
      ClosedAt(blocks[..|blocks| - 1], lim, sqrt) + (if Close(blocks[|blocks| - 1], lim, sqrt).Some? then [|blocks| - 1] else [])
  }

  lemma {:induction false} ClosedPlaces(blocks: seq<seq<Point>>, lim: Limits, sqrt: real -> real)
    requires forall k :: 0 <= k < |blocks| ==> blocks[k] != []
    ensures var all, at := CloseAll(blocks, lim, sqrt), ClosedAt(blocks, lim, sqrt);
            && |all| == |at|
            && (forall k :: 0 <= k < |blocks| ==> (k in at <==> Close(blocks[k], lim, sqrt).Some?))
            && (forall c {:trigger at[c]} :: 0 <= c < |at| ==> Close(blocks[at[c]], lim, sqrt) == Some(all[c]))
  {
    hide Close;
    if blocks != [] {
      var last := |blocks| - 1;
      ClosedPlaces(blocks[..last], lim, sqrt);
      assert forall k :: 0 <= k < last ==> blocks[..last][k] == blocks[k];
    }
  }

  /** The clusters before the cap are exactly those of the components whose members are
      admitted, one for each, in the order the groups are closed. */
  lemma OnePerComponent(ps: seq<Point>, gap2: real, lim: Limits, sqrt: real -> real) returns (at: seq<nat>)
    requires ps != [] && IsRoot(sqrt)
    ensures var all, g := Uncapped(ps, gap2, lim, sqrt), Groups(ps, gap2);
            && |at| == |all| && (forall i, j :: 0 <= i < j < |at| ==> at[i] < at[j])
            && (forall k :: 0 <= k < |g| ==> GroupFits(g[k], |ps|) && (k in at <==> Admitted(Members(ps, g[k]), lim)))
            && (forall c {:trigger at[c]} :: 0 <= c < |at| ==> at[c] < |g| && StandsFor(all[c], Members(ps, g[at[c]])))
  {
    hide Close, Groups, Members, Admitted, StandsFor;
    var blocks := Blocks(ps, gap2);
    GroupsFit(ps, gap2);
    at := ClosedAt(blocks, lim, sqrt);
    ClosedPlaces(blocks, lim, sqrt);
    forall k | 0 <= k < |blocks|
      ensures (Close(blocks[k], lim, sqrt).Some? <==> Admitted(blocks[k], lim)) && (Close(blocks[k], lim, sqrt).Some? ==> StandsFor(Close(blocks[k], lim, sqrt).value, blocks[k]))
    {
      ClosedIff(blocks[k], lim, sqrt);
    }
  }

  // ----- rotation of the scan

  /** The sweep as blocks of points instead of index ranges. */
  function Split(ps: seq<Point>, gap2: real): (b: seq<seq<Point>>)
    requires ps != []
    ensures Solid(b)
  {
    if |ps| == 1 then [ps]
    else
      Cons(ps[0], Split(ps[1..], gap2), Near(ps[1], ps[0], gap2))
  }

  predicate Solid(b: seq<seq<Point>>) {
    |b| > 0 && forall k :: 0 <= k < |b| ==> b[k] != []
  }

  /** A return in front of the blocks, joined to the first one when near. */
  function Cons(a: Point, b: seq<seq<Point>>, near: bool): (c: seq<seq<Point>>)
    requires Solid(b)
    ensures Solid(c)
  {
    if near then [[a] + b[0]] + b[1..] else [[a]] + b
  }

  /** A return after the blocks, joined to the last one when near. */
  function Snoc(b: seq<seq<Point>>, a: Point, near: bool): (c: seq<seq<Point>>)
    requires Solid(b)
    ensures Solid(c)
  {
    if near then b[..|b| - 1] + [b[|b| - 1] + [a]] else b + [[a]]
  }

  function Splice(b: seq<seq<Point>>, wrap: bool): (m: seq<seq<Point>>)
    requires Solid(b)
    ensures Solid(m)
  {
    if wrap && |b| >= 2 then [b[|b| - 1] + b[0]] + b[1..|b| - 1] else b
  }

  /** The blocks b are the points of the segments s. */
  ghost predicate Pieces(ps: seq<Point>, s: seq<Segment>, b: seq<seq<Point>>) {
    |s| == |b| && forall k {:trigger s[k]} {:trigger b[k]} :: 0 <= k < |s| ==> PieceOf(ps, s[k], b[k])
  }

  predicate PieceOf(ps: seq<Point>, g: Segment, b: seq<Point>) {
    g.begin <= g.end <= |ps| && ps[g.begin..g.end] == b
  }

  lemma PiecesCons(ps: seq<Point>, s: seq<Segment>, b: seq<seq<Point>>, i: nat, near: bool)
    requires |s| > 0 && Solid(b) && Pieces(ps, s, b) && s[0].begin == i + 1 && i < |ps|
    ensures near ==> Pieces(ps, Extended(i, s), Cons(ps[i], b, true))
    ensures !near ==> Pieces(ps, [Segment(i, i + 1)] + s, Cons(ps[i], b, false))
  {
    hide Solid;
    assert PieceOf(ps, s[0], b[0]);
    if near {
      assert PieceOf(ps, Segment(i, s[0].end), [ps[i]] + b[0]) by { assert ps[i..s[0].end] == [ps[i]] + ps[i + 1..s[0].end]; }
      hide PieceOf;
      var t, c := Extended(i, s), Cons(ps[i], b, true);
      forall k {:trigger t[k]} {:trigger c[k]} | 0 <= k < |t| ensures PieceOf(ps, t[k], c[k]) {
        if k > 0 { assert t[k] == s[k] && c[k] == b[k]; }
      }
    } else {
      assert PieceOf(ps, Segment(i, i + 1), [ps[i]]) by { assert ps[i..i + 1] == [ps[i]]; }
      hide PieceOf;
      var t, c := [Segment(i, i + 1)] + s, Cons(ps[i], b, false);
      forall k {:trigger t[k]} {:trigger c[k]} | 0 <= k < |t| ensures PieceOf(ps, t[k], c[k]) {
        if k > 0 { assert t[k] == s[k - 1] && c[k] == b[k - 1]; }
      }
    }
  }

  lemma {:induction false} SplitPieces(ps: seq<Point>, gap2: real, i: nat)
    requires i < |ps|
    ensures Pieces(ps, SegmentsFrom(ps, gap2, i), Split(ps[i..], gap2))
    decreases |ps| - i
  {
    hide Near, Pieces;
    if i + 1 < |ps| {
      SplitPieces(ps, gap2, i + 1);
      assert ps[i..][1..] == ps[i + 1..];
      PiecesCons(ps, SegmentsFrom(ps, gap2, i + 1), Split(ps[i + 1..], gap2), i, Near(ps[i + 1], ps[i], gap2));
    } else {
      LastPiece(ps);
    }
  }

  lemma LastPiece(ps: seq<Point>)
    requires ps != []
    ensures Pieces(ps, [Segment(|ps| - 1, |ps|)], [ps[|ps| - 1..]])
  {
  }

  lemma BlocksAreSpliced(ps: seq<Point>, gap2: real)
    requires ps != []
    ensures Blocks(ps, gap2) == Splice(Split(ps, gap2), Near(ps[0], ps[|ps| - 1], gap2))
  {
    hide Near, Split, SegmentsFrom, Pieces, Blocks, Members, GroupAt;
    var b := Split(ps, gap2);
    assert ps[0..] == ps;
    SplitPieces(ps, gap2, 0);
    GroupsFit(ps, gap2);
    PieceCount(ps, SegmentsFrom(ps, gap2, 0), b);
    BlockCount(ps, gap2);
    var l, r := Blocks(ps, gap2), Splice(b, Near(ps[0], ps[|ps| - 1], gap2));
    assert |l| == |r|;
    forall k | 0 <= k < |l| ensures l[k] == r[k] {
      PieceAt(ps, gap2, b, k);
      if Wraps(ps, gap2) && k > 0 { assert r[k] == b[k]; }
    }
  }

  lemma PieceCount(ps: seq<Point>, s: seq<Segment>, b: seq<seq<Point>>)
    requires Pieces(ps, s, b)
    ensures |s| == |b|
  {
  }

  lemma BlockCount(ps: seq<Point>, gap2: real)
    requires ps != []
    ensures |Blocks(ps, gap2)| == |Groups(ps, gap2)|
  {
    hide Groups, Members;
  }

  /** The members of a group, piece by piece: the first block is spliced when the sweep
      wraps, every other one is a piece. */
  lemma PieceAt(ps: seq<Point>, gap2: real, b: seq<seq<Point>>, k: nat)
    requires ps != [] && Pieces(ps, SegmentsFrom(ps, gap2, 0), b) && k < |Blocks(ps, gap2)|
    ensures |b| > k && Blocks(ps, gap2)[k] == if k == 0 && Wraps(ps, gap2) then b[|b| - 1] + b[0] else b[k]
  {
    hide SegmentsFrom, Near;
    GroupsFit(ps, gap2);
    var s := SegmentsFrom(ps, gap2, 0);
    assert PieceOf(ps, s[k], b[k]) && PieceOf(ps, s[|s| - 1], b[|s| - 1]);
    assert Groups(ps, gap2)[k] == GroupAt(ps, gap2, s, k) && GroupFits(Groups(ps, gap2)[k], |ps|);
    assert Blocks(ps, gap2)[k] == Members(ps, GroupAt(ps, gap2, s, k));
    assert b[k] + ps[0..0] == b[k];
  }

  lemma ConsSnoc(x: Point, b: seq<seq<Point>>, a: Point, first: bool, last: bool)
    requires Solid(b)
    ensures Snoc(Cons(x, b, first), a, last) == Cons(x, Snoc(b, a, last), first)
  {
    if first && last && |b| == 1 { assert [x] + (b[0] + [a]) == ([x] + b[0]) + [a]; }
  }

  lemma {:induction false} SplitSnoc(ps: seq<Point>, gap2: real, a: Point)
    requires ps != []
    ensures Split(ps + [a], gap2) == Snoc(Split(ps, gap2), a, Near(a, ps[|ps| - 1], gap2))
  {
    hide Near, Cons, Snoc;
    if |ps| == 1 {
      SplitTwo(ps[0], a, gap2);
      assert ps + [a] == [ps[0], a] && ps == [ps[0]];
    } else {
      SplitSnoc(ps[1..], gap2, a);
      assert (ps + [a])[1..] == ps[1..] + [a];
      ConsSnoc(ps[0], Split(ps[1..], gap2), a, Near(ps[1], ps[0], gap2), Near(a, ps[|ps| - 1], gap2));
    }
  }

  lemma SplitTwo(x: Point, a: Point, gap2: real)
    ensures Split([x, a], gap2) == Snoc(Split([x], gap2), a, Near(a, x, gap2))
  {
    hide Near;
    assert [x, a][1..] == [a];
    assert Split([a], gap2) == [[a]];
  }

  lemma {:induction false} CloseAllSplit(b: seq<seq<Point>>, c: seq<seq<Point>>, lim: Limits, sqrt: real -> real)
    requires forall k :: 0 <= k < |b| ==> b[k] != []
    requires forall k :: 0 <= k < |c| ==> c[k] != []
    ensures CloseAll(b + c, lim, sqrt) == CloseAll(b, lim, sqrt) + CloseAll(c, lim, sqrt)
  {
    if c == [] {
      assert b + c == b;
    } else {
      CloseAllSplit(b, c[..|c| - 1], lim, sqrt);
      assert (b + c)[..|b + c| - 1] == b + c[..|c| - 1];
    }
  }

  lemma {:induction false} SumsOfConcat(a: seq<Point>, b: seq<Point>)
    ensures SumX(a + b) == SumX(a) + SumX(b) && SumY(a + b) == SumY(a) + SumY(b)
  {
    if b == [] {
      assert a + b == a;
    } else {
      SumsOfConcat(a, b[..|b| - 1]);
      assert (a + b)[..|a + b| - 1] == a + b[..|b| - 1];
    }
  }

  lemma {:induction false} SpreadOfConcat(a: seq<Point>, b: seq<Point>, c: Point)
    ensures Spread(a + b, c) == Max(Spread(a, c), Spread(b, c))
  {
    hide Dist2;
    if b == [] {
      assert a + b == a;
    } else {
      SpreadOfConcat(a, b[..|b| - 1], c);
      assert (a + b)[..|a + b| - 1] == a + b[..|b| - 1];
    }
  }

  /** A cluster does not depend on where its cyclic run of members starts. */
  lemma CloseRotated(a: seq<Point>, b: seq<Point>, lim: Limits, sqrt: real -> real)
    requires a + b != []
    ensures Close(a + b, lim, sqrt) == Close(b + a, lim, sqrt)
  {
    SumsOfConcat(a, b);
    SumsOfConcat(b, a);
    var c := Centroid(a + b);
    assert c == Centroid(b + a);
    SpreadOfConcat(a, b, c);
    SpreadOfConcat(b, a, c);
  }

  /** How the spliced blocks of a scan and of its rotation by one relate. */
  lemma SplicedRotation(s: seq<seq<Point>>, a: Point, first: bool, last: bool)
    requires Solid(s)
    ensures var m, p, q := |s| - 1, Splice(Cons(a, s, first), last), Splice(Snoc(s, a, last), first);
            if first && last && m == 0 then p == [[a] + s[0]] && q == [s[0] + [a]]
            else if first then p == q
            else if last then p == [s[m] + [a]] + s[..m] && q == s[..m] + [s[m] + [a]]
            else p == [[a]] + s && q == s + [[a]]
  {
    if first && last {
      if |s| > 1 { RotationThrough(s, a); }
    } else if first {
      var r := s + [[a]];
      assert r[1..|r| - 1] == s[1..];
    } else if last {
      var l := [[a]] + s;
      assert l[1..|l| - 1] == s[..|s| - 1];
    }
  }

  /** The seam moves from one side of `a` to the other inside one spliced block. */
  lemma RotationThrough(s: seq<seq<Point>>, a: Point)
    requires Solid(s) && |s| > 1
    ensures Splice(Cons(a, s, true), true) == Splice(Snoc(s, a, true), true)
  {
    var m := |s| - 1;
    var l, r := Cons(a, s, true), Snoc(s, a, true);
    assert l[m] == s[m] && r[0] == s[0];
    assert s[m] + ([a] + s[0]) == (s[m] + [a]) + s[0];
    assert l[1..m] == s[1..m] && r[1..m] == s[1..m];
  }

  /** Either rotation of the blocks closes to the same clusters. */
  lemma CloseEitherWay(s: seq<seq<Point>>, a: Point, first: bool, last: bool, lim: Limits, sqrt: real -> real)
    requires Solid(s)
    ensures multiset(CloseAll(Splice(Cons(a, s, first), last), lim, sqrt)) ==
            multiset(CloseAll(Splice(Snoc(s, a, last), first), lim, sqrt))
  {
    hide Close, CloseAll, Splice, Cons, Snoc;
    var m := |s| - 1;
    SplicedRotation(s, a, first, last);
    if first && last && m == 0 {
      CloseRotated([a], s[0], lim, sqrt);
      CloseOne([a] + s[0], lim, sqrt);
      CloseOne(s[0] + [a], lim, sqrt);
    } else if !first {
      var x, mid := if last then s[m] + [a] else [a], if last then s[..m] else s;
      CloseAllSplit([x], mid, lim, sqrt);
      CloseAllSplit(mid, [x], lim, sqrt);
    }
  }

  lemma UncappedSpliced(ps: seq<Point>, gap2: real, lim: Limits, sqrt: real -> real)
    requires ps != []
    ensures Uncapped(ps, gap2, lim, sqrt) == CloseAll(Splice(Split(ps, gap2), Near(ps[0], ps[|ps| - 1], gap2)), lim, sqrt)
  {
    hide Blocks, CloseAll, Near;
    BlocksAreSpliced(ps, gap2);
  }

  /** Moving the first return to the end of the scan keeps the multiset of clusters. */
  lemma RotateOne(a: Point, rest: seq<Point>, gap2: real, lim: Limits, sqrt: real -> real)
    ensures multiset(Uncapped([a] + rest, gap2, lim, sqrt)) == multiset(Uncapped(rest + [a], gap2, lim, sqrt))
  {
    hide Near, CloseAll, Splice, Cons, Snoc, Uncapped;
    var p, q := [a] + rest, rest + [a];
    if rest == [] {
      assert p == q;
    } else {
      var s, first, last := Split(rest, gap2), Near(rest[0], a, gap2), Near(a, rest[|rest| - 1], gap2);
      SplitSnoc(rest, gap2, a);
      assert p[1..] == rest;
      assert Split(p, gap2) == Cons(a, s, first);
      UncappedSpliced(p, gap2, lim, sqrt);
      UncappedSpliced(q, gap2, lim, sqrt);
      CloseEitherWay(s, a, first, last, lim, sqrt);
    }
  }

  lemma CloseOne(b: seq<Point>, lim: Limits, sqrt: real -> real)
    requires b != []
    ensures CloseAll([b], lim, sqrt) == if Close(b, lim, sqrt).Some? then [Close(b, lim, sqrt).value] else []
  {
    hide Close;
    assert [b][..0] == [];
  }

  function Rotate<T>(s: seq<T>, r: nat): seq<T>
    requires r <= |s|
  {
    s[r..] + s[..r]
  }

  /** The clusters found, before the cap, do not depend on where the sweep starts: any
      rotation of the scan yields the same multiset of clusters. */
  lemma {:induction false} RotationInvariant(ps: seq<Point>, r: nat, gap2: real, lim: Limits, sqrt: real -> real)
    requires r <= |ps|
    ensures multiset(Uncapped(Rotate(ps, r), gap2, lim, sqrt)) == multiset(Uncapped(ps, gap2, lim, sqrt))
  {
    if r == 0 {
      assert Rotate(ps, 0) == ps;
    } else {
      hide Uncapped, Rotate;
      RotationInvariant(ps, r - 1, gap2, lim, sqrt);
      RotateSteps(ps, r);
      RotateOne(ps[r - 1], ps[r..] + ps[..r - 1], gap2, lim, sqrt);
    }
  }

  lemma RotateSteps<T>(s: seq<T>, r: nat)
    requires 0 < r <= |s|
    ensures Rotate(s, r - 1) == [s[r - 1]] + (s[r..] + s[..r - 1])
    ensures Rotate(s, r) == (s[r..] + s[..r - 1]) + [s[r - 1]]
  {
  }

  // ----- the algorithm

  method AddRange(ps: seq<Point>, begin: nat, end: nat, x: real, y: real) returns (sx: real, sy: real)
    requires begin <= end <= |ps|
    ensures sx == x + SumX(ps[begin..end]) && sy == y + SumY(ps[begin..end])
  {
    sx, sy := x, y;
    for i := begin to end
      invariant sx == x + SumX(ps[begin..i]) && sy == y + SumY(ps[begin..i])
    {
      assert ps[begin..i + 1][..i - begin] == ps[begin..i];
      sx, sy := sx + ps[i].x, sy + ps[i].y;
    }
  }

  method SpreadRange(ps: seq<Point>, begin: nat, end: nat, c: Point, r: real) returns (r2: real)
    requires begin <= end <= |ps| && r >= 0.0
    ensures r2 == Max(r, Spread(ps[begin..end], c))
  {
    hide Dist2;
    r2 := r;
    for i := begin to end
      invariant r2 == Max(r, Spread(ps[begin..i], c))
    {
      assert ps[begin..i + 1][..i - begin] == ps[begin..i];
      r2 := Max(r2, Dist2(ps[i], c));
    }
  }

  method CloseSegment(ps: seq<Point>, g: Group, lim: Limits, sqrt: real -> real) returns (r: Option<Cluster>)
    requires GroupFits(g, |ps|)
    ensures r == Close(Members(ps, g), lim, sqrt)
  {
    hide SumX, SumY, Spread;
    var count := (g.e1 - g.b1) + (g.e2 - g.b2);
    if count < lim.minPoints { return None; }
    SumsOfConcat(ps[g.b1..g.e1], ps[g.b2..g.e2]);
    var sx, sy := AddRange(ps, g.b1, g.e1, 0.0, 0.0);
    sx, sy := AddRange(ps, g.b2, g.e2, sx, sy);
    var c := Point(sx / count as real, sy / count as real);
    SpreadOfConcat(ps[g.b1..g.e1], ps[g.b2..g.e2], c);
    var r2 := SpreadRange(ps, g.b1, g.e1, c, 0.0);
    r2 := SpreadRange(ps, g.b2, g.e2, c, r2);
    var radius := sqrt(r2);
    if lim.maxRadius > 0.0 && radius > lim.maxRadius { return None; }
    return Some(Cluster(c.x, c.y, radius, count));
  }

  /** The same segments with the first one starting earlier. */
  function Extended(begin: nat, s: seq<Segment>): (e: seq<Segment>)
    requires |s| > 0
    ensures |e| == |s| && e[0] == Segment(begin, s[0].end)
    ensures forall k :: 0 < k < |s| ==> e[k] == s[k]
  {
    [Segment(begin, s[0].end)] + s[1..]
  }

  /** The sweep: cut wherever two consecutive returns are farther apart than the gap. */
  method Sweep(ps: seq<Point>, gap2: real) returns (segments: seq<Segment>)
    requires ps != []
    ensures segments == SegmentsFrom(ps, gap2, 0)
  {
    hide Near, Extended;
    segments := [];
    var begin := 0;
    ExtendedLaws(0, 0, SegmentsFrom(ps, gap2, 0), segments);
    for i := 1 to |ps|
      invariant begin < i
      invariant segments + Extended(begin, SegmentsFrom(ps, gap2, i - 1)) == SegmentsFrom(ps, gap2, 0)
    {
      ghost var rest := SegmentsFrom(ps, gap2, i);
      if !Near(ps[i], ps[i - 1], gap2) {
        ExtendedLaws(begin, i, rest, segments);
        segments := segments + [Segment(begin, i)];
        begin := i;
      } else {
        ExtendedLaws(begin, i, rest, segments);
      }
    }
    ExtendedLaws(begin, |ps|, [Segment(|ps|, |ps| + 1)], segments);
    segments := segments + [Segment(begin, |ps|)];
  }

  lemma ExtendedLaws(begin: nat, i: nat, rest: seq<Segment>, segments: seq<Segment>)
    requires |rest| > 0 && rest[0].begin == i
    ensures Extended(i, rest) == rest
    ensures [] + rest == rest
    ensures i > 0 ==> Extended(begin, Extended(i - 1, rest)) == Extended(begin, rest)
    ensures i > 0 ==> segments + Extended(begin, [Segment(i - 1, i)] + rest) == (segments + [Segment(begin, i)]) + rest
    ensures i > 0 ==> Extended(begin, [Segment(i - 1, i)]) == [Segment(begin, i)]
  {
  }

  /** The k largest clusters first, in non-increasing order of member count. */
  ghost predicate TopSorted(cs: seq<Cluster>, k: nat)
    requires k <= |cs|
  {
    forall i, j :: 0 <= i < k && i < j < |cs| ==> cs[i].count >= cs[j].count
  }

  lemma NoTop(cs: seq<Cluster>)
    ensures TopSorted(cs, 0)
  {
  }

  /** What std::partial_sort promises; the order among equal counts is arbitrary. */
  method PartialSort(cs: seq<Cluster>, k: nat) returns (r: seq<Cluster>)
    requires k <= |cs|
    ensures |r| == |cs| && multiset(r) == multiset(cs) && TopSorted(r, k)
  {
    hide TopSorted, Swapped;
    r := cs;
    NoTop(cs);
    for i := 0 to k
      invariant |r| == |cs| && multiset(r) == multiset(cs) && TopSorted(r, i)
    {
      var top := i;
      for j := i + 1 to |r|
        invariant i <= top < |r|
        invariant forall l :: i <= l < j ==> r[top].count >= r[l].count
      {
        if r[j].count > r[top].count { top := j; }
      }
      SwapTop(r, i, top);
      r := Swapped(r, i, top);
    }
  }

  function Swapped(r: seq<Cluster>, i: nat, j: nat): (t: seq<Cluster>)
    requires i < |r| && j < |r|
    ensures |t| == |r| && forall k {:trigger t[k]} :: 0 <= k < |r| ==> t[k] == if k == i then r[j] else if k == j then r[i] else r[k]
  {
    r[i := r[j]][j := r[i]]
  }

  /** Bringing the largest of the rest forward extends the sorted top by one. */
  lemma SwapTop(r: seq<Cluster>, i: nat, top: nat)
    requires i <= top < |r| && TopSorted(r, i) && forall l :: i <= l < |r| ==> r[top].count >= r[l].count
    ensures TopSorted(Swapped(r, i, top), i + 1) && multiset(Swapped(r, i, top)) == multiset(r)
  {
    assert multiset(Swapped(r, i, top)) == multiset(r);
    hide Swapped;
    var t := Swapped(r, i, top);
    forall a, b | 0 <= a < i + 1 && a < b < |t| ensures t[a].count >= t[b].count {
      if a < i { assert r[a].count >= r[if b == i then top else if b == top then i else b].count; }
    }
  }

  /** Close every group, splicing the trailing segment onto the leading one. */
  method CloseGroups(ps: seq<Point>, gap2: real, segments: seq<Segment>, wrap: bool, lim: Limits, sqrt: real -> real)
    returns (clusters: seq<Cluster>)
    requires ps != [] && segments == SegmentsFrom(ps, gap2, 0) && wrap == Wraps(ps, gap2)
    ensures clusters == CloseAll(Blocks(ps, gap2), lim, sqrt)
  {
    hide Near, SegmentsFrom, Close, Members, Wraps, CloseAll, Blocks, Groups, GroupAt;
    clusters := [];
    ghost var blocks := Blocks(ps, gap2);
    BlocksCount(ps, gap2);
    CloseNone(lim, sqrt);
    var n := |segments|;
    for s := 0 to n
      invariant clusters == CloseAll(blocks[..if s <= |blocks| then s else |blocks|], lim, sqrt)
    {
      if wrap && s + 1 == n { continue; }
      var g := if wrap && s == 0 then Group(segments[n - 1].begin, segments[n - 1].end, segments[0].begin, segments[0].end)
               else Group(segments[s].begin, segments[s].end, 0, 0);
      BlockOf(ps, gap2, segments, s);
      CloseStep(blocks, s, lim, sqrt);
      var r := CloseSegment(ps, g, lim, sqrt);
      if r.Some? { clusters := clusters + [r.value]; }
    }
    assert blocks[..|blocks|] == blocks;
  }

  lemma BlocksCount(ps: seq<Point>, gap2: real)
    requires ps != []
    ensures |Blocks(ps, gap2)| == |SegmentsFrom(ps, gap2, 0)| - (if Wraps(ps, gap2) then 1 else 0)
  {
  }

  lemma BlockOf(ps: seq<Point>, gap2: real, segments: seq<Segment>, s: nat)
    requires ps != [] && segments == SegmentsFrom(ps, gap2, 0) && s < |segments| && (Wraps(ps, gap2) ==> s + 1 < |segments|)
    ensures var g := GroupAt(ps, gap2, segments, s);
            GroupFits(g, |ps|) && s < |Blocks(ps, gap2)| && Blocks(ps, gap2)[s] == Members(ps, g)
    ensures var n := |segments|;
            GroupAt(ps, gap2, segments, s)
            == if Wraps(ps, gap2) && s == 0 then Group(segments[n - 1].begin, segments[n - 1].end, segments[0].begin, segments[0].end)
               else Group(segments[s].begin, segments[s].end, 0, 0)
  {
    hide Near, SegmentsFrom, Wraps;
    GroupsFit(ps, gap2);
    var groups := Groups(ps, gap2);
    assert GroupFits(groups[s], |ps|) && groups[s] == GroupAt(ps, gap2, segments, s);
  }

  lemma CloseNone(lim: Limits, sqrt: real -> real)
    ensures CloseAll([], lim, sqrt) == []
  {
  }

  lemma CloseStep(blocks: seq<seq<Point>>, s: nat, lim: Limits, sqrt: real -> real)
    requires s < |blocks| && forall k :: 0 <= k < |blocks| ==> blocks[k] != []
    ensures var r := Close(blocks[s], lim, sqrt);
            CloseAll(blocks[..s + 1], lim, sqrt) == CloseAll(blocks[..s], lim, sqrt) + (if r.Some? then [r.value] else [])
  {
    assert blocks[..s + 1][..s] == blocks[..s];
  }

  /** Keep the largest clusters. */
  method Cap(all: seq<Cluster>, maxClusters: nat) returns (clusters: seq<Cluster>)
    ensures |all| <= maxClusters ==> clusters == all
    ensures |all| > maxClusters ==> |clusters| == maxClusters && multiset(clusters) <= multiset(all)
    ensures |all| > maxClusters ==> TopSorted(clusters, |clusters|)
    ensures forall kept, dropped :: kept in clusters && dropped in multiset(all) - multiset(clusters) ==> kept.count >= dropped.count
  {
    if |all| <= maxClusters { return all; }
    var sorted := PartialSort(all, maxClusters);
    clusters := sorted[..maxClusters];
    assert sorted == clusters + sorted[maxClusters..];
    assert multiset(all) - multiset(clusters) == multiset(sorted[maxClusters..]);
    forall kept, dropped | kept in clusters && dropped in multiset(sorted[maxClusters..]) ensures kept.count >= dropped.count {
      assert dropped in sorted[maxClusters..];
    }
  }

  /** The whole algorithm. Up to the cap the result is every cluster found; beyond it,
      a sorted selection of which no dropped cluster is larger than a kept one. */
  method ClusterPoints(ps: seq<Point>, gap: real, lim: Limits, maxClusters: nat, sqrt: real -> real) returns (clusters: seq<Cluster>)
    ensures var all := Uncapped(ps, gap * gap, lim, sqrt);
            && (|all| <= maxClusters ==> clusters == all)
            && (|all| > maxClusters ==> |clusters| == maxClusters && multiset(clusters) <= multiset(all) && TopSorted(clusters, |clusters|))
            && forall kept, dropped :: kept in clusters && dropped in multiset(all) - multiset(clusters) ==> kept.count >= dropped.count
  {
    hide SegmentsFrom, CloseAll, TopSorted, Blocks;
    if ps == [] { return []; }
    var gap2 := gap * gap;
    var segments := Sweep(ps, gap2);
    var wrap := false;
    if |segments| >= 2 { wrap := Near(ps[0], ps[|ps| - 1], gap2); }
    clusters := CloseGroups(ps, gap2, segments, wrap, lim, sqrt);
    clusters := Cap(clusters, maxClusters);
  }
}
