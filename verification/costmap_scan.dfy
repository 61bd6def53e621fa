/** The scan of the costmap around a node: which occupied cells the keep-out discs are
    built from. */
module CostmapScan {
  import opened Basics
  import opened Linear
  import Planar
  import opened Sorting
  import opened StaticSlots

  /** A costmap: its size in cells, the side of a cell, its origin, and the cost of a cell. */
  datatype Grid = Grid(sizeX: nat, sizeY: nat, res: real, ox: real, oy: real, cost: (nat, nat) -> nat)

  const NO_INFORMATION := 255

  /** The cell a coordinate falls in, counted from the origin; a cell holds its low side. */
  function Index(v: real, origin: real, res: real): int
    requires res > 0.0
  {
    ((v - origin) / res).Floor
  }

  /** The cell of a point, if it is on the map. */
  function CellOf(g: Grid, p: Point): Option<(nat, nat)>
    requires g.res > 0.0
  {
    var mx, my := Index(p.x, g.ox, g.res), Index(p.y, g.oy, g.res);
    if 0 <= mx < g.sizeX && 0 <= my < g.sizeY then Some((mx, my)) else None
  }

  function Middle(m: nat, origin: real, res: real): real { origin + Mul(m as real + 0.5, res) }

  /** The centre of a cell. */
  function CentreOf(g: Grid, mx: nat, my: nat): Point { Point(Middle(mx, g.ox, g.res), Middle(my, g.oy, g.res)) }

  /** Where a mover is now, kept out of the scan. */
  datatype Exclusion = Exclusion(at: Point, radius: real)

  /** What counts as occupied, how far the scan looks, and how many cells it may span. */
  datatype Look = Look(threshold: nat, radius: real, cells: nat)

  /** The half-width of the window: enough cells for the search radius, but no more than the
      configured number. */
  function Window(g: Grid, look: Look): nat
    requires g.res > 0.0 && look.radius >= 0.0
  {
    var full := CeilNonneg(look.radius, g.res);
    if full > look.cells then look.cells else full
  }

  function CeilNonneg(v: real, res: real): (n: nat)
    requires v >= 0.0 && res > 0.0
    ensures n as real >= v / res
  {
    NonnegQuotient(v, res);
    -((-(v / res)).Floor)
  }

  lemma NonnegQuotient(v: real, res: real)
    requires v >= 0.0 && res > 0.0
    ensures v / res >= 0.0 && Mul(v / res, res) == v
  {
    var q := v / res;
    assert Mul(q, res) == v && Mul(0.0, res) == 0.0;
    OrderProduct(res, q, 0.0);
  }

  predicate Occupied(g: Grid, look: Look, mx: nat, my: nat) {
    g.cost(mx, my) >= look.threshold && g.cost(mx, my) != NO_INFORMATION
  }

  predicate Excluded(excl: seq<Exclusion>, p: Point) {
    exists i :: 0 <= i < |excl| && Dist2(p, excl[i].at) < Square(excl[i].radius)
  }

  /** A cell that has to be kept out of: on the map, occupied, within the search radius of
      the node and not under a mover. */
  predicate Clutter(g: Grid, look: Look, excl: seq<Exclusion>, c: Point, mx: nat, my: nat) {
    && mx < g.sizeX && my < g.sizeY && Occupied(g, look, mx, my)
    && Dist2(CentreOf(g, mx, my), c) <= Square(look.radius) && !Excluded(excl, CentreOf(g, mx, my))
  }

  predicate InReach(win: nat, m0: nat, m: nat) { m0 <= m + win && m <= m0 + win }

  /** Inside the window about a cell. */
  predicate InWindow(win: nat, mx0: nat, my0: nat, mx: nat, my: nat) {
    InReach(win, mx0, mx) && InReach(win, my0, my)
  }

  /** The cells a scan keeps, as points. */
  ghost predicate Kept(g: Grid, look: Look, excl: seq<Exclusion>, c: Point, p: Point)
    requires g.res > 0.0 && look.radius >= 0.0
  {
    CellOf(g, c).Some? && exists mx: nat, my: nat :: KeptCell(g, look, excl, c, p, mx, my)
  }

  predicate KeptCell(g: Grid, look: Look, excl: seq<Exclusion>, c: Point, p: Point, mx: nat, my: nat)
    requires g.res > 0.0 && look.radius >= 0.0 && CellOf(g, c).Some?
  {
    && InWindow(Window(g, look), CellOf(g, c).value.0, CellOf(g, c).value.1, mx, my)
    && Clutter(g, look, excl, c, mx, my) && p == CentreOf(g, mx, my)
  }

  /** Whether a mover covers a cell, checked mover by mover. */
  method IsExcluded(excl: seq<Exclusion>, p: Point) returns (b: bool)
    ensures b == Excluded(excl, p)
  {
    hide Dist2, Square;
    for i := 0 to |excl|
      invariant forall k :: 0 <= k < i ==> !(Dist2(p, excl[k].at) < Square(excl[k].radius))
    {
      if Dist2(p, excl[i].at) < Square(excl[i].radius) { return true; }
    }
    return false;
  }

  /** One row of the window. */
  method ScanRow(g: Grid, look: Look, excl: seq<Exclusion>, c: Point, mx0: nat, my: nat, win: nat) returns (row: seq<Point>)
    requires my < g.sizeY
    ensures forall p :: p in row ==> exists mx: nat :: InReach(win, mx0, mx) && Clutter(g, look, excl, c, mx, my) && p == CentreOf(g, mx, my)
    ensures forall mx: nat :: InReach(win, mx0, mx) && Clutter(g, look, excl, c, mx, my) ==> CentreOf(g, mx, my) in row
  {
    hide Dist2, Square, CentreOf, Excluded;
    row := [];
    var reach: int := win;
    for dx := -reach to reach + 1
      invariant forall p :: p in row ==> exists mx: nat :: InReach(win, mx0, mx) && Clutter(g, look, excl, c, mx, my) && p == CentreOf(g, mx, my)
      invariant forall mx: nat :: InReach(win, mx0, mx) && mx - mx0 < dx && Clutter(g, look, excl, c, mx, my) ==> CentreOf(g, mx, my) in row
    {
      var mx := mx0 + dx;
      if mx < 0 || mx >= g.sizeX { continue; }
      if g.cost(mx, my) < look.threshold || g.cost(mx, my) == NO_INFORMATION { continue; }
      var p := CentreOf(g, mx, my);
      if Dist2(p, c) > Square(look.radius) { continue; }
      var covered := IsExcluded(excl, p);
      if !covered {
        assert Clutter(g, look, excl, c, mx, my);
        row := row + [p];
      }
    }
  }

  /** The scan of one node: nothing off the map, otherwise exactly the cells of the window
      that have to be kept out of, nearest first. */
  method ScanNode(g: Grid, look: Look, excl: seq<Exclusion>, c: Point) returns (r: Option<Scan>)
    requires g.res > 0.0 && look.radius >= 0.0
    ensures r.Some? <==> CellOf(g, c).Some?
    ensures r.Some? ==> r.value.centre == c && forall p :: p in r.value.cells <==> Kept(g, look, excl, c, p)
    ensures r.Some? ==> forall i, j :: 0 <= i < j < |r.value.cells| ==> Dist2(r.value.cells[i], c) <= Dist2(r.value.cells[j], c)
  {
    hide Dist2, Clutter, CentreOf, Window, CellOf;
    var cell := CellOf(g, c);
    if cell.None? { return None; }
    var (mx0, my0) := cell.value;
    var win := Window(g, look);
    var cells: seq<Point> := [];
    var reach: int := win;
    for dy := -reach to reach + 1
      invariant forall p :: p in cells ==> Kept(g, look, excl, c, p)
      invariant forall mx: nat, my: nat {:trigger CentreOf(g, mx, my)} :: InWindow(win, mx0, my0, mx, my) && my - my0 < dy && Clutter(g, look, excl, c, mx, my) ==>
                  CentreOf(g, mx, my) in cells
    {
      var my := my0 + dy;
      if my < 0 || my >= g.sizeY {
        OffMap(g, look, excl, c);
        continue;
      }
      var row := ScanRow(g, look, excl, c, mx0, my, win);
      forall p | p in row ensures Kept(g, look, excl, c, p) {
        var mx: nat :| InReach(win, mx0, mx) && Clutter(g, look, excl, c, mx, my) && p == CentreOf(g, mx, my);
        assert KeptCell(g, look, excl, c, p, mx, my);
      }
      cells := cells + row;
    }
    forall p | Kept(g, look, excl, c, p) ensures p in cells {
      var mx: nat, my: nat :| KeptCell(g, look, excl, c, p, mx, my);
      assert InWindow(win, mx0, my0, mx, my);
    }
    var sorted := SortBy(p => Dist2(p, c), cells);
    SameMembers(cells, sorted);
    r := Some(Scan(c, sorted));
  }

  lemma OffMap(g: Grid, look: Look, excl: seq<Exclusion>, c: Point)
    ensures forall mx: nat, my: nat {:trigger Clutter(g, look, excl, c, mx, my)} :: Clutter(g, look, excl, c, mx, my) ==> mx < g.sizeX && my < g.sizeY
  {
  }

  lemma SameMembers<T>(s: seq<T>, r: seq<T>)
    requires multiset(r) == multiset(s)
    ensures forall x :: x in s <==> x in r
  {
    forall x ensures x in s <==> x in r { assert x in s <==> x in multiset(s); assert x in r <==> x in multiset(r); }
  }

  /** Which side of each limit counts: a cost at the threshold is occupied, unknown space is not,
      a cell at exactly the search radius is kept, and one on the rim of a mover is too. */
  lemma ClutterLimits(cost: (nat, nat) -> nat, radius: real)
    requires radius >= 0.0
    ensures var g, here := Grid(1, 1, 1.0, 0.0, 0.0, cost), Point(0.5, 0.5);
            var look := Look(cost(0, 0), radius, 1);
            && (Clutter(g, look, [], here, 0, 0) <==> cost(0, 0) != 255)
            && !Clutter(g, look.(threshold := cost(0, 0) + 1), [], here, 0, 0)
            && (Clutter(g, look, [], Point(0.5 + radius, 0.5), 0, 0) <==> cost(0, 0) != 255)
            && (Clutter(g, look, [Exclusion(Point(0.5 + radius, 0.5), radius)], here, 0, 0) <==> cost(0, 0) != 255)
            && (radius > 0.0 ==> !Clutter(g, look, [Exclusion(here, radius)], here, 0, 0))
  {
    var g, here := Grid(1, 1, 1.0, 0.0, 0.0, cost), Point(0.5, 0.5);
    assert CentreOf(g, 0, 0) == here;
    assert Dist2(here, Point(0.5 + radius, 0.5)) == Square(radius);
    assert Dist2(here, here) == 0.0;
    if radius > 0.0 {
      PositiveProduct(radius, radius);
      assert Excluded([Exclusion(here, radius)], here) by { assert [Exclusion(here, radius)][0] == Exclusion(here, radius); }
    }
    NonnegProduct(radius, radius);
  }

  // ----- what the window leaves out

  /** Whatever the map, the movers and the node on the map, the scan shows every cell to keep
      out of. */
  ghost predicate SeesAll(look: Look, res: real)
    requires res > 0.0 && look.radius >= 0.0
  {
    forall g: Grid, excl: seq<Exclusion>, c: Point, mx: nat, my: nat {:trigger Clutter(g, look, excl, c, mx, my)} ::
      g.res == res && CellOf(g, c).Some? && Clutter(g, look, excl, c, mx, my) ==> Kept(g, look, excl, c, CentreOf(g, mx, my))
  }

  /** How far the configured number of cells reaches: to the middle of the last one, seen
      from the near side of the node's own cell. */
  function Reach(look: Look, res: real): real { Mul(look.cells as real + 0.5, res) }

  /** The scan of a node on the map never misses a cell to keep out of if and only if the
      search radius is shorter than the configured number of cells and a half. */
  lemma SeesAllIff(look: Look, res: real)
    requires res > 0.0 && look.radius >= 0.0 && look.threshold < NO_INFORMATION
    ensures SeesAll(look, res) <==> look.radius < Reach(look, res)
  {
    if look.radius < Reach(look, res) {
      forall g: Grid, excl: seq<Exclusion>, c: Point, mx: nat, my: nat {:trigger Clutter(g, look, excl, c, mx, my)} |
        g.res == res && CellOf(g, c).Some? && Clutter(g, look, excl, c, mx, my)
        ensures Kept(g, look, excl, c, CentreOf(g, mx, my))
      {
        WindowSees(g, look, excl, c, mx, my);
      }
    } else {
      WindowMisses(look, res);
    }
  }

  /** The same for every node. A node off the map is not scanned at all, so no cell may be
      within its radius. */
  ghost predicate SeesEverywhere(look: Look, res: real)
    requires res > 0.0 && look.radius >= 0.0
  {
    forall g: Grid, excl: seq<Exclusion>, c: Point, mx: nat, my: nat {:trigger Clutter(g, look, excl, c, mx, my)} ::
      g.res == res && Clutter(g, look, excl, c, mx, my) ==> Kept(g, look, excl, c, CentreOf(g, mx, my))
  }

  /** No node anywhere misses a cell to keep out of if and only if the search radius is less
      than half a cell. */
  lemma SeesEverywhereIff(look: Look, res: real)
    requires res > 0.0 && look.radius >= 0.0 && look.threshold < NO_INFORMATION
    ensures SeesEverywhere(look, res) <==> 2.0 * look.radius < res
  {
    if 2.0 * look.radius < res {
      MonoProduct(res, 0.5, look.cells as real + 0.5);
      assert Mul(0.5, res) == 0.5 * res;
      forall g: Grid, excl: seq<Exclusion>, c: Point, mx: nat, my: nat {:trigger Clutter(g, look, excl, c, mx, my)} |
        g.res == res && Clutter(g, look, excl, c, mx, my)
        ensures Kept(g, look, excl, c, CentreOf(g, mx, my))
      {
        NearIsOn(g, look, excl, c, mx, my);
        WindowSees(g, look, excl, c, mx, my);
      }
    } else {
      OffMapMisses(look, res);
    }
  }

  /** A node within less than half a cell of a cell's middle is in that cell. */
  lemma NearIsOn(g: Grid, look: Look, excl: seq<Exclusion>, c: Point, mx: nat, my: nat)
    requires g.res > 0.0 && 0.0 <= 2.0 * look.radius < g.res && Clutter(g, look, excl, c, mx, my)
    ensures CellOf(g, c) == Some((mx, my))
  {
    hide Middle, Index, Mul;
    var dx, dy := Middle(mx, g.ox, g.res) - c.x, Middle(my, g.oy, g.res) - c.y;
    WithinAxis(dx, dy, look.radius);
    WithinAxis(dy, dx, look.radius);
    AxisOn(c.x, g.ox, g.res, mx);
    AxisOn(c.y, g.oy, g.res, my);
  }

  lemma AxisOn(v: real, origin: real, res: real, m: nat)
    requires res > 0.0 && -res < 2.0 * (Middle(m, origin, res) - v) < res
    ensures Index(v, origin, res) == m
  {
    var q := (v - origin) / res;
    Offset(v, origin, res, m);
    var a := m as real + 0.5 - q;
    assert Mul(0.5, res) == 0.5 * res && Mul(-0.5, res) == -0.5 * res;
    OrderProduct(res, a, 0.5);
    OrderProduct(res, -0.5, a);
  }

  /** A map of one occupied cell, and a node on its far side, which the map no longer holds. */
  lemma OffMapMisses(look: Look, res: real)
    requires res > 0.0 && 2.0 * look.radius >= res && look.threshold < NO_INFORMATION
    ensures !SeesEverywhere(look, res)
  {
    var g := Grid(1, 1, res, 0.0, 0.0, (mx, my) => 254);
    var c := Point(Mul(1.0, res), Middle(0, 0.0, res));
    IndexOf(1, 0.0, res);
    assert CellOf(g, c).None?;
    assert Clutter(g, look, [], c, 0, 0) by { HalfCell(look.radius, res); }
    assert !Kept(g, look, [], c, CentreOf(g, 0, 0));
  }

  lemma HalfCell(radius: real, res: real)
    requires res > 0.0 && 2.0 * radius >= res
    ensures Square(Middle(0, 0.0, res) - Mul(1.0, res)) + Square(Middle(0, 0.0, res) - Middle(0, 0.0, res)) <= Square(radius)
  {
    var d := 0.5 * res;
    assert Middle(0, 0.0, res) - Mul(1.0, res) == -d;
    MonoProduct(d, d, radius);
    MonoProduct(radius, d, radius);
    assert (-d) * (-d) == d * d;
  }

  /** The node just off a map of one cell: the scan of the map is complete for every node on
      it, and still the cell next to this one is missed. */
  lemma JustOffTheMap(cost: (nat, nat) -> nat)
    requires cost(0, 0) == 254
    ensures var g, look, c := Grid(1, 1, 1.0, 0.0, 0.0, cost), Look(200, 1.0, 5), Point(-0.1, 0.5);
            SeesAll(look, 1.0) && Clutter(g, look, [], c, 0, 0) && !Kept(g, look, [], c, CentreOf(g, 0, 0))
  {
    var g, look, c := Grid(1, 1, 1.0, 0.0, 0.0, cost), Look(200, 1.0, 5), Point(-0.1, 0.5);
    SeesAllIff(look, 1.0);
    assert Reach(look, 1.0) == 5.5;
    assert CentreOf(g, 0, 0) == Point(0.5, 0.5);
    assert Dist2(Point(0.5, 0.5), c) == 0.36;
    assert Square(1.0) == 1.0;
  }

  lemma WindowSees(g: Grid, look: Look, excl: seq<Exclusion>, c: Point, mx: nat, my: nat)
    requires g.res > 0.0 && 0.0 <= look.radius < Reach(look, g.res) && CellOf(g, c).Some? && Clutter(g, look, excl, c, mx, my)
    ensures Kept(g, look, excl, c, CentreOf(g, mx, my))
  {
    hide Middle, Index, CeilNonneg, Mul;
    var dx, dy := Middle(mx, g.ox, g.res) - c.x, Middle(my, g.oy, g.res) - c.y;
    WithinAxis(dx, dy, look.radius);
    WithinAxis(dy, dx, look.radius);
    AxisSees(c.x, g.ox, g.res, look, mx);
    AxisSees(c.y, g.oy, g.res, look, my);
    assert KeptCell(g, look, excl, c, CentreOf(g, mx, my), mx, my);
  }

  lemma WithinAxis(dx: real, dy: real, r: real)
    requires r >= 0.0 && Square(dx) + Square(dy) <= Square(r)
    ensures -r <= dx <= r
  {
    Planar.NormNonneg(dy, dx);
    Planar.SquareOrder(dx, r);
  }

  /** A cell whose middle is within the radius of a coordinate is no more cells away from the
      coordinate's cell than the window spans, on either side. */
  lemma AxisSees(v: real, origin: real, res: real, look: Look, m: nat)
    requires res > 0.0 && 0.0 <= look.radius < Reach(look, res) && -look.radius <= Middle(m, origin, res) - v <= look.radius
    ensures var n := if CeilNonneg(look.radius, res) > look.cells then look.cells else CeilNonneg(look.radius, res);
            Index(v, origin, res) <= m + n && m <= Index(v, origin, res) + n
  {
    var q, w, n, k := (v - origin) / res, look.radius / res, CeilNonneg(look.radius, res), Index(v, origin, res);
    NonnegQuotient(look.radius, res);
    var a := m as real + 0.5 - q;
    Offset(v, origin, res, m);
    assert Mul(-w, res) == -Mul(w, res);
    OrderProduct(res, w, a);
    OrderProduct(res, a, -w);
    OrderProduct(res, w, look.cells as real + 0.5);
    assert k as real <= q < k as real + 1.0;
  }

  lemma Offset(v: real, origin: real, res: real, m: nat)
    requires res > 0.0
    ensures Mul(m as real + 0.5 - (v - origin) / res, res) == Middle(m, origin, res) - v
  {
    var q, a := (v - origin) / res, m as real + 0.5;
    assert q * res == v - origin;
    assert (a - q) * res == a * res - q * res;
  }

  /** A map with one occupied row, and a node on the near side of its cell. */
  lemma WindowMisses(look: Look, res: real)
    requires res > 0.0 && look.radius >= Reach(look, res) && look.threshold < NO_INFORMATION
    ensures !SeesAll(look, res)
  {
    var n := look.cells + 1;
    var g := Grid(n + 1, 1, res, 0.0, 0.0, (mx, my) => 254);
    var c := Point(Mul(n as real, res), Middle(0, 0.0, res));
    IndexOf(n, 0.0, res);
    IndexOf(0, 0.5, res);
    assert CellOf(g, c) == Some((n, 0));
    assert Clutter(g, look, [], c, 0, 0) by { FarCell(look, res); }
    assert !Kept(g, look, [], c, CentreOf(g, 0, 0)) by {
      forall mx: nat, my: nat ensures !KeptCell(g, look, [], c, CentreOf(g, 0, 0), mx, my) {
        OrderProduct(res, 0.5, mx as real + 0.5);
      }
    }
  }

  lemma IndexOf(n: nat, part: real, res: real)
    requires res > 0.0 && 0.0 <= part < 1.0
    ensures Index(Mul(n as real + part, res), 0.0, res) == n && Middle(0, 0.0, res) == Mul(0.5, res)
  {
    var v := n as real + part;
    var q := (Mul(v, res) - 0.0) / res;
    assert Mul(q, res) == Mul(v, res);
    OrderProduct(res, q, v);
    OrderProduct(res, v, q);
  }

  lemma FarCell(look: Look, res: real)
    requires res > 0.0 && look.radius >= Reach(look, res)
    ensures Square(Middle(0, 0.0, res) - Mul((look.cells + 1) as real, res)) + Square(Middle(0, 0.0, res) - Middle(0, 0.0, res)) <= Square(look.radius)
  {
    var d := Reach(look, res);
    NonnegProduct(look.cells as real + 0.5, res);
    assert Mul(0.5, res) - Mul((look.cells + 1) as real, res) == -d;
    MonoProduct(d, d, look.radius);
    MonoProduct(look.radius, d, look.radius);
    assert (-d) * (-d) == d * d;
  }
}
