/** The rows of the equality and inequality matrices as values: which entries a filler
    writes, with what, and what the row times an increment means. */
module QpRows {
  import opened Linear
  import opened Planar
  import opened QpLayout

  /** A matrix entry; NaN is the marker the sparsity probe looks for. */
  datatype Cell = NaN | Num(v: real)
  type CellRow = seq<Cell>

  datatype Bound = Bound(idx: nat, low: real, upp: real)
  datatype Bounds = Bounds(x: seq<Bound>, u: seq<Bound>, du: seq<Bound>)

  /** A keep-out disc: position and required clearance. */
  datatype Disc = Disc(x: real, y: real, clearance: real)

  /** What init() fixes: sizes, declared bounds, the state entries of the position, the
      barrier rate and the step. */
  datatype Config = Config(dims: Dims, bounds: Bounds, px: nat, py: nat, gamma: real, dt: real)

  predicate FitBounds(s: Dims, b: Bounds) {
    && |b.x| == s.nx && |b.u| == s.nu && |b.du| == s.ndu
    && (forall j :: 0 <= j < s.nx ==> b.x[j].idx < s.n)
    && (forall j :: 0 <= j < s.nu ==> b.u[j].idx < s.m)
    && (forall j :: 0 <= j < s.ndu ==> b.du[j].idx < s.m)
  }

  predicate ValidConfig(g: Config) {
    && ValidDims(g.dims) && FitBounds(g.dims, g.bounds) && 0.0 < g.gamma <= 1.0 && g.dt > 0.0
    && (g.dims.obstacles ==> g.px < g.dims.n && g.py < g.dims.n && g.px != g.py)
  }

  // ----- rows and their values

  function Lift(v: Vec): (r: CellRow)
    ensures |r| == |v| && forall i :: 0 <= i < |v| ==> r[i] == Num(v[i])
  {
    seq(|v|, i requires 0 <= i < |v| => Num(v[i]))
  }

  function Real(c: Cell): real { match c case NaN => 0.0 case Num(v) => v }

  function Reals(r: CellRow): (v: Vec)
    ensures |v| == |r| && forall i :: 0 <= i < |r| ==> v[i] == Real(r[i])
  {
    seq(|r|, i requires 0 <= i < |r| => Real(r[i]))
  }

  function Blank(n: nat, c: Cell): (r: CellRow)
    ensures |r| == n && forall i :: 0 <= i < n ==> r[i] == c
  {
    seq(n, i => c)
  }

  /** Overwrite a block of a row. */
  function Splice<T>(base: seq<T>, p: nat, part: seq<T>): (r: seq<T>)
    requires p + |part| <= |base|
    ensures |r| == |base|
    ensures forall i {:trigger r[i]} :: 0 <= i < |r| ==> r[i] == if p <= i < p + |part| then part[i - p] else base[i]
  {
    base[..p] + part + base[p + |part|..]
  }

  /** The value of a row against an increment. */
  function Value(r: CellRow, d: Vec): real
    requires |r| == |d|
  {
    Dot(Reals(r), d)
  }

  lemma ValueBlank(d: Vec)
    ensures Value(Blank(|d|, Num(0.0)), d) == 0.0
  {
    DotZero(Reals(Blank(|d|, Num(0.0))), d);
  }

  /** Writing one entry that held zero adds its term. */
  lemma ValueUpdate(r: CellRow, c: nat, v: real, d: Vec)
    requires |r| == |d| && c < |d| && r[c] == Num(0.0)
    ensures Value(r[c := Num(v)], d) == Value(r, d) + Mul(v, d[c])
  {
    var a, b := Reals(r), Reals(r[c := Num(v)]);
    DotSplit(a, d, c);
    DotSplit(b, d, c);
    assert a[..c] == b[..c];
    assert a[c..][1..] == b[c..][1..] by {
      assert forall i :: 0 <= i < |d| - c - 1 ==> a[c..][1..][i] == a[c + 1 + i] && b[c..][1..][i] == b[c + 1 + i];
    }
    assert a[c..][0] == 0.0 && b[c..][0] == v && d[c..][0] == d[c];
    assert Mul(0.0, d[c]) == 0.0;
  }

  /** Writing a block over zeros adds the block's product. */
  lemma ValueSplice(r: CellRow, p: nat, part: Vec, d: Vec)
    requires |r| == |d| && p + |part| <= |d| && forall i :: p <= i < p + |part| ==> r[i] == Num(0.0)
    ensures Value(Splice(r, p, Lift(part)), d) == Value(r, d) + Dot(part, d[p..p + |part|])
  {
    hide Dot, Reals, Splice, Lift;
    var q, a := p + |part|, Reals(r);
    SpliceReals(r, p, part);
    assert d == d[..p] + d[p..q] + d[q..];
    DotSpliced(a[..p], part, a[q..], d[..p], d[p..q], d[q..]);
  }

  /** The values of a row with a block written over zeros, before and after. */
  lemma SpliceReals(r: CellRow, p: nat, part: Vec)
    requires p + |part| <= |r| && forall i :: p <= i < p + |part| ==> r[i] == Num(0.0)
    ensures Reals(Splice(r, p, Lift(part))) == Reals(r)[..p] + part + Reals(r)[p + |part|..]
    ensures Reals(r) == Reals(r)[..p] + Zeros(|part|) + Reals(r)[p + |part|..]
  {
    var b, want := Reals(Splice(r, p, Lift(part))), Reals(r)[..p] + part + Reals(r)[p + |part|..];
    forall i | 0 <= i < |b| ensures b[i] == want[i] {}
    var a, zeroed := Reals(r), Reals(r)[..p] + Zeros(|part|) + Reals(r)[p + |part|..];
    forall i | 0 <= i < |a| ensures a[i] == zeroed[i] {}
  }

  lemma DotConcat(a: Vec, b: Vec, u: Vec, v: Vec)
    requires |a| == |u| && |b| == |v|
    ensures Dot(a + b, u + v) == Dot(a, u) + Dot(b, v)
  {
    hide Dot;
    DotSplit(a + b, u + v, |a|);
    assert (a + b)[..|a|] == a && (a + b)[|a|..] == b && (u + v)[..|u|] == u && (u + v)[|u|..] == v;
  }

  /** A block in place of zeros adds its product. */
  lemma DotSpliced(a: Vec, part: Vec, b: Vec, u: Vec, v: Vec, w: Vec)
    requires |a| == |u| && |part| == |v| && |b| == |w|
    ensures Dot(a + part + b, u + v + w) == Dot(a + Zeros(|part|) + b, u + v + w) + Dot(part, v)
  {
    hide Dot;
    DotConcat(a + part, b, u + v, w);
    DotConcat(a + Zeros(|part|), b, u + v, w);
    DotConcat(a, part, u, v);
    DotConcat(a, Zeros(|part|), u, v);
    DotZero(Zeros(|part|), v);
  }

  lemma DotSplit3(a: Vec, d: Vec, p: nat, q: nat)
    requires |a| == |d| && p <= q <= |d|
    ensures Dot(a, d) == Dot(a[..p], d[..p]) + Dot(a[p..q], d[p..q]) + Dot(a[q..], d[q..])
  {
    DotSplit(a, d, q);
    DotSplit(a[..q], d[..q], p);
    assert a[..q][..p] == a[..p] && d[..q][..p] == d[..p];
    assert a[..q][p..] == a[p..q] && d[..q][p..] == d[p..q];
  }

  // ----- equality rows

  datatype EqRow = Pin(i: nat) | Dyn(node: nat, i: nat)

  predicate ValidEqRow(s: Dims, r: EqRow) {
    match r case Pin(i) => i < s.n case Dyn(node, i) => node < s.np && i < s.n
  }

  function EqIndex(s: Dims, r: EqRow): nat {
    match r case Pin(i) => i case Dyn(node, i) => DynRow(s, node, i)
  }

  /** Nodes past the control horizon reuse the last control block. */
  function HeldBlock(s: Dims, node: nat): nat
    requires s.nc > 0
  {
    if node < s.nc then node else s.nc - 1
  }

  /** What the equality filler writes into a row. */
  function FillEq(s: Dims, dt: real, a: Mat, b: Mat, r: EqRow, base: CellRow): (row: CellRow)
    requires ValidDims(s) && ValidEqRow(s, r) && |base| == Vars(s)
    requires r.Dyn? ==> IsMat(a, s.n, s.n) && IsMat(b, s.n, s.m)
    ensures |row| == Vars(s)
  {
    EqColumns(s, r);
    match r
    case Pin(i) => Splice(base, 0, Lift(Unit(s.n, i)))
    case Dyn(node, i) =>
      var withState := Splice(base, XCol(s, node, 0), Lift(a[i]));
      var withNext := Splice(withState, XCol(s, node + 1, 0), Lift(VScale(-1.0, Unit(s.n, i))));
      Splice(withNext, UCol(s, HeldBlock(s, node), 0), Lift(VScale(dt, b[i])))
  }

  lemma EqColumns(s: Dims, r: EqRow)
    requires ValidDims(s) && ValidEqRow(s, r)
    ensures s.n <= UStart(s) <= WStart(s) <= Vars(s)
    ensures r.Dyn? ==> XCol(s, r.node, 0) + s.n == XCol(s, r.node + 1, 0)
    ensures r.Dyn? ==> XCol(s, r.node + 1, 0) + s.n <= UStart(s)
    ensures r.Dyn? ==> UCol(s, HeldBlock(s, r.node), 0) + s.m <= WStart(s)
  {
    hide Times;
    TimesNext(0, s.n);
    TimesMono(1, s.np + 1, s.n);
    if r.Dyn? {
      TimesNext(r.node, s.n);
      TableCell(r.node + 1, s.np + 1, s.n, 0);
      TableCell(HeldBlock(s, r.node), s.nc, s.m, 0);
    }
  }

  /** The entries an equality row owns; they depend on sizes only. */
  predicate OwnsEq(s: Dims, r: EqRow, c: nat)
    requires ValidDims(s)
  {
    match r
    case Pin(i) => c < s.n
    case Dyn(node, i) =>
      || XCol(s, node, 0) <= c < XCol(s, node, 0) + s.n
      || XCol(s, node + 1, 0) <= c < XCol(s, node + 1, 0) + s.n
      || UCol(s, HeldBlock(s, node), 0) <= c < UCol(s, HeldBlock(s, node), 0) + s.m
  }

  /** The filler writes exactly the entries the row owns, with numbers that do not depend
      on what was there before, and touches nothing else. */
  lemma FillEqOwns(s: Dims, dt: real, a: Mat, b: Mat, r: EqRow, base: CellRow, other: CellRow)
    requires ValidDims(s) && ValidEqRow(s, r) && |base| == Vars(s) && |other| == Vars(s)
    requires r.Dyn? ==> IsMat(a, s.n, s.n) && IsMat(b, s.n, s.m)
    ensures forall c :: 0 <= c < Vars(s) ==>
      if OwnsEq(s, r, c) then FillEq(s, dt, a, b, r, base)[c].Num? && FillEq(s, dt, a, b, r, base)[c] == FillEq(s, dt, a, b, r, other)[c]
      else FillEq(s, dt, a, b, r, base)[c] == base[c]
  {
    hide Times, XCol, UCol, UStart, WStart, Vars;
    EqColumns(s, r);
  }

  function Fresh(s: Dims): (r: CellRow)
    ensures |r| == Vars(s)
  {
    Blank(Vars(s), Num(0.0))
  }

  /** The pinning rows of a fresh fill select the first state's increment. */
  lemma PinMeaning(s: Dims, dt: real, a: Mat, b: Mat, i: nat, d: Vec)
    requires ValidDims(s) && i < s.n && |d| == Vars(s)
    ensures Value(FillEq(s, dt, a, b, Pin(i), Fresh(s)), d) == d[XCol(s, 0, i)]
  {
    EqColumns(s, Pin(i));
    ValueBlank(d);
    ValueSplice(Fresh(s), 0, Unit(s.n, i), d);
    DotSingle(Unit(s.n, i), d[0..s.n], i);
    TimesNext(0, s.n);
  }

  /** The dynamics rows of a fresh fill are A dx_k - dx_(k+1) + dt B du_held. */
  lemma DynMeaning(s: Dims, dt: real, a: Mat, b: Mat, node: nat, i: nat, d: Vec)
    requires ValidDims(s) && node < s.np && i < s.n && |d| == Vars(s) && IsMat(a, s.n, s.n) && IsMat(b, s.n, s.m)
    ensures XCol(s, node, 0) + s.n <= |d| && UCol(s, HeldBlock(s, node), 0) + s.m <= |d| && XCol(s, node + 1, i) < |d|
    ensures Value(FillEq(s, dt, a, b, Dyn(node, i), Fresh(s)), d)
         == Dot(a[i], d[XCol(s, node, 0)..XCol(s, node, 0) + s.n]) - d[XCol(s, node + 1, i)]
          + Mul(dt, Dot(b[i], d[UCol(s, HeldBlock(s, node), 0)..UCol(s, HeldBlock(s, node), 0) + s.m]))
  {
    hide Times, UStart, WStart, Vars, Dot, Value, Mul;
    EqColumns(s, Dyn(node, i));
    var p, q, t := XCol(s, node, 0), XCol(s, node + 1, 0), UCol(s, HeldBlock(s, node), 0);
    var r0 := Fresh(s);
    var r1 := Splice(r0, p, Lift(a[i]));
    var r2 := Splice(r1, q, Lift(VScale(-1.0, Unit(s.n, i))));
    ValueBlank(d);
    ValueSplice(r0, p, a[i], d);
    ValueSplice(r1, q, VScale(-1.0, Unit(s.n, i)), d);
    ValueSplice(r2, t, VScale(dt, b[i]), d);
    NegUnit(s.n, i, d[q..q + s.n]);
    DotLeft(b[i], b[i], d[t..t + s.m], dt);
    assert d[q..q + s.n][i] == d[XCol(s, node + 1, i)];
  }

  lemma NegUnit(n: nat, i: nat, v: Vec)
    requires i < n == |v|
    ensures Dot(VScale(-1.0, Unit(n, i)), v) == -v[i]
  {
    DotSingle(VScale(-1.0, Unit(n, i)), v, i);
  }

  // ----- keep-out linearisation

  /** Guard against a zero normal. */
  const NORMAL_EPS := 0.000000001
  const FAR_SENTINEL := 1000000.0
  const MAX_OBS_SPEED := 10.0

  /** A half-plane linearisation of the distance to a point: the unit normal, the raw
      distance and the floored one. */
  datatype Half = Half(nx: real, ny: real, raw: real, dist: real)

  function Linearize(root: real -> real, dx: real, dy: real): Half {
    var raw := root(Norm2(dx, dy));
    if raw < NORMAL_EPS then Half(1.0, 0.0, raw, NORMAL_EPS)
    else Half(dx / raw, dy / raw, raw, raw)
  }

  predicate Filled(o: Disc) { o.x < 0.5 * FAR_SENTINEL }

  /** The obstacle of a slot at a node, in the flat (node, slot) order. */
  function DiscAt(s: Dims, obs: seq<Disc>, node: nat, slot: nat): Disc
    requires |obs| == Times(s.np, s.k) && node < s.np && slot < s.k
  {
    TableCell(node, s.np, s.k, slot);
    obs[Times(node, s.k) + slot]
  }

  /** Where the obstacle of a slot is at the time of the node before: the previous node's
      disc, or, at the first node, the backward extrapolation of the first two. */
  function DiscBefore(g: Config, obs: seq<Disc>, node: nat, slot: nat): Disc
    requires |obs| == Times(g.dims.np, g.dims.k) && node < g.dims.np && slot < g.dims.k
  {
    if node > 0 then DiscAt(g.dims, obs, node - 1, slot)
    else
      var o := DiscAt(g.dims, obs, 0, slot);
      if g.dims.np >= 2 then
        var o2 := DiscAt(g.dims, obs, 1, slot);
        var sx, sy := o.x - o2.x, o.y - o2.y;
        var step := MAX_OBS_SPEED * g.dt;
        if Filled(o2) && sx * sx + sy * sy <= step * step then Disc(o.x + sx, o.y + sy, o.clearance) else o
      else o
  }

  /** Whether the coupling compares the same obstacle at both ends. */
  predicate Coupled(g: Config, obs: seq<Disc>, node: nat, slot: nat)
    requires |obs| == Times(g.dims.np, g.dims.k) && node < g.dims.np && slot < g.dims.k
  {
    Filled(DiscAt(g.dims, obs, node, slot)) && Filled(DiscAt(g.dims, obs, if node > 0 then node - 1 else 0, slot))
  }

  /** Everything one keep-out row carries: its half-plane, the gradient on the previous
      node, and the two cached clearances. */
  datatype Keep = Keep(half: Half, gx: real, gy: real, h: real, hPrev: real)

  function KeepAt(g: Config, root: real -> real, x: seq<Vec>, obs: seq<Disc>, node: nat, slot: nat): Keep
    requires ValidConfig(g) && g.dims.obstacles && IsMat(x, g.dims.np + 1, g.dims.n)
    requires |obs| == Times(g.dims.np, g.dims.k) && node < g.dims.np && slot < g.dims.k
  {
    var o := DiscAt(g.dims, obs, node, slot);
    var half := Linearize(root, x[node + 1][g.px] - o.x, x[node + 1][g.py] - o.y);
    if g.gamma < 1.0 && Coupled(g, obs, node, slot) then
      var p := DiscBefore(g, obs, node, slot);
      var prev := Linearize(root, x[node][g.px] - p.x, x[node][g.py] - p.y);
      var gain := -(1.0 - g.gamma);
      Keep(half, Mul(gain, prev.nx), Mul(gain, prev.ny), half.dist - o.clearance, prev.raw - p.clearance)
    else
      Keep(half, 0.0, 0.0, half.dist - o.clearance, 0.0)
  }

  // ----- inequality rows

  /** What the inequality filler writes into a row. */
  function FillIneq(g: Config, keep: Keep, r: Row, base: CellRow): (row: CellRow)
    requires ValidConfig(g) && ValidRow(g.dims, r) && |base| == Vars(g.dims)
    ensures |row| == Vars(g.dims)
  {
    var s := g.dims;
    ColumnsFit(s);
    match r
    case FirstRate(j) => base[UCol(s, 0, g.bounds.du[j].idx) := Num(1.0)]
    case StateBox(j, node) => base[XCol(s, node, g.bounds.x[j].idx) := Num(1.0)]
    case ControlBox(j, block) => base[UCol(s, block, g.bounds.u[j].idx) := Num(1.0)]
    case RateChain(j, block) =>
      base[UCol(s, block, g.bounds.du[j].idx) := Num(-1.0)][UCol(s, block + 1, g.bounds.du[j].idx) := Num(1.0)]
    case KeepOut(node, slot) =>
      var row := base[XCol(s, node + 1, g.px) := Num(keep.half.nx)][XCol(s, node + 1, g.py) := Num(keep.half.ny)]
                     [WCol(s, node, slot) := Num(1.0)];
      if g.gamma < 1.0 && node > 0 then row[XCol(s, node, g.px) := Num(keep.gx)][XCol(s, node, g.py) := Num(keep.gy)] else row
    case SlackSign(node, slot) => base[WCol(s, node, slot) := Num(1.0)]
  }

  /** The entries an inequality row owns: sizes, declared bounds and whether gamma < 1. */
  predicate OwnsIneq(g: Config, r: Row, c: nat)
    requires ValidConfig(g) && ValidRow(g.dims, r)
  {
    var s := g.dims;
    match r
    case FirstRate(j) => c == UCol(s, 0, g.bounds.du[j].idx)
    case StateBox(j, node) => c == XCol(s, node, g.bounds.x[j].idx)
    case ControlBox(j, block) => c == UCol(s, block, g.bounds.u[j].idx)
    case RateChain(j, block) => c == UCol(s, block, g.bounds.du[j].idx) || c == UCol(s, block + 1, g.bounds.du[j].idx)
    case KeepOut(node, slot) =>
      || c == XCol(s, node + 1, g.px) || c == XCol(s, node + 1, g.py) || c == WCol(s, node, slot)
      || (g.gamma < 1.0 && node > 0 && (c == XCol(s, node, g.px) || c == XCol(s, node, g.py)))
    case SlackSign(node, slot) => c == WCol(s, node, slot)
  }

  lemma FillIneqOwns(g: Config, keep: Keep, r: Row, base: CellRow, other: CellRow)
    requires ValidConfig(g) && ValidRow(g.dims, r) && |base| == Vars(g.dims) && |other| == Vars(g.dims)
    ensures forall c :: 0 <= c < Vars(g.dims) ==>
      if OwnsIneq(g, r, c) then FillIneq(g, keep, r, base)[c].Num? && FillIneq(g, keep, r, base)[c] == FillIneq(g, keep, r, other)[c]
      else FillIneq(g, keep, r, base)[c] == base[c]
  {
    hide Times, XCol, UCol, WCol, UStart, WStart, Vars;
    ColumnsFit(g.dims);
    match r
    case FirstRate(j) =>
    case StateBox(j, node) =>
    case ControlBox(j, block) =>
    case RateChain(j, block) =>
    case KeepOut(node, slot) =>
    case SlackSign(node, slot) =>
  }
}
