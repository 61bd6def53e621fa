/** The fillers: loops that write the matrices and bound vectors of the program in place,
    each proved to leave every row as the row functions describe it. */
module QpAssembly {
  import opened Linear
  import opened QpLayout
  import opened QpRows
  import opened QpFeasible
  import opened QpFill
  import opened QpCost

  /** The entries a probe left as numbers, each marked with one. */
  method WrittenPattern(a: array<CellRow>, cols: nat) returns (pattern: map<(nat, nat), real>)
    requires forall i :: 0 <= i < a.Length ==> |a[i]| == cols
    ensures Written(a[..], pattern.Keys)
  {
    pattern := map[];
    for j := 0 to cols
      invariant forall i: nat, c: nat :: (i, c) in pattern <==> i < a.Length && c < j && a[i][c].Num?
    {
      for i := 0 to a.Length
        invariant forall r: nat, c: nat :: (r, c) in pattern <==> r < a.Length && (c < j || (c == j && r < i)) && a[r][c].Num?
      {
        if a[i][j].Num? {
          pattern := pattern[(i, j) := 1.0];
        }
      }
    }
  }

  /** Copy the dense values into a fixed structure, structural zeros included. */
  method WriteInto(pattern: map<(nat, nat), real>, a: array<CellRow>) returns (copy: map<(nat, nat), real>)
    requires forall i: nat, c: nat :: (i, c) in pattern ==> i < a.Length && c < |a[i]|
    ensures copy.Keys == pattern.Keys && Copied(copy, a[..])
  {
    copy := pattern;
    var todo := pattern.Keys;
    while todo != {}
      invariant todo <= pattern.Keys && copy.Keys == pattern.Keys
      invariant forall i: nat, c: nat :: (i, c) in pattern && (i, c) !in todo ==> copy[(i, c)] == Real(a[i][c])
    {
      var key :| key in todo;
      assert (key.0, key.1) == key;
      copy := copy[key := Real(a[key.0][key.1])];
      todo := todo - {key};
    }
  }

  lemma EqRowSplices(g: Config, dyn: Dynamics, it: Iterate, node: nat, i: nat, base: CellRow, a: Vec, b: Vec)
    requires ValidConfig(g) && DynamicsFit(g, dyn, it) && node < g.dims.np && i < g.dims.n && |base| == Vars(g.dims)
    requires IsMat(AOf(g, dyn, it, node), g.dims.n, g.dims.n) && IsMat(BOf(g, dyn, it, node), g.dims.n, g.dims.m)
    requires a == AOf(g, dyn, it, node)[i] && b == BOf(g, dyn, it, node)[i]
    ensures XCol(g.dims, node, 0) + g.dims.n <= |base| && XCol(g.dims, node + 1, 0) + g.dims.n <= |base|
    ensures UCol(g.dims, HeldBlock(g.dims, node), 0) + g.dims.m <= |base|
    ensures EqRowOf(g, dyn, it, Dyn(node, i), base)
         == Splice(Splice(Splice(base, XCol(g.dims, node, 0), Lift(a)), XCol(g.dims, node + 1, 0), Lift(VScale(-1.0, Unit(g.dims.n, i)))),
                   UCol(g.dims, HeldBlock(g.dims, node), 0), Lift(VScale(g.dt, b)))
  {
    hide Times, Splice, UStart, WStart, Vars;
    EqColumns(g.dims, Dyn(node, i));
  }

  /** The control column of a node, clamped to the last control block. */
  lemma ClampedColumn(s: Dims, node: nat)
    requires ValidDims(s) && node < s.np
    ensures WStart(s) >= s.m
    ensures var col, last := UStart(s) + Times(node, s.m), WStart(s) - s.m;
            (if col <= last then col else last) == UCol(s, HeldBlock(s, node), 0)
  {
    hide Times;
    TimesNext(s.nc - 1, s.m);
    if node < s.nc { TimesMono(node, s.nc - 1, s.m); } else { TimesMono(s.nc - 1, node, s.m); }
  }

  lemma NodeRows(s: Dims, node: nat, i: nat)
    requires ValidDims(s) && node < s.np && i < s.n
    ensures DynRow(s, node, i) < EqRows(s) && DynRow(s, node, s.n) == DynRow(s, node + 1, 0)
  {
    hide Times;
    TableCell(node, s.np, s.n, i);
    TimesNext(node, s.n);
  }

  /** Fill the equality matrix in place: the identity over the first state, then for each
      node the model's A, minus the identity, and dt B at the held control block. */
  method SetE(e: array<CellRow>, g: Config, dyn: Dynamics, it: Iterate)
    requires ValidConfig(g) && DynamicsFit(g, dyn, it) && Shaped(e[..], EqRows(g.dims), Vars(g.dims))
    modifies e
    ensures EqFilled(g, dyn, it, old(e[..]), e[..], EqRows(g.dims))
  {
    hide Times, UStart, WStart, Vars, EqRowOf, XCol, UCol, AOf, BOf, Splice;
    var s := g.dims;
    ghost var was := e[..];
    TimesNext(0, s.n);
    for i := 0 to s.n
      invariant EqFilled(g, dyn, it, was, e[..], i)
    {
      ghost var pre := e[..];
      EqRowAtIndex(s, Pin(i));
      PinSplice(g, dyn, it, i, pre[i]);
      e[i] := Splice(e[i], 0, Lift(Unit(s.n, i)));
      EqFillNext(g, dyn, it, was, pre, e[..], Pin(i));
    }
    for node := 0 to s.np
      invariant EqFilled(g, dyn, it, was, e[..], DynRow(s, node, 0))
    {
      WriteNode(e, g, dyn, it, node, was);
    }
  }

  /** The rows of one step: A at the node, minus the identity at the next one, and dt B at
      the control block the node holds. */
  method WriteNode(e: array<CellRow>, g: Config, dyn: Dynamics, it: Iterate, node: nat, ghost was: seq<CellRow>)
    requires ValidConfig(g) && DynamicsFit(g, dyn, it) && Shaped(was, EqRows(g.dims), Vars(g.dims)) && node < g.dims.np
    requires EqFilled(g, dyn, it, was, e[..], DynRow(g.dims, node, 0))
    modifies e
    ensures EqFilled(g, dyn, it, was, e[..], DynRow(g.dims, node + 1, 0))
  {
    hide Times, UStart, WStart, Vars, EqRowOf, XCol, UCol, AOf, BOf, Splice;
    var s := g.dims;
    assert FitAt(g, dyn, it, node);
    var a, b := AOf(g, dyn, it, node), BOf(g, dyn, it, node);
    ClampedColumn(s, node);
    var col, last := UStart(s) + Times(node, s.m), WStart(s) - s.m;
    var at := if col <= last then col else last;
    for i := 0 to s.n
      invariant EqFilled(g, dyn, it, was, e[..], DynRow(s, node, i))
    {
      ghost var pre := e[..];
      var r := DynRow(s, node, i);
      NodeRows(s, node, i);
      EqRowSplices(g, dyn, it, node, i, pre[r], a[i], b[i]);
      e[r] := Splice(e[r], XCol(s, node, 0), Lift(a[i]));
      e[r] := Splice(e[r], XCol(s, node + 1, 0), Lift(VScale(-1.0, Unit(s.n, i))));
      e[r] := Splice(e[r], at, Lift(VScale(g.dt, b[i])));
      EqFillNext(g, dyn, it, was, pre, e[..], Dyn(node, i));
    }
    NodeRows(s, node, 0);
  }

  lemma PinSplice(g: Config, dyn: Dynamics, it: Iterate, i: nat, base: CellRow)
    requires ValidConfig(g) && DynamicsFit(g, dyn, it) && i < g.dims.n && |base| == Vars(g.dims)
    ensures g.dims.n <= |base| && EqRowOf(g, dyn, it, Pin(i), base) == Splice(base, 0, Lift(Unit(g.dims.n, i)))
  {
    hide Times, Splice;
    EqColumns(g.dims, Pin(i));
  }

  /** The right-hand side of the dynamics rows; the pinned rows are never written. */
  method SetB(b: array<real>, g: Config, dyn: Dynamics, it: Iterate)
    requires ValidConfig(g) && Fits(g.dims, it) && ValidDynamics(g.dims, dyn) && b.Length == EqRows(g.dims)
    modifies b
    ensures forall i :: 0 <= i < g.dims.n ==> b[i] == old(b[i])
    ensures forall node: nat, i: nat {:trigger DynRow(g.dims, node, i)} :: node < g.dims.np && i < g.dims.n ==>
              DynRow(g.dims, node, i) < b.Length && b[DynRow(g.dims, node, i)] == EqTarget(g, dyn, it, Dyn(node, i))
  {
    hide Times, EqTarget;
    var s := g.dims;
    TimesNext(0, s.n);
    ghost var was := b[..];
    for node := 0 to s.np
      invariant forall i :: 0 <= i < s.n ==> b[i] == was[i]
      invariant forall k: nat, i: nat {:trigger DynRow(s, k, i)} :: k < node && i < s.n ==>
                  DynRow(s, k, i) < b.Length && b[DynRow(s, k, i)] == EqTarget(g, dyn, it, Dyn(k, i))
    {
      for i := 0 to s.n
        invariant forall j :: 0 <= j < s.n ==> b[j] == was[j]
        invariant forall k: nat, j: nat {:trigger DynRow(s, k, j)} :: (k < node && j < s.n) || (k == node && j < i) ==>
                    DynRow(s, k, j) < b.Length && b[DynRow(s, k, j)] == EqTarget(g, dyn, it, Dyn(k, j))
      {
        NodeRows(s, node, i);
        RowsApart(s, node, i);
        b[DynRow(s, node, i)] := EqTarget(g, dyn, it, Dyn(node, i));
      }
    }
  }

  /** A dynamics row differs from every other one. */
  lemma RowsApart(s: Dims, node: nat, i: nat)
    requires ValidDims(s) && node < s.np && i < s.n
    ensures DynRow(s, node, i) >= s.n
    ensures forall k: nat, j: nat {:trigger DynRow(s, k, j)} :: k < s.np && j < s.n && DynRow(s, k, j) == DynRow(s, node, i) ==> k == node && j == i
  {
    hide Times;
    forall k: nat, j: nat | k < s.np && j < s.n && DynRow(s, k, j) == DynRow(s, node, i) ensures k == node && j == i {
      CellUnique(k, j, node, i, s.n);
    }
  }

  // ----- the inequality matrix

  method SetFirstRate(c: array<CellRow>, g: Config, root: real -> real, obs: seq<Disc>, it: Iterate, ghost was: seq<CellRow>)
    requires ValidConfig(g) && Fits(g.dims, it) && |obs| == Slacks(g.dims) && Shaped(was, IneqRows(g.dims), Vars(g.dims))
    requires IneqFilled(g, root, obs, it, was, c[..], 0)
    modifies c
    ensures IneqFilled(g, root, obs, it, was, c[..], StateRows(g.dims))
  {
    hide Times, UStart, WStart, Vars, UCol, XCol, WCol;
    var s := g.dims;
    ColumnsFit(s);
    for j := 0 to s.ndu
      invariant IneqFilled(g, root, obs, it, was, c[..], j)
    {
      ghost var pre := c[..];
      RowInBlock(s, FirstRate(j));
      c[j] := c[j][UCol(s, 0, g.bounds.du[j].idx) := Num(1.0)];
      IneqFillNext(g, root, obs, it, was, pre, c[..], FirstRate(j));
    }
  }

  /** The accumulated index of a block is where the layout puts it. */
  lemma BlockBounds(s: Dims, idx: seq<nat>)
    requires ValidDims(s) && |idx| == Blocks(s) && forall b :: 0 <= b < |idx| ==> idx[b] == BlockStart(s, b)
    ensures forall j {:trigger idx[j]} :: 0 <= j <= s.nx ==> idx[j] == StateRows(s) + Times(j, s.np + 1)
    ensures forall j {:trigger Times(j, s.nc)} :: 0 <= j <= s.nu ==> idx[s.nx + j] == ControlRows(s) + Times(j, s.nc)
    ensures forall j {:trigger Times(j, s.nc - 1)} :: 0 <= j <= s.ndu ==> idx[s.nx + s.nu + j] == ChainRows(s) + Times(j, s.nc - 1)
    ensures s.obstacles ==> idx[s.nx + s.nu + s.ndu + 1] == SlackRows(s) && idx[s.nx + s.nu + s.ndu + 2] == IneqRows(s)
  {
    hide Times;
    TimesNext(0, s.nc);
    TimesNext(0, s.nc - 1);
    forall j {:trigger Times(j, s.nc)} | 0 <= j <= s.nu ensures idx[s.nx + j] == ControlRows(s) + Times(j, s.nc) {}
    forall j {:trigger Times(j, s.nc - 1)} | 0 <= j <= s.ndu ensures idx[s.nx + s.nu + j] == ChainRows(s) + Times(j, s.nc - 1) {}
    if s.obstacles { LastBlocks(s); }
  }

  lemma LastBlocks(s: Dims)
    requires ValidDims(s) && s.obstacles
    ensures var last := s.nx + s.nu + s.ndu;
            BlockStart(s, last + 1) == SlackRows(s) && BlockStart(s, last + 2) == IneqRows(s)
  {
    hide Times;
    TimesNext(1, Times(s.np, s.k));
  }

  method SetStateBoxes(c: array<CellRow>, g: Config, root: real -> real, obs: seq<Disc>, it: Iterate, idx: seq<nat>, ghost was: seq<CellRow>)
    requires ValidConfig(g) && Fits(g.dims, it) && |obs| == Slacks(g.dims) && Shaped(was, IneqRows(g.dims), Vars(g.dims))
    requires |idx| > g.dims.nx && forall j {:trigger idx[j]} :: 0 <= j <= g.dims.nx ==> idx[j] == StateRows(g.dims) + Times(j, g.dims.np + 1)
    requires IneqFilled(g, root, obs, it, was, c[..], StateRows(g.dims))
    modifies c
    ensures IneqFilled(g, root, obs, it, was, c[..], ControlRows(g.dims))
  {
    hide Times, UStart, WStart, Vars, UCol, XCol, WCol;
    var s := g.dims;
    ColumnsFit(s);
    TimesNext(0, s.np + 1);
    for j := 0 to s.nx
      invariant IneqFilled(g, root, obs, it, was, c[..], idx[j])
    {
      TimesNext(j, s.np + 1);
      assert idx[j + 1] == idx[j] + (s.np + 1);
      for l := idx[j] to idx[j + 1]
        invariant IneqFilled(g, root, obs, it, was, c[..], l)
      {
        ghost var pre := c[..];
        var node := l - idx[j];
        RowInBlock(s, StateBox(j, node));
        c[l] := c[l][XCol(s, node, g.bounds.x[j].idx) := Num(1.0)];
        IneqFillNext(g, root, obs, it, was, pre, c[..], StateBox(j, node));
      }
    }
  }

  method SetControlBoxes(c: array<CellRow>, g: Config, root: real -> real, obs: seq<Disc>, it: Iterate, idx: seq<nat>, ghost was: seq<CellRow>)
    requires ValidConfig(g) && Fits(g.dims, it) && |obs| == Slacks(g.dims) && Shaped(was, IneqRows(g.dims), Vars(g.dims))
    requires |idx| > g.dims.nu && forall j {:trigger idx[j]} :: 0 <= j <= g.dims.nu ==> idx[j] == ControlRows(g.dims) + Times(j, g.dims.nc)
    requires IneqFilled(g, root, obs, it, was, c[..], ControlRows(g.dims))
    modifies c
    ensures IneqFilled(g, root, obs, it, was, c[..], ChainRows(g.dims))
  {
    hide Times, UStart, WStart, Vars, UCol, XCol, WCol;
    var s := g.dims;
    ColumnsFit(s);
    TimesNext(0, s.nc);
    for j := 0 to s.nu
      invariant IneqFilled(g, root, obs, it, was, c[..], idx[j])
    {
      TimesNext(j, s.nc);
      assert idx[j + 1] == idx[j] + s.nc;
      for l := idx[j] to idx[j + 1]
        invariant IneqFilled(g, root, obs, it, was, c[..], l)
      {
        ghost var pre := c[..];
        var block := l - idx[j];
        RowInBlock(s, ControlBox(j, block));
        c[l] := c[l][UCol(s, block, g.bounds.u[j].idx) := Num(1.0)];
        IneqFillNext(g, root, obs, it, was, pre, c[..], ControlBox(j, block));
      }
    }
  }

  method SetRateChains(c: array<CellRow>, g: Config, root: real -> real, obs: seq<Disc>, it: Iterate, idx: seq<nat>, ghost was: seq<CellRow>)
    requires ValidConfig(g) && Fits(g.dims, it) && |obs| == Slacks(g.dims) && Shaped(was, IneqRows(g.dims), Vars(g.dims))
    requires |idx| > g.dims.ndu && forall j {:trigger idx[j]} :: 0 <= j <= g.dims.ndu ==> idx[j] == ChainRows(g.dims) + Times(j, g.dims.nc - 1)
    requires IneqFilled(g, root, obs, it, was, c[..], ChainRows(g.dims))
    modifies c
    ensures IneqFilled(g, root, obs, it, was, c[..], KeepOutRows(g.dims))
  {
    hide Times, UStart, WStart, Vars, UCol, XCol, WCol;
    var s := g.dims;
    ColumnsFit(s);
    TimesNext(0, s.nc - 1);
    for j := 0 to s.ndu
      invariant IneqFilled(g, root, obs, it, was, c[..], idx[j])
    {
      TimesNext(j, s.nc - 1);
      assert idx[j + 1] == idx[j] + (s.nc - 1);
      for l := idx[j] to idx[j + 1]
        invariant IneqFilled(g, root, obs, it, was, c[..], l)
      {
        ghost var pre := c[..];
        var block := l - idx[j];
        var at := g.bounds.du[j].idx;
        RowInBlock(s, RateChain(j, block));
        c[l] := c[l][UCol(s, block, at) := Num(-1.0)];
        c[l] := c[l][UCol(s, block + 1, at) := Num(1.0)];
        IneqFillNext(g, root, obs, it, was, pre, c[..], RateChain(j, block));
      }
    }
  }

  function Flat(s: Dims, node: nat, slot: nat): nat { Times(node, s.k) + slot }

  /** The clearances cached while filling, for the slots before `upto`. The coupled one is
      written only when gamma < 1. */
  ghost predicate Cached(g: Config, root: real -> real, obs: seq<Disc>, it: Iterate, h: seq<real>, hPrev: seq<real>, upto: nat)
    requires ValidConfig(g) && Fits(g.dims, it) && |obs| == Slacks(g.dims) && g.dims.obstacles
  {
    && |h| == Slacks(g.dims) && |hPrev| == Slacks(g.dims)
    && forall node: nat, slot: nat {:trigger Flat(g.dims, node, slot)} :: node < g.dims.np && slot < g.dims.k && Flat(g.dims, node, slot) < upto ==>
         && Flat(g.dims, node, slot) < |h|
         && h[Flat(g.dims, node, slot)] == KeepAt(g, root, it.x, obs, node, slot).h
         && (g.gamma < 1.0 ==> hPrev[Flat(g.dims, node, slot)] == KeepAt(g, root, it.x, obs, node, slot).hPrev)
  }

  lemma FlatSplit(s: Dims, at: nat) returns (node: nat, slot: nat)
    requires ValidDims(s) && s.obstacles && at < Slacks(s)
    ensures node == at / s.k && slot == at % s.k && node < s.np && slot < s.k && Flat(s, node, slot) == at
  {
    node, slot := at / s.k, at % s.k;
    assert at == Times(node, s.k) + slot;
    if node >= s.np { TimesMono(s.np, node, s.k); }
  }

  lemma FlatApart(s: Dims, node: nat, slot: nat)
    requires ValidDims(s) && node < s.np && slot < s.k
    ensures forall n': nat, t: nat {:trigger Flat(s, n', t)} :: n' < s.np && t < s.k && Flat(s, n', t) == Flat(s, node, slot) ==> n' == node && t == slot
  {
    hide Times;
    forall n': nat, t: nat | n' < s.np && t < s.k && Flat(s, n', t) == Flat(s, node, slot) ensures n' == node && t == slot {
      CellUnique(n', t, node, slot, s.k);
    }
  }

  lemma CacheNext(g: Config, root: real -> real, obs: seq<Disc>, it: Iterate, h: seq<real>, hPrev: seq<real>, h': seq<real>, hPrev': seq<real>, node: nat, slot: nat)
    requires ValidConfig(g) && Fits(g.dims, it) && |obs| == Slacks(g.dims) && g.dims.obstacles && node < g.dims.np && slot < g.dims.k
    requires Cached(g, root, obs, it, h, hPrev, Flat(g.dims, node, slot)) && Flat(g.dims, node, slot) < |h|
    requires h' == h[Flat(g.dims, node, slot) := KeepAt(g, root, it.x, obs, node, slot).h]
    requires hPrev' == if g.gamma < 1.0 then hPrev[Flat(g.dims, node, slot) := KeepAt(g, root, it.x, obs, node, slot).hPrev] else hPrev
    ensures Cached(g, root, obs, it, h', hPrev', Flat(g.dims, node, slot) + 1)
  {
    hide KeepAt, Times, Flat;
    FlatApart(g.dims, node, slot);
  }

  /** The coefficients of one keep-out row; the gradient on the node before is written only
      where it is not inert. */
  method WriteKeepOut(c: array<CellRow>, r: nat, g: Config, root: real -> real, obs: seq<Disc>, it: Iterate, node: nat, slot: nat, keep: Keep)
    requires ValidConfig(g) && Fits(g.dims, it) && |obs| == Slacks(g.dims) && g.dims.obstacles && node < g.dims.np && slot < g.dims.k
    requires r < c.Length && |c[r]| == Vars(g.dims) && keep == KeepAt(g, root, it.x, obs, node, slot)
    modifies c
    ensures c[..] == old(c[..])[r := IneqRowOf(g, root, obs, it, KeepOut(node, slot), old(c[r]))]
  {
    hide Times, UStart, WStart, Vars, UCol, XCol, WCol, KeepAt, Slacks;
    var s := g.dims;
    ColumnsFit(s);
    c[r] := c[r][XCol(s, node + 1, g.px) := Num(keep.half.nx)];
    c[r] := c[r][XCol(s, node + 1, g.py) := Num(keep.half.ny)];
    c[r] := c[r][WCol(s, node, slot) := Num(1.0)];
    if g.gamma < 1.0 && node >= 1 {
      c[r] := c[r][XCol(s, node, g.px) := Num(keep.gx)];
      c[r] := c[r][XCol(s, node, g.py) := Num(keep.gy)];
    }
  }

  /** Fill the keep-out rows and cache the two clearances each of them compares. */
  method SetKeepOut(c: array<CellRow>, h: array<real>, hPrev: array<real>, g: Config, root: real -> real, obs: seq<Disc>, it: Iterate,
                    from: nat, to: nat, ghost was: seq<CellRow>)
    requires ValidConfig(g) && Fits(g.dims, it) && |obs| == Slacks(g.dims) && Shaped(was, IneqRows(g.dims), Vars(g.dims)) && g.dims.obstacles
    requires from == KeepOutRows(g.dims) && to == SlackRows(g.dims) && IneqFilled(g, root, obs, it, was, c[..], from)
    requires h.Length == Slacks(g.dims) && hPrev.Length == Slacks(g.dims) && h != hPrev
    modifies c, h, hPrev
    ensures IneqFilled(g, root, obs, it, was, c[..], to)
    ensures Cached(g, root, obs, it, h[..], hPrev[..], Slacks(g.dims))
    ensures g.gamma == 1.0 ==> hPrev[..] == old(hPrev[..])
  {
    hide Times, UStart, WStart, Vars, UCol, XCol, WCol, KeepAt, Slacks, FillIneq;
    var s := g.dims;
    assert to == from + Slacks(s) by { SlackCount(s); }
    for r := from to to
      invariant IneqFilled(g, root, obs, it, was, c[..], r)
      invariant Cached(g, root, obs, it, h[..], hPrev[..], r - from)
      invariant g.gamma == 1.0 ==> hPrev[..] == old(hPrev[..])
    {
      ghost var pre, preH, preHPrev := c[..], h[..], hPrev[..];
      var at := r - from;
      var node, slot := at / s.k, at % s.k;
      ghost var node', slot' := FlatSplit(s, at);
      var keep := KeepAt(g, root, it.x, obs, node, slot);
      RowInBlock(s, KeepOut(node, slot));
      WriteKeepOut(c, r, g, root, obs, it, node, slot, keep);
      h[at] := keep.h;
      if g.gamma < 1.0 { hPrev[at] := keep.hPrev; }
      IneqFillNext(g, root, obs, it, was, pre, c[..], KeepOut(node, slot));
      CacheNext(g, root, obs, it, preH, preHPrev, h[..], hPrev[..], node, slot);
    }
  }

  lemma SlackCount(s: Dims)
    requires ValidDims(s) && s.obstacles
    ensures SlackRows(s) == KeepOutRows(s) + Slacks(s) && IneqRows(s) == SlackRows(s) + Slacks(s)
  {
  }

  method SetSlackSigns(c: array<CellRow>, g: Config, root: real -> real, obs: seq<Disc>, it: Iterate, from: nat, to: nat, ghost was: seq<CellRow>)
    requires ValidConfig(g) && Fits(g.dims, it) && |obs| == Slacks(g.dims) && Shaped(was, IneqRows(g.dims), Vars(g.dims)) && g.dims.obstacles
    requires from == SlackRows(g.dims) && to == IneqRows(g.dims) && IneqFilled(g, root, obs, it, was, c[..], from)
    modifies c
    ensures IneqFilled(g, root, obs, it, was, c[..], to)
  {
    hide Times, UStart, WStart, Vars, UCol, XCol, Slacks;
    var s := g.dims;
    ColumnsFit(s);
    SlackCount(s);
    for r := from to to
      invariant IneqFilled(g, root, obs, it, was, c[..], r)
    {
      ghost var pre := c[..];
      var at := r - from;
      ghost var node, slot := FlatSplit(s, at);
      RowInBlock(s, SlackSign(node, slot));
      assert WCol(s, node, slot) == WStart(s) + at < Vars(s);
      c[r] := c[r][WStart(s) + at := Num(1.0)];
      IneqFillNext(g, root, obs, it, was, pre, c[..], SlackSign(node, slot));
    }
  }

  /** Fill the inequality matrix in place, block after block along the accumulated index. */
  method SetC(c: array<CellRow>, h: array<real>, hPrev: array<real>, g: Config, root: real -> real, obs: seq<Disc>, it: Iterate, idx: seq<nat>)
    requires ValidConfig(g) && Fits(g.dims, it) && |obs| == Slacks(g.dims) && Shaped(c[..], IneqRows(g.dims), Vars(g.dims))
    requires |idx| == Blocks(g.dims) && forall b :: 0 <= b < |idx| ==> idx[b] == BlockStart(g.dims, b)
    requires h.Length == Slacks(g.dims) && hPrev.Length == Slacks(g.dims) && h != hPrev
    modifies c, h, hPrev
    ensures IneqFilled(g, root, obs, it, old(c[..]), c[..], IneqRows(g.dims))
    ensures g.dims.obstacles ==> Cached(g, root, obs, it, h[..], hPrev[..], Slacks(g.dims))
    ensures g.gamma == 1.0 ==> hPrev[..] == old(hPrev[..])
  {
    hide Times, Vars, KeepAt, Slacks, IneqRowOf, Cached, StateRows, ControlRows, ChainRows;
    var s := g.dims;
    ghost var was := c[..];
    var controls, chains := s.nx, s.nx + s.nu;
    BlockBounds(s, idx);
    SetFirstRate(c, g, root, obs, it, was);
    SetStateBoxes(c, g, root, obs, it, idx, was);
    forall j {:trigger idx[controls..][j]} | 0 <= j <= s.nu ensures idx[controls..][j] == ControlRows(s) + Times(j, s.nc) {}
    SetControlBoxes(c, g, root, obs, it, idx[controls..], was);
    forall j {:trigger idx[chains..][j]} | 0 <= j <= s.ndu ensures idx[chains..][j] == ChainRows(s) + Times(j, s.nc - 1) {}
    SetRateChains(c, g, root, obs, it, idx[chains..], was);
    if s.obstacles {
      var last := chains + s.ndu;
      TimesNext(s.ndu, s.nc - 1);
      SetKeepOut(c, h, hPrev, g, root, obs, it, idx[last], idx[last + 1], was);
      SetSlackSigns(c, g, root, obs, it, idx[last + 1], idx[last + 2], was);
    }
  }

  // ----- the bounds

  /** The bounds of the rows before `upto` are in place. */
  ghost predicate Bounded(g: Config, root: real -> real, obs: seq<Disc>, it: Iterate, applied: Vec, low: seq<real>, upp: seq<Upper>, upto: nat)
    requires ValidConfig(g) && Fits(g.dims, it) && |obs| == Slacks(g.dims) && |applied| == g.dims.m
  {
    && |low| == IneqRows(g.dims) && |upp| == IneqRows(g.dims)
    && (forall i {:trigger low[i]} :: 0 <= i < |low| && i < upto ==>
          low[i] == LowOf(g, KeepOf(g, root, obs, it, RowAt(g.dims, i)), it, applied, RowAt(g.dims, i)))
    && (forall i {:trigger upp[i]} :: 0 <= i < |upp| && i < upto ==> upp[i] == UppOf(g, it, applied, RowAt(g.dims, i)))
  }

  lemma BoundNext(g: Config, root: real -> real, obs: seq<Disc>, it: Iterate, applied: Vec, low: seq<real>, upp: seq<Upper>, low': seq<real>, upp': seq<Upper>, r: Row)
    requires ValidConfig(g) && Fits(g.dims, it) && |obs| == Slacks(g.dims) && |applied| == g.dims.m && ValidRow(g.dims, r)
    requires Bounded(g, root, obs, it, applied, low, upp, RowIndex(g.dims, r))
    requires RowIndex(g.dims, r) < |low| && RowIndex(g.dims, r) < |upp|
    requires low' == low[RowIndex(g.dims, r) := LowOf(g, KeepOf(g, root, obs, it, r), it, applied, r)]
    requires upp' == upp[RowIndex(g.dims, r) := UppOf(g, it, applied, r)]
    ensures Bounded(g, root, obs, it, applied, low', upp', RowIndex(g.dims, r) + 1)
  {
    hide Times, KeepOf, LowOf, UppOf, Slacks, RowIndex, IneqRows;
    RowAtIndex(g.dims, r);
  }

  method SetBoxBounds(low: array<real>, upp: array<Upper>, g: Config, root: real -> real, obs: seq<Disc>, it: Iterate, applied: Vec, idx: seq<nat>)
    requires ValidConfig(g) && Fits(g.dims, it) && |obs| == Slacks(g.dims) && |applied| == g.dims.m
    requires low.Length == IneqRows(g.dims) && upp.Length == IneqRows(g.dims)
    requires |idx| > g.dims.nx && forall j {:trigger idx[j]} :: 0 <= j <= g.dims.nx ==> idx[j] == StateRows(g.dims) + Times(j, g.dims.np + 1)
    modifies low, upp
    ensures Bounded(g, root, obs, it, applied, low[..], upp[..], ControlRows(g.dims))
  {
    hide Times, Slacks, KeepOf, IneqRows, Mul;
    var s := g.dims;
    for j := 0 to s.ndu
      invariant Bounded(g, root, obs, it, applied, low[..], upp[..], j)
    {
      ghost var was, wasUpp := low[..], upp[..];
      var b := g.bounds.du[j];
      RowInBlock(s, FirstRate(j));
      low[j] := Mul(b.low, g.dt) + applied[b.idx] - it.u[0][b.idx];
      upp[j] := Finite(Mul(b.upp, g.dt) + applied[b.idx] - it.u[0][b.idx]);
      BoundNext(g, root, obs, it, applied, was, wasUpp, low[..], upp[..], FirstRate(j));
    }
    TimesNext(0, s.np + 1);
    for j := 0 to s.nx
      invariant Bounded(g, root, obs, it, applied, low[..], upp[..], idx[j])
    {
      TimesNext(j, s.np + 1);
      assert idx[j + 1] == idx[j] + (s.np + 1);
      for l := idx[j] to idx[j + 1]
        invariant Bounded(g, root, obs, it, applied, low[..], upp[..], l)
      {
        ghost var was, wasUpp := low[..], upp[..];
        var b, row := g.bounds.x[j], l - idx[j];
        RowInBlock(s, StateBox(j, row));
        low[l] := b.low - it.x[row][b.idx];
        upp[l] := Finite(b.upp - it.x[row][b.idx]);
        BoundNext(g, root, obs, it, applied, was, wasUpp, low[..], upp[..], StateBox(j, row));
      }
    }
  }

  method SetControlBounds(low: array<real>, upp: array<Upper>, g: Config, root: real -> real, obs: seq<Disc>, it: Iterate, applied: Vec, idx: seq<nat>)
    requires ValidConfig(g) && Fits(g.dims, it) && |obs| == Slacks(g.dims) && |applied| == g.dims.m
    requires low.Length == IneqRows(g.dims) && upp.Length == IneqRows(g.dims)
    requires |idx| > g.dims.nu && forall j {:trigger idx[j]} :: 0 <= j <= g.dims.nu ==> idx[j] == ControlRows(g.dims) + Times(j, g.dims.nc)
    requires Bounded(g, root, obs, it, applied, low[..], upp[..], ControlRows(g.dims))
    modifies low, upp
    ensures Bounded(g, root, obs, it, applied, low[..], upp[..], ChainRows(g.dims))
  {
    hide Times, Slacks, KeepOf, IneqRows, Mul;
    var s := g.dims;
    TimesNext(0, s.nc);
    for j := 0 to s.nu
      invariant Bounded(g, root, obs, it, applied, low[..], upp[..], idx[j])
    {
      TimesNext(j, s.nc);
      assert idx[j + 1] == idx[j] + s.nc;
      for l := idx[j] to idx[j + 1]
        invariant Bounded(g, root, obs, it, applied, low[..], upp[..], l)
      {
        ghost var was, wasUpp := low[..], upp[..];
        var b, row := g.bounds.u[j], l - idx[j];
        RowInBlock(s, ControlBox(j, row));
        low[l] := b.low - it.u[row][b.idx];
        upp[l] := Finite(b.upp - it.u[row][b.idx]);
        BoundNext(g, root, obs, it, applied, was, wasUpp, low[..], upp[..], ControlBox(j, row));
      }
    }
  }

  lemma ChainBound(g: Config, it: Iterate, applied: Vec, keep: Keep, j: nat, row: nat)
    requires ValidConfig(g) && Fits(g.dims, it) && |applied| == g.dims.m && ValidRow(g.dims, RateChain(j, row))
    ensures var b := g.bounds.du[j];
            && LowOf(g, keep, it, applied, RateChain(j, row)) == Mul(b.low, g.dt) - it.u[row + 1][b.idx] + it.u[row][b.idx]
            && UppOf(g, it, applied, RateChain(j, row)) == Finite(Mul(b.upp, g.dt) - it.u[row + 1][b.idx] + it.u[row][b.idx])
  {
  }

  method SetChainBounds(low: array<real>, upp: array<Upper>, g: Config, root: real -> real, obs: seq<Disc>, it: Iterate, applied: Vec, idx: seq<nat>)
    requires ValidConfig(g) && Fits(g.dims, it) && |obs| == Slacks(g.dims) && |applied| == g.dims.m
    requires low.Length == IneqRows(g.dims) && upp.Length == IneqRows(g.dims)
    requires |idx| > g.dims.ndu && forall j {:trigger idx[j]} :: 0 <= j <= g.dims.ndu ==> idx[j] == ChainRows(g.dims) + Times(j, g.dims.nc - 1)
    requires Bounded(g, root, obs, it, applied, low[..], upp[..], ChainRows(g.dims))
    modifies low, upp
    ensures Bounded(g, root, obs, it, applied, low[..], upp[..], KeepOutRows(g.dims))
  {
    hide Times, Slacks, KeepOf, IneqRows, Mul, LowOf, UppOf;
    var s := g.dims;
    TimesNext(0, s.nc - 1);
    for j := 0 to s.ndu
      invariant Bounded(g, root, obs, it, applied, low[..], upp[..], idx[j])
    {
      TimesNext(j, s.nc - 1);
      assert idx[j + 1] == idx[j] + (s.nc - 1);
      for l := idx[j] to idx[j + 1]
        invariant Bounded(g, root, obs, it, applied, low[..], upp[..], l)
      {
        ghost var was, wasUpp := low[..], upp[..];
        var b, row := g.bounds.du[j], l - idx[j];
        RowInBlock(s, RateChain(j, row));
        ChainBound(g, it, applied, KeepOf(g, root, obs, it, RateChain(j, row)), j, row);
        low[l] := Mul(b.low, g.dt) - it.u[row + 1][b.idx] + it.u[row][b.idx];
        upp[l] := Finite(Mul(b.upp, g.dt) - it.u[row + 1][b.idx] + it.u[row][b.idx]);
        BoundNext(g, root, obs, it, applied, was, wasUpp, low[..], upp[..], RateChain(j, row));
      }
    }
  }

  /** The bounds of the keep-out rows, from the clearances cached by the matrix filler. */
  method SetKeepOutBounds(low: array<real>, upp: array<Upper>, h: array<real>, hPrev: array<real>, g: Config, root: real -> real,
                          obs: seq<Disc>, it: Iterate, applied: Vec, from: nat, to: nat)
    requires ValidConfig(g) && Fits(g.dims, it) && |obs| == Slacks(g.dims) && |applied| == g.dims.m && g.dims.obstacles
    requires low.Length == IneqRows(g.dims) && upp.Length == IneqRows(g.dims)
    requires low != h && low != hPrev && Cached(g, root, obs, it, h[..], hPrev[..], Slacks(g.dims))
    requires from == KeepOutRows(g.dims) && to == SlackRows(g.dims)
    requires Bounded(g, root, obs, it, applied, low[..], upp[..], from)
    modifies low, upp
    ensures Bounded(g, root, obs, it, applied, low[..], upp[..], to)
  {
    hide Times, Slacks, KeepAt, IneqRows, Mul;
    var s := g.dims;
    SlackCount(s);
    for r := from to to
      invariant Bounded(g, root, obs, it, applied, low[..], upp[..], r)
    {
      ghost var was, wasUpp := low[..], upp[..];
      var at := r - from;
      ghost var node, slot := FlatSplit(s, at);
      KeepOutLow(g, root, obs, it, applied, h[..], hPrev[..], node, slot);
      low[r] := Mul(1.0 - g.gamma, hPrev[at]) - h[at] - it.w[at];
      upp[r] := Unbounded;
      BoundNext(g, root, obs, it, applied, was, wasUpp, low[..], upp[..], KeepOut(node, slot));
    }
  }

  lemma KeepOutLow(g: Config, root: real -> real, obs: seq<Disc>, it: Iterate, applied: Vec, h: seq<real>, hPrev: seq<real>, node: nat, slot: nat)
    requires ValidConfig(g) && Fits(g.dims, it) && |obs| == Slacks(g.dims) && |applied| == g.dims.m && g.dims.obstacles
    requires node < g.dims.np && slot < g.dims.k && Cached(g, root, obs, it, h, hPrev, Slacks(g.dims)) && Flat(g.dims, node, slot) < Slacks(g.dims)
    ensures RowIndex(g.dims, KeepOut(node, slot)) == KeepOutRows(g.dims) + Flat(g.dims, node, slot) < IneqRows(g.dims)
    ensures var at := Flat(g.dims, node, slot);
            LowOf(g, KeepOf(g, root, obs, it, KeepOut(node, slot)), it, applied, KeepOut(node, slot)) == Mul(1.0 - g.gamma, hPrev[at]) - h[at] - it.w[at]
    ensures UppOf(g, it, applied, KeepOut(node, slot)) == Unbounded
  {
    hide Times, KeepAt, IneqRows, Mul;
    RowInBlock(g.dims, KeepOut(node, slot));
    Uncoupled(g, hPrev[Flat(g.dims, node, slot)], KeepAt(g, root, it.x, obs, node, slot).hPrev);
  }

  method SetSlackBounds(low: array<real>, upp: array<Upper>, g: Config, root: real -> real, obs: seq<Disc>, it: Iterate, applied: Vec, from: nat, to: nat)
    requires ValidConfig(g) && Fits(g.dims, it) && |obs| == Slacks(g.dims) && |applied| == g.dims.m && g.dims.obstacles
    requires low.Length == IneqRows(g.dims) && upp.Length == IneqRows(g.dims)
    requires from == SlackRows(g.dims) && to == IneqRows(g.dims) && Bounded(g, root, obs, it, applied, low[..], upp[..], from)
    modifies low, upp
    ensures Bounded(g, root, obs, it, applied, low[..], upp[..], to)
  {
    hide Times, Slacks, KeepOf, IneqRows, Mul;
    var s := g.dims;
    SlackCount(s);
    for r := from to to
      invariant Bounded(g, root, obs, it, applied, low[..], upp[..], r)
    {
      ghost var was, wasUpp := low[..], upp[..];
      var at := r - from;
      ghost var node, slot := FlatSplit(s, at);
      RowInBlock(s, SlackSign(node, slot));
      low[r] := -it.w[at];
      upp[r] := Unbounded;
      assert SlackAt(s, it.w, node, slot) == it.w[at];
      BoundNext(g, root, obs, it, applied, was, wasUpp, low[..], upp[..], SlackSign(node, slot));
    }
  }

  lemma Uncoupled(g: Config, a: real, b: real)
    requires ValidConfig(g) && (g.gamma < 1.0 ==> a == b)
    ensures Mul(1.0 - g.gamma, a) == Mul(1.0 - g.gamma, b)
  {
  }

  method SetD(low: array<real>, upp: array<Upper>, h: array<real>, hPrev: array<real>, g: Config, root: real -> real,
              obs: seq<Disc>, it: Iterate, applied: Vec, idx: seq<nat>)
    requires ValidConfig(g) && Fits(g.dims, it) && |obs| == Slacks(g.dims) && |applied| == g.dims.m
    requires low.Length == IneqRows(g.dims) && upp.Length == IneqRows(g.dims)
    requires |idx| == Blocks(g.dims) && forall b :: 0 <= b < |idx| ==> idx[b] == BlockStart(g.dims, b)
    requires low != h && low != hPrev && (g.dims.obstacles ==> Cached(g, root, obs, it, h[..], hPrev[..], Slacks(g.dims)))
    modifies low, upp
    ensures Bounded(g, root, obs, it, applied, low[..], upp[..], IneqRows(g.dims))
  {
    hide Times, Slacks, KeepOf, Mul, LowOf, UppOf, Bounded, Cached, StateRows, ControlRows, ChainRows;
    var s := g.dims;
    var controls, chains := s.nx, s.nx + s.nu;
    BlockBounds(s, idx);
    SetBoxBounds(low, upp, g, root, obs, it, applied, idx);
    forall j {:trigger idx[controls..][j]} | 0 <= j <= s.nu ensures idx[controls..][j] == ControlRows(s) + Times(j, s.nc) {}
    SetControlBounds(low, upp, g, root, obs, it, applied, idx[controls..]);
    forall j {:trigger idx[chains..][j]} | 0 <= j <= s.ndu ensures idx[chains..][j] == ChainRows(s) + Times(j, s.nc - 1) {}
    SetChainBounds(low, upp, g, root, obs, it, applied, idx[chains..]);
    if s.obstacles {
      var last := chains + s.ndu;
      TimesNext(s.ndu, s.nc - 1);
      SetKeepOutBounds(low, upp, h, hPrev, g, root, obs, it, applied, idx[last], idx[last + 1]);
      SetSlackBounds(low, upp, g, root, obs, it, applied, idx[last + 1], idx[last + 2]);
    }
  }

  // ----- the objective

  lemma VarsDistinct(s: Dims, p: Var, q: Var)
    requires ValidDims(s) && ValidVar(s, p) && ValidVar(s, q) && VarCol(s, p) == VarCol(s, q)
    ensures p == q
  {
    hide Times;
    ColumnsFit(s);
    match p
    case XVar(node, i) => if q.XVar? { CellUnique(node, i, q.node, q.i, s.n); } else { VarInBlock(s, p); VarInBlock(s, q); }
    case UVar(block, i) => if q.UVar? { CellUnique(block, i, q.block, q.i, s.m); } else { VarInBlock(s, p); VarInBlock(s, q); }
    case WVar(at) => VarInBlock(s, q);
  }

  lemma VarInBlock(s: Dims, v: Var)
    requires ValidDims(s) && ValidVar(s, v)
    ensures v.XVar? ==> VarCol(s, v) < UStart(s)
    ensures v.UVar? ==> UStart(s) <= VarCol(s, v) < WStart(s)
    ensures v.WVar? ==> WStart(s) <= VarCol(s, v) < Vars(s)
  {
    hide Times;
    match v
    case XVar(node, i) => TableCell(node, s.np + 1, s.n, i);
    case UVar(block, i) => TableCell(block, s.nc, s.m, i);
    case WVar(at) =>
  }

  /** The Hessian rows before `upto` are in place and the others still zero. */
  ghost predicate HessianTo(s: Dims, wt: Weights, h: Mat, upto: nat)
    requires ValidDims(s) && FitWeights(s, wt)
  {
    && |h| == Vars(s)
    && (forall i {:trigger h[i]} :: upto <= i < |h| ==> h[i] == Zeros(Vars(s)))
    && (forall v: Var {:trigger ValidVar(s, v)} :: ValidVar(s, v) && VarCol(s, v) < upto ==> HasRow(s, wt, h, v))
  }

  lemma HessianNext(s: Dims, wt: Weights, pre: Mat, now: Mat, v: Var)
    requires ValidDims(s) && FitWeights(s, wt) && ValidVar(s, v) && HessianTo(s, wt, pre, VarCol(s, v)) && VarCol(s, v) < |pre|
    requires now == pre[VarCol(s, v) := HessianRow(s, wt, v)]
    ensures HessianTo(s, wt, now, VarCol(s, v) + 1)
  {
    hide Times, HessianRow, VarCol, Vars;
    forall q: Var {:trigger ValidVar(s, q)} | ValidVar(s, q) && VarCol(s, q) < VarCol(s, v) + 1 ensures HasRow(s, wt, now, q) {
      VarFits(s, q);
      if VarCol(s, q) == VarCol(s, v) { VarsDistinct(s, q, v); } else { assert HasRow(s, wt, pre, q); }
    }
  }

  /** The last variable of a block ends where the next block starts. */
  lemma VarBlocks(s: Dims, node: nat, block: nat)
    requires ValidDims(s)
    ensures XCol(s, 0, 0) == 0 && XCol(s, node, s.n) == XCol(s, node + 1, 0) && XCol(s, s.np + 1, 0) == UStart(s)
    ensures UCol(s, 0, 0) == UStart(s) && UCol(s, block, s.m) == UCol(s, block + 1, 0) && UCol(s, s.nc, 0) == WStart(s)
  {
    hide Times;
    TimesNext(node, s.n);
    TimesNext(block, s.m);
    TimesNext(0, s.n);
    TimesNext(0, s.m);
  }

  /** The rows of one diagonal state block. */
  method WriteStateBlock(h: array<Vec>, s: Dims, wt: Weights, node: nat, m: Mat)
    requires ValidDims(s) && FitWeights(s, wt) && node < s.np + 1 && m == NodeWeight(s, wt, node)
    requires HessianTo(s, wt, h[..], XCol(s, node, 0))
    modifies h
    ensures HessianTo(s, wt, h[..], XCol(s, node + 1, 0))
  {
    hide Times, Vars, UStart, WStart;
    for i := 0 to s.n
      invariant HessianTo(s, wt, h[..], XCol(s, node, i))
    {
      ghost var pre := h[..];
      VarFits(s, XVar(node, i));
      h[XCol(s, node, i)] := Splice(h[XCol(s, node, i)], XCol(s, node, 0), VScale(2.0, m[i]));
      HessianNext(s, wt, pre, h[..], XVar(node, i));
    }
    VarBlocks(s, node, 0);
  }

  method WriteControlBlock(h: array<Vec>, s: Dims, wt: Weights, block: nat)
    requires ValidDims(s) && FitWeights(s, wt) && block < s.nc && HessianTo(s, wt, h[..], UCol(s, block, 0))
    modifies h
    ensures HessianTo(s, wt, h[..], UCol(s, block + 1, 0))
  {
    hide Times, Vars, UStart, WStart;
    for i := 0 to s.m
      invariant HessianTo(s, wt, h[..], UCol(s, block, i))
    {
      ghost var pre := h[..];
      VarFits(s, UVar(block, i));
      h[UCol(s, block, i)] := Splice(h[UCol(s, block, i)], UCol(s, block, 0), VScale(2.0, wt.r[i]));
      HessianNext(s, wt, pre, h[..], UVar(block, i));
    }
    VarBlocks(s, 0, block);
  }

  /** Fill the Hessian from zero: the weights down the diagonal, the terminal weight on the
      last node, every control block and every slack. */
  method SetH(h: array<Vec>, s: Dims, wt: Weights)
    requires ValidDims(s) && FitWeights(s, wt) && h.Length == Vars(s) && forall i {:trigger h[i]} :: 0 <= i < h.Length ==> h[i] == Zeros(Vars(s))
    modifies h
    ensures IsHessian(s, wt, h[..])
  {
    hide Times, Vars, UStart, WStart, HessianTo, XCol, UCol;
    VarBlocks(s, 0, 0);
    HessianStart(s, wt, h[..]);
    for node := 0 to s.np
      invariant HessianTo(s, wt, h[..], XCol(s, node, 0))
    {
      WriteStateBlock(h, s, wt, node, wt.q);
    }
    WriteStateBlock(h, s, wt, s.np, wt.s);
    for block := 0 to s.nc
      invariant HessianTo(s, wt, h[..], UCol(s, block, 0))
    {
      WriteControlBlock(h, s, wt, block);
    }
    SlackStart(s);
    for at := 0 to Slacks(s)
      invariant HessianTo(s, wt, h[..], WStart(s) + at)
    {
      ghost var pre := h[..];
      VarFits(s, WVar(at));
      HessianZero(s, wt, h[..], WStart(s) + at);
      h[WStart(s) + at] := Splice(h[WStart(s) + at], WStart(s) + at, [Mul(2.0, wt.w)]);
      HessianNext(s, wt, pre, h[..], WVar(at));
    }
    HessianDone(s, wt, h[..]);
  }

  lemma SlackStart(s: Dims)
    ensures Vars(s) == WStart(s) + Slacks(s)
  {
  }

  lemma HessianStart(s: Dims, wt: Weights, h: Mat)
    requires ValidDims(s) && FitWeights(s, wt) && |h| == Vars(s) && forall i {:trigger h[i]} :: 0 <= i < |h| ==> h[i] == Zeros(Vars(s))
    ensures HessianTo(s, wt, h, 0)
  {
    hide Times, Vars, VarCol;
  }

  lemma HessianZero(s: Dims, wt: Weights, h: Mat, at: nat)
    requires ValidDims(s) && FitWeights(s, wt) && HessianTo(s, wt, h, at) && at < Vars(s)
    ensures |h| == Vars(s) && h[at] == Zeros(Vars(s))
  {
  }

  lemma HessianDone(s: Dims, wt: Weights, h: Mat)
    requires ValidDims(s) && FitWeights(s, wt) && HessianTo(s, wt, h, Vars(s))
    ensures IsHessian(s, wt, h)
  {
    hide Times, Vars, VarCol, HessianRow;
    forall i | 0 <= i < Vars(s) ensures |h[i]| == Vars(s) {
      var v := VarAtColumn(s, i);
      assert HasRow(s, wt, h, v);
    }
    forall v: Var | ValidVar(s, v) ensures HasRow(s, wt, h, v) {
      VarFits(s, v);
    }
  }

  lemma VarAtColumn(s: Dims, c: nat) returns (v: Var)
    requires ValidDims(s) && c < Vars(s)
    ensures ValidVar(s, v) && VarCol(s, v) == c
  {
    if c < UStart(s) {
      var node, i := CellExists(c, s.np + 1, s.n);
      v := XVar(node, i);
    } else if c < WStart(s) {
      var block, i := CellExists(c - UStart(s), s.nc, s.m);
      v := UVar(block, i);
    } else {
      v := WVar(c - WStart(s));
    }
  }

  /** The gradient entries before `upto` are in place. */
  ghost predicate GradientTo(s: Dims, wt: Weights, goal: Goals, it: Iterate, c: Vec, upto: nat)
    requires ValidDims(s) && FitWeights(s, wt) && FitGoals(s, goal) && Fits(s, it)
  {
    |c| == Vars(s) && forall v: Var {:trigger ValidVar(s, v)} :: ValidVar(s, v) && VarCol(s, v) < upto ==> HasEntry(s, wt, goal, it, c, v)
  }

  lemma GradientNext(s: Dims, wt: Weights, goal: Goals, it: Iterate, pre: Vec, now: Vec, v: Var)
    requires ValidDims(s) && FitWeights(s, wt) && FitGoals(s, goal) && Fits(s, it) && ValidVar(s, v)
    requires GradientTo(s, wt, goal, it, pre, VarCol(s, v)) && VarCol(s, v) < |pre|
    requires now == pre[VarCol(s, v) := GradientAt(s, wt, goal, it, v)]
    ensures GradientTo(s, wt, goal, it, now, VarCol(s, v) + 1)
  {
    hide Times, GradientAt, VarCol, Vars;
    forall q: Var {:trigger ValidVar(s, q)} | ValidVar(s, q) && VarCol(s, q) < VarCol(s, v) + 1 ensures HasEntry(s, wt, goal, it, now, q) {
      VarFits(s, q);
      if VarCol(s, q) == VarCol(s, v) { VarsDistinct(s, q, v); } else { assert HasEntry(s, wt, goal, it, pre, q); }
    }
  }

  method WriteStateGradient(c: array<real>, s: Dims, wt: Weights, goal: Goals, it: Iterate, node: nat, m: Mat)
    requires ValidDims(s) && FitWeights(s, wt) && FitGoals(s, goal) && Fits(s, it) && node < s.np + 1 && m == NodeWeight(s, wt, node)
    requires GradientTo(s, wt, goal, it, c[..], XCol(s, node, 0))
    modifies c
    ensures GradientTo(s, wt, goal, it, c[..], XCol(s, node + 1, 0))
  {
    hide Times, Vars, UStart, WStart, Dot;
    var e := VSub(it.x[node], goal.x[node]);
    for i := 0 to s.n
      invariant GradientTo(s, wt, goal, it, c[..], XCol(s, node, i))
    {
      ghost var pre := c[..];
      VarFits(s, XVar(node, i));
      c[XCol(s, node, i)] := Dot(VScale(2.0, m[i]), e);
      GradientNext(s, wt, goal, it, pre, c[..], XVar(node, i));
    }
    VarBlocks(s, node, 0);
  }

  method WriteControlGradient(c: array<real>, s: Dims, wt: Weights, goal: Goals, it: Iterate, block: nat)
    requires ValidDims(s) && FitWeights(s, wt) && FitGoals(s, goal) && Fits(s, it) && block < s.nc
    requires GradientTo(s, wt, goal, it, c[..], UCol(s, block, 0))
    modifies c
    ensures GradientTo(s, wt, goal, it, c[..], UCol(s, block + 1, 0))
  {
    hide Times, Vars, UStart, WStart, Dot;
    var e := VSub(it.u[block], goal.u[block]);
    for i := 0 to s.m
      invariant GradientTo(s, wt, goal, it, c[..], UCol(s, block, i))
    {
      ghost var pre := c[..];
      VarFits(s, UVar(block, i));
      c[UCol(s, block, i)] := Dot(VScale(2.0, wt.r[i]), e);
      GradientNext(s, wt, goal, it, pre, c[..], UVar(block, i));
    }
    VarBlocks(s, 0, block);
  }

  /** Fill the gradient, whatever it held: the same weights against the error of the
      iterate. */
  method SetGradient(c: array<real>, s: Dims, wt: Weights, goal: Goals, it: Iterate)
    requires ValidDims(s) && FitWeights(s, wt) && FitGoals(s, goal) && Fits(s, it) && c.Length == Vars(s)
    modifies c
    ensures IsGradient(s, wt, goal, it, c[..])
  {
    hide Times, Vars, UStart, WStart, XCol, UCol;
    VarBlocks(s, 0, 0);
    for node := 0 to s.np
      invariant GradientTo(s, wt, goal, it, c[..], XCol(s, node, 0))
    {
      WriteStateGradient(c, s, wt, goal, it, node, wt.q);
    }
    WriteStateGradient(c, s, wt, goal, it, s.np, wt.s);
    for block := 0 to s.nc
      invariant GradientTo(s, wt, goal, it, c[..], UCol(s, block, 0))
    {
      WriteControlGradient(c, s, wt, goal, it, block);
    }
    SlackStart(s);
    for at := 0 to Slacks(s)
      invariant GradientTo(s, wt, goal, it, c[..], WStart(s) + at)
    {
      ghost var pre := c[..];
      VarFits(s, WVar(at));
      c[WStart(s) + at] := Mul(Mul(2.0, wt.w), it.w[at]);
      GradientNext(s, wt, goal, it, pre, c[..], WVar(at));
    }
    GradientDone(s, wt, goal, it, c[..]);
  }

  lemma GradientDone(s: Dims, wt: Weights, goal: Goals, it: Iterate, c: Vec)
    requires ValidDims(s) && FitWeights(s, wt) && FitGoals(s, goal) && Fits(s, it) && GradientTo(s, wt, goal, it, c, Vars(s))
    ensures IsGradient(s, wt, goal, it, c)
  {
    hide Times, Vars, VarCol, GradientAt;
    forall v: Var | ValidVar(s, v) ensures HasEntry(s, wt, goal, it, c, v) {
      VarFits(s, v);
    }
  }
}
