/** Filling whole matrices row by row, and why a refill is the same as a fresh fill: which
    entries a row owns never depends on the values written. */
module QpFill {
  import opened Linear
  import opened QpLayout
  import opened QpRows
  import opened QpFeasible

  // ----- the row an index belongs to

  lemma RowExists(s: Dims, x: nat)
    requires ValidDims(s) && x < IneqRows(s)
    ensures exists r: Row :: ValidRow(s, r) && RowIndex(s, r) == x
  {
    var r := RowsCover(s, x);
  }

  ghost function RowAt(s: Dims, x: nat): (r: Row)
    requires ValidDims(s) && x < IneqRows(s)
    ensures ValidRow(s, r) && RowIndex(s, r) == x
  {
    RowExists(s, x);
    var r: Row :| ValidRow(s, r) && RowIndex(s, r) == x;
    r
  }

  lemma EqRowExists(s: Dims, x: nat)
    requires ValidDims(s) && x < EqRows(s)
    ensures exists r: EqRow :: ValidEqRow(s, r) && EqIndex(s, r) == x
  {
    if x < s.n {
      assert ValidEqRow(s, Pin(x)) && EqIndex(s, Pin(x)) == x;
    } else {
      var node, i := CellExists(x - s.n, s.np, s.n);
      assert ValidEqRow(s, Dyn(node, i)) && EqIndex(s, Dyn(node, i)) == x;
    }
  }

  ghost function EqRowAt(s: Dims, x: nat): (r: EqRow)
    requires ValidDims(s) && x < EqRows(s)
    ensures ValidEqRow(s, r) && EqIndex(s, r) == x
  {
    EqRowExists(s, x);
    var r: EqRow :| ValidEqRow(s, r) && EqIndex(s, r) == x;
    r
  }

  /** No two equality rows share an index. */
  lemma EqRowsDistinct(s: Dims, p: EqRow, q: EqRow)
    requires ValidDims(s) && ValidEqRow(s, p) && ValidEqRow(s, q) && EqIndex(s, p) == EqIndex(s, q)
    ensures p == q && EqIndex(s, p) < EqRows(s)
  {
    hide Times;
    if p.Dyn? { TableCell(p.node, s.np, s.n, p.i); }
    if p.Dyn? && q.Dyn? { CellUnique(p.node, p.i, q.node, q.i, s.n); }
  }

  lemma RowAtIndex(s: Dims, r: Row)
    requires ValidDims(s) && ValidRow(s, r)
    ensures RowIndex(s, r) < IneqRows(s) && RowAt(s, RowIndex(s, r)) == r
  {
    hide Times;
    RowInBlock(s, r);
    RowsDistinct(s, r, RowAt(s, RowIndex(s, r)));
  }

  lemma EqRowAtIndex(s: Dims, r: EqRow)
    requires ValidDims(s) && ValidEqRow(s, r)
    ensures EqIndex(s, r) < EqRows(s) && EqRowAt(s, EqIndex(s, r)) == r
  {
    hide Times;
    EqRowsDistinct(s, r, r);
    EqRowsDistinct(s, r, EqRowAt(s, EqIndex(s, r)));
  }

  // ----- one row, with the data it needs

  /** The equality row as filled for an iterate. */
  function EqRowOf(g: Config, dyn: Dynamics, it: Iterate, r: EqRow, base: CellRow): (row: CellRow)
    requires ValidConfig(g) && DynamicsFit(g, dyn, it) && ValidEqRow(g.dims, r) && |base| == Vars(g.dims)
    ensures |row| == Vars(g.dims)
  {
    var node := if r.Dyn? then r.node else 0;
    assert FitAt(g, dyn, it, node);
    FillEq(g.dims, g.dt, AOf(g, dyn, it, node), BOf(g, dyn, it, node), r, base)
  }

  function AOf(g: Config, dyn: Dynamics, it: Iterate, node: nat): Mat
    requires ValidConfig(g) && Fits(g.dims, it) && node < g.dims.np
  {
    dyn.a(it.x[node], it.u[HeldBlock(g.dims, node)], g.dt)
  }

  function BOf(g: Config, dyn: Dynamics, it: Iterate, node: nat): Mat
    requires ValidConfig(g) && Fits(g.dims, it) && node < g.dims.np
  {
    dyn.b(it.x[node], it.u[HeldBlock(g.dims, node)])
  }

  predicate FitAt(g: Config, dyn: Dynamics, it: Iterate, node: nat)
    requires ValidConfig(g) && Fits(g.dims, it) && node < g.dims.np
  {
    IsMat(AOf(g, dyn, it, node), g.dims.n, g.dims.n) && IsMat(BOf(g, dyn, it, node), g.dims.n, g.dims.m)
  }

  /** The model's Jacobians have the right shape along an iterate. */
  predicate DynamicsFit(g: Config, dyn: Dynamics, it: Iterate)
    requires ValidConfig(g)
  {
    Fits(g.dims, it) && forall node :: 0 <= node < g.dims.np ==> FitAt(g, dyn, it, node)
  }

  lemma DynamicsFitAll(g: Config, dyn: Dynamics, it: Iterate)
    requires ValidConfig(g) && Fits(g.dims, it) && ValidDynamics(g.dims, dyn)
    ensures DynamicsFit(g, dyn, it)
  {
  }

  // ----- matrices being filled

  predicate Shaped(rows: seq<CellRow>, n: nat, w: nat) {
    |rows| == n && forall i :: 0 <= i < n ==> |rows[i]| == w
  }

  /** Rows before `upto` are filled over what they held, the rest is untouched. */
  ghost predicate EqFilled(g: Config, dyn: Dynamics, it: Iterate, was: seq<CellRow>, now: seq<CellRow>, upto: nat)
    requires ValidConfig(g) && DynamicsFit(g, dyn, it) && Shaped(was, EqRows(g.dims), Vars(g.dims))
  {
    && |now| == |was|
    && forall i {:trigger now[i]} :: 0 <= i < |now| ==> now[i] == if i < upto then EqRowOf(g, dyn, it, EqRowAt(g.dims, i), was[i]) else was[i]
  }

  ghost predicate IneqFilled(g: Config, root: real -> real, obs: seq<Disc>, it: Iterate, was: seq<CellRow>, now: seq<CellRow>, upto: nat)
    requires ValidConfig(g) && Fits(g.dims, it) && |obs| == Slacks(g.dims) && Shaped(was, IneqRows(g.dims), Vars(g.dims))
  {
    && |now| == |was|
    && forall i {:trigger now[i]} :: 0 <= i < |now| ==> now[i] == if i < upto then IneqRowOf(g, root, obs, it, RowAt(g.dims, i), was[i]) else was[i]
  }

  function IneqRowOf(g: Config, root: real -> real, obs: seq<Disc>, it: Iterate, r: Row, base: CellRow): (row: CellRow)
    requires ValidConfig(g) && Fits(g.dims, it) && |obs| == Slacks(g.dims) && ValidRow(g.dims, r) && |base| == Vars(g.dims)
    ensures |row| == Vars(g.dims)
  {
    FillIneq(g, KeepOf(g, root, obs, it, r), r, base)
  }

  /** Writing the row at `upto` extends the filled part by one. */
  lemma IneqFillNext(g: Config, root: real -> real, obs: seq<Disc>, it: Iterate, was: seq<CellRow>, pre: seq<CellRow>, now: seq<CellRow>, r: Row)
    requires ValidConfig(g) && Fits(g.dims, it) && |obs| == Slacks(g.dims) && Shaped(was, IneqRows(g.dims), Vars(g.dims))
    requires ValidRow(g.dims, r) && IneqFilled(g, root, obs, it, was, pre, RowIndex(g.dims, r))
    requires RowIndex(g.dims, r) < |pre| && |pre[RowIndex(g.dims, r)]| == Vars(g.dims)
    requires now == pre[RowIndex(g.dims, r) := IneqRowOf(g, root, obs, it, r, pre[RowIndex(g.dims, r)])]
    ensures IneqFilled(g, root, obs, it, was, now, RowIndex(g.dims, r) + 1)
  {
    hide Times, KeepOf, FillIneq, IneqRowOf, Slacks, Vars;
    RowAtIndex(g.dims, r);
  }

  lemma EqFillNext(g: Config, dyn: Dynamics, it: Iterate, was: seq<CellRow>, pre: seq<CellRow>, now: seq<CellRow>, r: EqRow)
    requires ValidConfig(g) && DynamicsFit(g, dyn, it) && Shaped(was, EqRows(g.dims), Vars(g.dims))
    requires ValidEqRow(g.dims, r) && EqFilled(g, dyn, it, was, pre, EqIndex(g.dims, r))
    requires EqIndex(g.dims, r) < |pre| && |pre[EqIndex(g.dims, r)]| == Vars(g.dims)
    requires now == pre[EqIndex(g.dims, r) := EqRowOf(g, dyn, it, r, pre[EqIndex(g.dims, r)])]
    ensures EqFilled(g, dyn, it, was, now, EqIndex(g.dims, r) + 1)
  {
    hide Times, FillEq, EqRowOf, Vars, EqRows;
    EqRowAtIndex(g.dims, r);
  }

  // ----- ownership

  /** Entries no row owns hold zero. */
  ghost predicate EqClean(g: Config, rows: seq<CellRow>)
    requires ValidConfig(g)
  {
    && Shaped(rows, EqRows(g.dims), Vars(g.dims))
    && forall i, c :: 0 <= i < |rows| && 0 <= c < Vars(g.dims) && !OwnsEq(g.dims, EqRowAt(g.dims, i), c) ==> rows[i][c] == Num(0.0)
  }

  ghost predicate IneqClean(g: Config, rows: seq<CellRow>)
    requires ValidConfig(g)
  {
    && Shaped(rows, IneqRows(g.dims), Vars(g.dims))
    && forall i, c :: 0 <= i < |rows| && 0 <= c < Vars(g.dims) && !OwnsIneq(g, RowAt(g.dims, i), c) ==> rows[i][c] == Num(0.0)
  }

  /** The matrices of a fill that starts from zero. */
  ghost predicate EqFresh(g: Config, dyn: Dynamics, it: Iterate, rows: seq<CellRow>)
    requires ValidConfig(g) && DynamicsFit(g, dyn, it)
  {
    && |rows| == EqRows(g.dims)
    && forall i :: 0 <= i < |rows| ==> rows[i] == EqRowOf(g, dyn, it, EqRowAt(g.dims, i), Fresh(g.dims))
  }

  ghost predicate IneqFresh(g: Config, root: real -> real, obs: seq<Disc>, it: Iterate, rows: seq<CellRow>)
    requires ValidConfig(g) && Fits(g.dims, it) && |obs| == Slacks(g.dims)
  {
    && |rows| == IneqRows(g.dims)
    && forall i :: 0 <= i < |rows| ==> rows[i] == IneqRowOf(g, root, obs, it, RowAt(g.dims, i), Fresh(g.dims))
  }

  /** A row whose unowned entries are zero refills to the row of a fresh fill. */
  lemma EqRefillRow(g: Config, dyn: Dynamics, it: Iterate, r: EqRow, base: CellRow)
    requires ValidConfig(g) && DynamicsFit(g, dyn, it) && ValidEqRow(g.dims, r) && |base| == Vars(g.dims)
    requires forall c :: 0 <= c < Vars(g.dims) && !OwnsEq(g.dims, r, c) ==> base[c] == Num(0.0)
    ensures EqRowOf(g, dyn, it, r, base) == EqRowOf(g, dyn, it, r, Fresh(g.dims))
    ensures forall c :: 0 <= c < Vars(g.dims) && !OwnsEq(g.dims, r, c) ==> EqRowOf(g, dyn, it, r, base)[c] == Num(0.0)
  {
    hide Times, Vars, FillEq, OwnsEq;
    var node := if r.Dyn? then r.node else 0;
    assert FitAt(g, dyn, it, node);
    var a, b := AOf(g, dyn, it, node), BOf(g, dyn, it, node);
    FillEqOwns(g.dims, g.dt, a, b, r, base, Fresh(g.dims));
    FillEqOwns(g.dims, g.dt, a, b, r, Fresh(g.dims), base);
    var p, q := EqRowOf(g, dyn, it, r, base), EqRowOf(g, dyn, it, r, Fresh(g.dims));
    forall c | 0 <= c < Vars(g.dims) ensures p[c] == q[c] {}
  }

  lemma IneqRefillRow(g: Config, root: real -> real, obs: seq<Disc>, it: Iterate, r: Row, base: CellRow)
    requires ValidConfig(g) && Fits(g.dims, it) && |obs| == Slacks(g.dims) && ValidRow(g.dims, r) && |base| == Vars(g.dims)
    requires forall c :: 0 <= c < Vars(g.dims) && !OwnsIneq(g, r, c) ==> base[c] == Num(0.0)
    ensures IneqRowOf(g, root, obs, it, r, base) == IneqRowOf(g, root, obs, it, r, Fresh(g.dims))
    ensures forall c :: 0 <= c < Vars(g.dims) && !OwnsIneq(g, r, c) ==> IneqRowOf(g, root, obs, it, r, base)[c] == Num(0.0)
  {
    hide Times, Vars, FillIneq, OwnsIneq, KeepOf;
    var keep := KeepOf(g, root, obs, it, r);
    FillIneqOwns(g, keep, r, base, Fresh(g.dims));
    FillIneqOwns(g, keep, r, Fresh(g.dims), base);
    var p, q := IneqRowOf(g, root, obs, it, r, base), IneqRowOf(g, root, obs, it, r, Fresh(g.dims));
    forall c | 0 <= c < Vars(g.dims) ensures p[c] == q[c] {}
  }

  /** Whatever was solved before, refilling the equality matrix gives the fresh fill and
      keeps it clean for the next cycle. */
  lemma EqHistoryFree(g: Config, dyn: Dynamics, it: Iterate, was: seq<CellRow>, now: seq<CellRow>)
    requires ValidConfig(g) && DynamicsFit(g, dyn, it) && EqClean(g, was) && EqFilled(g, dyn, it, was, now, EqRows(g.dims))
    ensures EqFresh(g, dyn, it, now) && EqClean(g, now)
  {
    hide Times, Vars, EqRows, OwnsEq, EqRowOf;
    forall i | 0 <= i < |now|
      ensures now[i] == EqRowOf(g, dyn, it, EqRowAt(g.dims, i), Fresh(g.dims)) && |now[i]| == Vars(g.dims)
      ensures forall c :: 0 <= c < Vars(g.dims) && !OwnsEq(g.dims, EqRowAt(g.dims, i), c) ==> now[i][c] == Num(0.0)
    {
      EqRefillRow(g, dyn, it, EqRowAt(g.dims, i), was[i]);
    }
  }

  /** The same for the inequality matrix: no keep-out row is lost and no stale coefficient
      of an earlier linearisation is left. */
  lemma IneqHistoryFree(g: Config, root: real -> real, obs: seq<Disc>, it: Iterate, was: seq<CellRow>, now: seq<CellRow>)
    requires ValidConfig(g) && Fits(g.dims, it) && |obs| == Slacks(g.dims) && IneqClean(g, was)
    requires IneqFilled(g, root, obs, it, was, now, IneqRows(g.dims))
    ensures IneqFresh(g, root, obs, it, now) && IneqClean(g, now)
  {
    hide Times, Vars, IneqRows, OwnsIneq, IneqRowOf, Slacks;
    forall i | 0 <= i < |now|
      ensures now[i] == IneqRowOf(g, root, obs, it, RowAt(g.dims, i), Fresh(g.dims)) && |now[i]| == Vars(g.dims)
      ensures forall c :: 0 <= c < Vars(g.dims) && !OwnsIneq(g, RowAt(g.dims, i), c) ==> now[i][c] == Num(0.0)
    {
      IneqRefillRow(g, root, obs, it, RowAt(g.dims, i), was[i]);
    }
  }

  // ----- the structural pattern

  /** The owned entries: what a sparse copy has to carry. */
  ghost predicate EqPattern(g: Config, keys: set<(nat, nat)>)
    requires ValidConfig(g)
  {
    forall i: nat, c: nat :: (i, c) in keys <==> i < EqRows(g.dims) && c < Vars(g.dims) && OwnsEq(g.dims, EqRowAt(g.dims, i), c)
  }

  ghost predicate IneqPattern(g: Config, keys: set<(nat, nat)>)
    requires ValidConfig(g)
  {
    forall i: nat, c: nat :: (i, c) in keys <==> i < IneqRows(g.dims) && c < Vars(g.dims) && OwnsIneq(g, RowAt(g.dims, i), c)
  }

  /** The entries a probe left as numbers. */
  ghost predicate Written(rows: seq<CellRow>, keys: set<(nat, nat)>) {
    forall i: nat, c: nat :: (i, c) in keys <==> i < |rows| && c < |rows[i]| && rows[i][c].Num?
  }

  predicate AllNaN(rows: seq<CellRow>, n: nat, w: nat) {
    |rows| == n && forall i :: 0 <= i < n ==> rows[i] == Blank(w, NaN)
  }

  /** Filling a matrix of markers reveals exactly the owned entries, whatever iterate it
      is filled for. */
  lemma EqProbe(g: Config, dyn: Dynamics, it: Iterate, was: seq<CellRow>, now: seq<CellRow>, keys: set<(nat, nat)>)
    requires ValidConfig(g) && DynamicsFit(g, dyn, it) && AllNaN(was, EqRows(g.dims), Vars(g.dims))
    requires EqFilled(g, dyn, it, was, now, EqRows(g.dims)) && Written(now, keys)
    ensures EqPattern(g, keys)
  {
    hide Times, Vars, EqRows, OwnsEq, FillEq;
    forall i: nat, c: nat | i < |now| && c < Vars(g.dims)
      ensures |now[i]| == Vars(g.dims) && (now[i][c].Num? <==> OwnsEq(g.dims, EqRowAt(g.dims, i), c))
    {
      var r := EqRowAt(g.dims, i);
      var node := if r.Dyn? then r.node else 0;
      assert FitAt(g, dyn, it, node);
      FillEqOwns(g.dims, g.dt, AOf(g, dyn, it, node), BOf(g, dyn, it, node), r, was[i], was[i]);
    }
  }

  lemma IneqProbe(g: Config, root: real -> real, obs: seq<Disc>, it: Iterate, was: seq<CellRow>, now: seq<CellRow>, keys: set<(nat, nat)>)
    requires ValidConfig(g) && Fits(g.dims, it) && |obs| == Slacks(g.dims) && AllNaN(was, IneqRows(g.dims), Vars(g.dims))
    requires IneqFilled(g, root, obs, it, was, now, IneqRows(g.dims)) && Written(now, keys)
    ensures IneqPattern(g, keys)
  {
    hide Times, Vars, IneqRows, OwnsIneq, FillIneq, KeepOf, Slacks;
    forall i: nat, c: nat | i < |now| && c < Vars(g.dims)
      ensures |now[i]| == Vars(g.dims) && (now[i][c].Num? <==> OwnsIneq(g, RowAt(g.dims, i), c))
    {
      var r := RowAt(g.dims, i);
      FillIneqOwns(g, KeepOf(g, root, obs, it, r), r, was[i], was[i]);
    }
  }

  /** A sparse copy stands for a dense matrix: listed entries carry the dense value, and
      every other entry of the matrix is zero. */
  ghost predicate Represents(sparse: map<(nat, nat), real>, rows: seq<CellRow>) {
    && (forall i: nat, c: nat :: (i, c) in sparse ==> i < |rows| && c < |rows[i]|)
    && (forall i: nat, c: nat {:trigger rows[i][c]} :: i < |rows| && c < |rows[i]| ==>
          Real(rows[i][c]) == if (i, c) in sparse then sparse[(i, c)] else 0.0)
  }

  ghost predicate Copied(sparse: map<(nat, nat), real>, rows: seq<CellRow>) {
    forall i: nat, c: nat :: (i, c) in sparse ==> i < |rows| && c < |rows[i]| && sparse[(i, c)] == Real(rows[i][c])
  }

  lemma EqRepresents(g: Config, rows: seq<CellRow>, sparse: map<(nat, nat), real>)
    requires ValidConfig(g) && EqClean(g, rows) && EqPattern(g, sparse.Keys) && Copied(sparse, rows)
    ensures Represents(sparse, rows)
  {
    hide Times, Vars, EqRows, OwnsEq;
    forall i: nat, c: nat | i < |rows| && c < |rows[i]|
      ensures Real(rows[i][c]) == if (i, c) in sparse then sparse[(i, c)] else 0.0
    {
      assert (i, c) in sparse.Keys <==> OwnsEq(g.dims, EqRowAt(g.dims, i), c);
    }
  }

  lemma IneqRepresents(g: Config, rows: seq<CellRow>, sparse: map<(nat, nat), real>)
    requires ValidConfig(g) && IneqClean(g, rows) && IneqPattern(g, sparse.Keys) && Copied(sparse, rows)
    ensures Represents(sparse, rows)
  {
    hide Times, Vars, IneqRows, OwnsIneq;
    forall i: nat, c: nat | i < |rows| && c < |rows[i]|
      ensures Real(rows[i][c]) == if (i, c) in sparse then sparse[(i, c)] else 0.0
    {
      assert (i, c) in sparse.Keys <==> OwnsIneq(g, RowAt(g.dims, i), c);
    }
  }
}
