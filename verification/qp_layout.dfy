/** Where every decision variable and every constraint row of the quadratic program
    lives, over all horizon sizes. */
module QpLayout {

  /** n states, m controls, `np` predicted nodes, `nc` control blocks, `k` obstacle slots
      per node, and how many bounds the model declares on states, controls and rates. */
  datatype Dims = Dims(n: nat, m: nat, np: nat, nc: nat, k: nat, nx: nat, nu: nat, ndu: nat, obstacles: bool)

  predicate ValidDims(s: Dims) {
    s.n > 0 && s.m > 0 && s.np > 0 && 0 < s.nc <= s.np && (s.obstacles ==> s.k > 0)
  }

  /** Products of sizes, under a name so that proofs need not unfold them. */
  function Times(a: nat, b: nat): nat { a * b }

  // ----- columns: states, then controls, then slacks

  function UStart(s: Dims): nat { Times(s.np + 1, s.n) }
  function WStart(s: Dims): nat { UStart(s) + Times(s.nc, s.m) }
  function Slacks(s: Dims): nat { if s.obstacles then Times(s.np, s.k) else 0 }
  function Vars(s: Dims): nat { WStart(s) + Slacks(s) }

  function XCol(s: Dims, node: nat, i: nat): nat { Times(node, s.n) + i }
  function UCol(s: Dims, block: nat, i: nat): nat { UStart(s) + Times(block, s.m) + i }
  function WCol(s: Dims, node: nat, slot: nat): nat { WStart(s) + (Times(node, s.k) + slot) }

  // ----- rows

  function EqRows(s: Dims): nat { s.n + Times(s.np, s.n) }
  function DynRow(s: Dims, node: nat, i: nat): nat { s.n + Times(node, s.n) + i }

  /** The constraints, one constructor per block of the inequality matrix. */
  datatype Row =
    | FirstRate(j: nat)               // rate bound j on the first control, about the applied one
    | StateBox(j: nat, node: nat)     // state bound j at a node
    | ControlBox(j: nat, block: nat)  // control bound j at a control block
    | RateChain(j: nat, block: nat)   // rate bound j between block and block + 1
    | KeepOut(node: nat, slot: nat)   // obstacle slot at a predicted node
    | SlackSign(node: nat, slot: nat) // its slack is nonnegative

  predicate ValidRow(s: Dims, r: Row) {
    match r
    case FirstRate(j) => j < s.ndu
    case StateBox(j, node) => j < s.nx && node < s.np + 1
    case ControlBox(j, block) => j < s.nu && block < s.nc
    case RateChain(j, block) => j < s.ndu && block + 1 < s.nc
    case KeepOut(node, slot) => s.obstacles && node < s.np && slot < s.k
    case SlackSign(node, slot) => s.obstacles && node < s.np && slot < s.k
  }

  function StateRows(s: Dims): nat { s.ndu }
  function ControlRows(s: Dims): nat { StateRows(s) + Times(s.nx, s.np + 1) }
  function ChainRows(s: Dims): nat { ControlRows(s) + Times(s.nu, s.nc) }
  function KeepOutRows(s: Dims): nat
    requires s.nc > 0
  {
    ChainRows(s) + Times(s.ndu, s.nc - 1)
  }
  function SlackRows(s: Dims): nat requires s.nc > 0 { KeepOutRows(s) + Times(s.np, s.k) }
  function IneqRows(s: Dims): nat
    requires s.nc > 0
  {
    if s.obstacles then SlackRows(s) + Times(s.np, s.k) else KeepOutRows(s)
  }

  function RowIndex(s: Dims, r: Row): nat
    requires s.nc > 0
  {
    match r
    case FirstRate(j) => j
    case StateBox(j, node) => StateRows(s) + Times(j, s.np + 1) + node
    case ControlBox(j, block) => ControlRows(s) + Times(j, s.nc) + block
    case RateChain(j, block) => ChainRows(s) + Times(j, s.nc - 1) + block
    case KeepOut(node, slot) => KeepOutRows(s) + (Times(node, s.k) + slot)
    case SlackSign(node, slot) => SlackRows(s) + (Times(node, s.k) + slot)
  }

  // ----- index arithmetic

  lemma TimesNext(a: nat, w: nat)
    ensures Times(a + 1, w) == Times(a, w) + w && Times(0, w) == 0 && Times(1, w) == w
  {
  }

  lemma TimesMono(a: nat, b: nat, w: nat)
    requires a <= b
    ensures Times(a, w) <= Times(b, w)
  {
    assert (b - a) * w >= 0;
    assert b * w == a * w + (b - a) * w;
  }

  /** A cell of a table with rows of length w stays inside its row. */
  lemma TableCell(i: nat, rows: nat, w: nat, j: nat)
    requires i < rows && j < w
    ensures Times(i, w) + j < Times(rows, w) && Times(i, w) + w <= Times(rows, w)
  {
    TimesMono(i + 1, rows, w);
    TimesNext(i, w);
  }

  /** Two cells of a table coincide only when row and column do. */
  lemma CellUnique(i: nat, j: nat, i': nat, j': nat, w: nat)
    requires j < w && j' < w && Times(i, w) + j == Times(i', w) + j'
    ensures i == i' && j == j'
  {
    hide Times;
    TimesNext(i, w);
    TimesNext(i', w);
    if i < i' { TimesMono(i + 1, i', w); }
    if i' < i { TimesMono(i' + 1, i, w); }
  }

  lemma CellExists(x: nat, rows: nat, w: nat) returns (i: nat, j: nat)
    requires x < Times(rows, w)
    ensures i < rows && j < w && x == Times(i, w) + j
  {
    assert w > 0;
    i, j := x / w, x % w;
    assert x == Times(i, w) + j;
    if i >= rows { TimesMono(rows, i, w); }
  }

  /** Each block of rows ends where the next one starts. */
  lemma RowInBlock(s: Dims, r: Row)
    requires ValidDims(s) && ValidRow(s, r)
    ensures RowIndex(s, r) < IneqRows(s)
    ensures r.FirstRate? ==> RowIndex(s, r) < StateRows(s)
    ensures r.StateBox? ==> StateRows(s) <= RowIndex(s, r) < ControlRows(s)
    ensures r.ControlBox? ==> ControlRows(s) <= RowIndex(s, r) < ChainRows(s)
    ensures r.RateChain? ==> ChainRows(s) <= RowIndex(s, r) < KeepOutRows(s)
    ensures r.KeepOut? ==> KeepOutRows(s) <= RowIndex(s, r) < SlackRows(s)
    ensures r.SlackSign? ==> SlackRows(s) <= RowIndex(s, r)
  {
    hide Times;
    match r
    case FirstRate(j) =>
    case StateBox(j, node) => TableCell(j, s.nx, s.np + 1, node);
    case ControlBox(j, block) => TableCell(j, s.nu, s.nc, block);
    case RateChain(j, block) => TableCell(j, s.ndu, s.nc - 1, block);
    case KeepOut(node, slot) => TableCell(node, s.np, s.k, slot);
    case SlackSign(node, slot) => TableCell(node, s.np, s.k, slot);
  }

  /** No two constraints share a row of the inequality matrix. */
  lemma RowsDistinct(s: Dims, p: Row, q: Row)
    requires ValidDims(s) && ValidRow(s, p) && ValidRow(s, q) && RowIndex(s, p) == RowIndex(s, q)
    ensures p == q
  {
    hide Times;
    RowInBlock(s, p);
    RowInBlock(s, q);
    match p
    case FirstRate(j) =>
    case StateBox(j, node) => CellUnique(j, node, q.j, q.node, s.np + 1);
    case ControlBox(j, block) => CellUnique(j, block, q.j, q.block, s.nc);
    case RateChain(j, block) => CellUnique(j, block, q.j, q.block, s.nc - 1);
    case KeepOut(node, slot) => CellUnique(node, slot, q.node, q.slot, s.k);
    case SlackSign(node, slot) => CellUnique(node, slot, q.node, q.slot, s.k);
  }

  /** Every row of the inequality matrix carries a constraint. */
  lemma RowsCover(s: Dims, x: nat) returns (r: Row)
    requires ValidDims(s) && x < IneqRows(s)
    ensures ValidRow(s, r) && RowIndex(s, r) == x
  {
    if x < StateRows(s) {
      r := FirstRate(x);
    } else if x < ControlRows(s) {
      var j, node := CellExists(x - StateRows(s), s.nx, s.np + 1);
      r := StateBox(j, node);
    } else if x < ChainRows(s) {
      var j, block := CellExists(x - ControlRows(s), s.nu, s.nc);
      r := ControlBox(j, block);
    } else if x < KeepOutRows(s) {
      var j, block := CellExists(x - ChainRows(s), s.ndu, s.nc - 1);
      r := RateChain(j, block);
    } else if x < SlackRows(s) {
      var node, slot := CellExists(x - KeepOutRows(s), s.np, s.k);
      r := KeepOut(node, slot);
    } else {
      var node, slot := CellExists(x - SlackRows(s), s.np, s.k);
      r := SlackSign(node, slot);
    }
  }

  /** Columns of different variables differ, and all lie inside the increment vector. */
  lemma ColumnsFit(s: Dims)
    requires ValidDims(s)
    ensures UStart(s) <= WStart(s) <= Vars(s)
    ensures forall node: nat, i: nat {:trigger XCol(s, node, i)} :: node < s.np + 1 && i < s.n ==> XCol(s, node, i) < UStart(s)
    ensures forall block: nat, i: nat {:trigger UCol(s, block, i)} :: block < s.nc && i < s.m ==> UStart(s) <= UCol(s, block, i) < WStart(s)
    ensures s.obstacles ==> forall node: nat, slot: nat {:trigger WCol(s, node, slot)} :: node < s.np && slot < s.k ==> WStart(s) <= WCol(s, node, slot) < Vars(s)
  {
    hide Times;
    forall node: nat, i: nat | node < s.np + 1 && i < s.n ensures XCol(s, node, i) < UStart(s) { TableCell(node, s.np + 1, s.n, i); }
    forall block: nat, i: nat | block < s.nc && i < s.m ensures UStart(s) <= UCol(s, block, i) < WStart(s) { TableCell(block, s.nc, s.m, i); }
    if s.obstacles {
      forall node: nat, slot: nat | node < s.np && slot < s.k ensures WStart(s) <= WCol(s, node, slot) < Vars(s) { TableCell(node, s.np, s.k, slot); }
    }
  }

  // ----- the index vector init() accumulates

  /** The first row of the b-th block after the first-rate rows. */
  function BlockStart(s: Dims, b: nat): nat
    requires s.nc > 0
  {
    if b <= s.nx then StateRows(s) + Times(b, s.np + 1)
    else if b <= s.nx + s.nu then ControlRows(s) + Times(b - s.nx, s.nc)
    else if b <= s.nx + s.nu + s.ndu then ChainRows(s) + Times(b - s.nx - s.nu, s.nc - 1)
    else KeepOutRows(s) + Times(b - s.nx - s.nu - s.ndu, Times(s.np, s.k))
  }

  function Blocks(s: Dims): nat { s.nx + s.nu + s.ndu + 1 + (if s.obstacles then 2 else 0) }

  /** The accumulation loops of init(): entry b is the first row of block b, and the last
      entry is the number of rows. */
  method BuildIneqIdx(s: Dims) returns (idx: seq<nat>)
    requires ValidDims(s)
    ensures |idx| == Blocks(s) && forall b :: 0 <= b < |idx| ==> idx[b] == BlockStart(s, b)
    ensures idx[|idx| - 1] == IneqRows(s)
  {
    hide Times;
    idx := [s.ndu];
    TimesNext(0, s.np + 1);
    TimesNext(0, s.nc);
    TimesNext(0, s.nc - 1);
    for j := 0 to s.nx
      invariant |idx| == j + 1 && forall b :: 0 <= b < |idx| ==> idx[b] == BlockStart(s, b)
    {
      TimesNext(j, s.np + 1);
      idx := idx + [idx[|idx| - 1] + (s.np + 1)];
    }
    for j := 0 to s.nu
      invariant |idx| == s.nx + j + 1 && forall b :: 0 <= b < |idx| ==> idx[b] == BlockStart(s, b)
    {
      TimesNext(j, s.nc);
      idx := idx + [idx[|idx| - 1] + s.nc];
    }
    for j := 0 to s.ndu
      invariant |idx| == s.nx + s.nu + j + 1 && forall b :: 0 <= b < |idx| ==> idx[b] == BlockStart(s, b)
    {
      TimesNext(j, s.nc - 1);
      idx := idx + [idx[|idx| - 1] + (s.nc - 1)];
    }
    if s.obstacles {
      TimesNext(0, Times(s.np, s.k));
      TimesNext(1, Times(s.np, s.k));
      idx := idx + [idx[|idx| - 1] + Times(s.np, s.k)];
      idx := idx + [idx[|idx| - 1] + Times(s.np, s.k)];
    }
  }
}
