/** Real vectors and matrices as sequences, with the quadratic-form facts that the
    filters and the quadratic program rest on. */
module Linear {

  type Vec = seq<real>

  /** A matrix is the sequence of its rows. */
  type Mat = seq<Vec>

  /** Multiplication under a name, so that products of entries are matched as terms. */
  function Mul(x: real, y: real): real { x * y }

  predicate IsMat(a: Mat, rows: nat, cols: nat) {
    |a| == rows && forall i :: 0 <= i < rows ==> |a[i]| == cols
  }

  function Zeros(n: nat): (z: Vec)
    ensures |z| == n
    ensures forall i :: 0 <= i < n ==> z[i] == 0.0
  {
    seq(n, i => 0.0)
  }

  function Unit(n: nat, k: nat): (e: Vec)
    requires k < n
    ensures |e| == n
    ensures forall i :: 0 <= i < n ==> e[i] == if i == k then 1.0 else 0.0
  {
    seq(n, i => if i == k then 1.0 else 0.0)
  }

  function VAdd(u: Vec, v: Vec): (w: Vec)
    requires |u| == |v|
    ensures |w| == |u|
    ensures forall i :: 0 <= i < |u| ==> w[i] == u[i] + v[i]
  {
    seq(|u|, i requires 0 <= i < |u| => u[i] + v[i])
  }

  function VSub(u: Vec, v: Vec): (w: Vec)
    requires |u| == |v|
    ensures |w| == |u|
    ensures forall i :: 0 <= i < |u| ==> w[i] == u[i] - v[i]
  {
    seq(|u|, i requires 0 <= i < |u| => u[i] - v[i])
  }

  function VScale(k: real, u: Vec): (w: Vec)
    ensures |w| == |u|
    ensures forall i :: 0 <= i < |u| ==> w[i] == Mul(k, u[i])
  {
    seq(|u|, i requires 0 <= i < |u| => Mul(k, u[i]))
  }

  function Dot(u: Vec, v: Vec): real
    requires |u| == |v|
  {
    if u == [] then 0.0 else Mul(u[0], v[0]) + Dot(u[1..], v[1..])
  }

  function MatVec(a: Mat, v: Vec): (w: Vec)
    requires IsMat(a, |a|, |v|)
    ensures |w| == |a|
    ensures forall i :: 0 <= i < |a| ==> w[i] == Dot(a[i], v)
  {
    seq(|a|, i requires 0 <= i < |a| => Dot(a[i], v))
  }

  /** The combination of the rows of `a` with weights `u`, that is, u' a. */
  function RowComb(u: Vec, a: Mat, cols: nat): (w: Vec)
    requires IsMat(a, |u|, cols)
    ensures |w| == cols
  {
    if u == [] then Zeros(cols)
    else VAdd(VScale(u[0], a[0]), RowComb(u[1..], a[1..], cols))
  }

  function MatMul(a: Mat, b: Mat, cols: nat): (m: Mat)
    requires IsMat(a, |a|, |b|) && IsMat(b, |b|, cols)
    ensures IsMat(m, |a|, cols)
    ensures forall i :: 0 <= i < |a| ==> m[i] == RowComb(a[i], b, cols)
  {
    seq(|a|, i requires 0 <= i < |a| => RowComb(a[i], b, cols))
  }

  function Transpose(a: Mat, cols: nat): (t: Mat)
    requires IsMat(a, |a|, cols)
    ensures IsMat(t, cols, |a|)
    ensures forall i, j :: 0 <= i < |a| && 0 <= j < cols ==> t[j][i] == a[i][j]
  {
    seq(cols, j requires 0 <= j < cols => seq(|a|, i requires 0 <= i < |a| => a[i][j]))
  }

  function MAdd(a: Mat, b: Mat, cols: nat): (m: Mat)
    requires IsMat(a, |a|, cols) && IsMat(b, |a|, cols)
    ensures IsMat(m, |a|, cols)
    ensures forall i :: 0 <= i < |a| ==> m[i] == VAdd(a[i], b[i])
  {
    seq(|a|, i requires 0 <= i < |a| => VAdd(a[i], b[i]))
  }

  function MSub(a: Mat, b: Mat, cols: nat): (m: Mat)
    requires IsMat(a, |a|, cols) && IsMat(b, |a|, cols)
    ensures IsMat(m, |a|, cols)
    ensures forall i :: 0 <= i < |a| ==> m[i] == VSub(a[i], b[i])
  {
    seq(|a|, i requires 0 <= i < |a| => VSub(a[i], b[i]))
  }

  function MScale(k: real, a: Mat, cols: nat): (m: Mat)
    requires IsMat(a, |a|, cols)
    ensures IsMat(m, |a|, cols)
    ensures forall i :: 0 <= i < |a| ==> m[i] == VScale(k, a[i])
  {
    seq(|a|, i requires 0 <= i < |a| => VScale(k, a[i]))
  }

  function Outer(u: Vec, v: Vec): (m: Mat)
    ensures IsMat(m, |u|, |v|)
    ensures forall i :: 0 <= i < |u| ==> m[i] == VScale(u[i], v)
  {
    seq(|u|, i requires 0 <= i < |u| => VScale(u[i], v))
  }

  function Identity(n: nat): (m: Mat)
    ensures IsMat(m, n, n)
    ensures forall i :: 0 <= i < n ==> m[i] == Unit(n, i)
  {
    seq(n, i requires 0 <= i < n => Unit(n, i))
  }

  /** The bilinear form u' a v. */
  function Bil(a: Mat, u: Vec, v: Vec): real
    requires IsMat(a, |u|, |v|)
  {
    Dot(u, MatVec(a, v))
  }

  function Quad(a: Mat, v: Vec): real
    requires IsMat(a, |v|, |v|)
  {
    Bil(a, v, v)
  }

  function At(a: Mat, i: int, j: int): real
    requires 0 <= i < |a| && 0 <= j < |a[i]|
  {
    a[i][j]
  }

  ghost predicate Symmetric(a: Mat, n: nat) {
    IsMat(a, n, n) && forall i, j :: 0 <= i < n && 0 <= j < n ==> At(a, i, j) == At(a, j, i)
  }

  /** Symmetric positive semidefinite. */
  ghost predicate Psd(a: Mat, n: nat) {
    Symmetric(a, n) && forall v: Vec {:trigger Quad(a, v)} :: |v| == n ==> Quad(a, v) >= 0.0
  }

  // ----- products of reals

  lemma PositiveProduct(x: real, y: real)
    requires x > 0.0 && y > 0.0
    ensures x * y > 0.0 && Mul(x, y) > 0.0
  {
  }

  lemma NonnegProduct(x: real, y: real)
    requires x >= 0.0 && y >= 0.0
    ensures x * y >= 0.0 && Mul(x, y) >= 0.0
  {
  }

  /** A nonnegative factor keeps the order. */
  lemma MonoProduct(k: real, x: real, y: real)
    requires k >= 0.0 && x <= y
    ensures Mul(k, x) <= Mul(k, y) && Mul(x, k) <= Mul(y, k)
  {
    var d := y - x;
    NonnegProduct(k, d);
    assert k * y == k * x + k * d;
  }

  /** A positive factor decides the order. */
  lemma OrderProduct(k: real, x: real, y: real)
    requires k > 0.0
    ensures x < y <==> Mul(x, k) < Mul(y, k)
  {
    if x < y {
      PositiveProduct(y - x, k);
      assert (y - x) * k == y * k - x * k;
    } else {
      MonoProduct(k, y, x);
    }
  }

  /** A fraction of a nonnegative number. */
  lemma FractionProduct(t: real, d: real)
    requires 0.0 <= t <= 1.0 && d >= 0.0
    ensures 0.0 <= Mul(t, d) <= d && 0.0 <= Mul(d, t) <= d
  {
    var u := 1.0 - t;
    NonnegProduct(t, d);
    NonnegProduct(u, d);
    assert t * d + u * d == d;
  }

  // ----- the dot product

  lemma {:induction false} DotComm(u: Vec, v: Vec)
    requires |u| == |v|
    ensures Dot(u, v) == Dot(v, u)
  {
    if u != [] { DotComm(u[1..], v[1..]); }
  }

  lemma {:induction false} DotAdd(u: Vec, v: Vec, w: Vec)
    requires |u| == |v| == |w|
    ensures Dot(u, VAdd(v, w)) == Dot(u, v) + Dot(u, w)
  {
    if u != [] {
      assert VAdd(v, w)[1..] == VAdd(v[1..], w[1..]);
      DotAdd(u[1..], v[1..], w[1..]);
    }
  }

  lemma {:induction false} DotScale(u: Vec, k: real, v: Vec)
    requires |u| == |v|
    ensures Dot(u, VScale(k, v)) == Mul(k, Dot(u, v))
  {
    if u != [] {
      assert VScale(k, v)[1..] == VScale(k, v[1..]);
      DotScale(u[1..], k, v[1..]);
      MulAssoc(u[0], k, v[0], Dot(u[1..], v[1..]));
    }
  }

  lemma MulAssoc(x: real, k: real, y: real, z: real)
    ensures Mul(x, Mul(k, y)) + Mul(k, z) == Mul(k, Mul(x, y) + z)
  {
  }

  lemma DotSub(u: Vec, v: Vec, w: Vec)
    requires |u| == |v| == |w|
    ensures Dot(u, VSub(v, w)) == Dot(u, v) - Dot(u, w)
  {
    assert VAdd(VSub(v, w), w) == v;
    DotAdd(u, VSub(v, w), w);
  }

  /** The first argument is linear as well. */
  lemma DotLeft(u: Vec, v: Vec, w: Vec, k: real)
    requires |u| == |v| == |w|
    ensures Dot(VAdd(u, v), w) == Dot(u, w) + Dot(v, w)
    ensures Dot(VSub(u, v), w) == Dot(u, w) - Dot(v, w)
    ensures Dot(VScale(k, u), w) == Mul(k, Dot(u, w))
  {
    DotComm(VAdd(u, v), w); DotComm(VSub(u, v), w); DotComm(VScale(k, u), w);
    DotComm(u, w); DotComm(v, w);
    DotAdd(w, u, v); DotSub(w, u, v); DotScale(w, k, u);
  }

  lemma {:induction false} DotZero(u: Vec, v: Vec)
    requires |u| == |v|
    requires forall i :: 0 <= i < |u| ==> u[i] == 0.0
    ensures Dot(u, v) == 0.0
  {
    if u != [] {
      assert forall i :: 0 <= i < |u[1..]| ==> u[1..][i] == u[i + 1];
      DotZero(u[1..], v[1..]);
    }
  }

  /** A row whose only nonzero entry is at k reads entry k. */
  lemma {:induction false} DotSingle(u: Vec, v: Vec, k: nat)
    requires |u| == |v| && k < |u|
    requires forall i :: 0 <= i < |u| && i != k ==> u[i] == 0.0
    ensures Dot(u, v) == Mul(u[k], v[k])
  {
    assert forall i :: 0 <= i < |u[1..]| ==> u[1..][i] == u[i + 1];
    if k == 0 {
      DotZero(u[1..], v[1..]);
    } else {
      DotSingle(u[1..], v[1..], k - 1);
    }
  }

  lemma {:induction false} DotSplit(u: Vec, v: Vec, k: nat)
    requires |u| == |v| && k <= |u|
    ensures Dot(u, v) == Dot(u[..k], v[..k]) + Dot(u[k..], v[k..])
  {
    if k == 0 {
      assert u[..0] == [] && u[0..] == u && v[0..] == v;
    } else {
      DotSplit(u[1..], v[1..], k - 1);
      assert u[..k][1..] == u[1..][..k - 1] && v[..k][1..] == v[1..][..k - 1];
      assert u[k..] == u[1..][k - 1..] && v[k..] == v[1..][k - 1..];
    }
  }

  lemma {:induction false} DotSelf(u: Vec)
    ensures Dot(u, u) >= 0.0
  {
    if u != [] { DotSelf(u[1..]); }
  }

  // ----- matrices acting on vectors

  /** (u' a) v == u' (a v). */
  lemma {:induction false} RowCombDot(u: Vec, a: Mat, v: Vec)
    requires IsMat(a, |u|, |v|)
    ensures Dot(RowComb(u, a, |v|), v) == Dot(u, MatVec(a, v))
  {
    if u == [] {
      DotZero(Zeros(|v|), v);
    } else {
      RowCombDot(u[1..], a[1..], v);
      DotLeft(VScale(u[0], a[0]), RowComb(u[1..], a[1..], |v|), v, 1.0);
      DotLeft(a[0], a[0], v, u[0]);
      assert MatVec(a, v)[1..] == MatVec(a[1..], v);
    }
  }

  lemma {:induction false} RowCombAt(u: Vec, a: Mat, cols: nat, j: nat)
    requires IsMat(a, |u|, cols) && j < cols
    ensures RowComb(u, a, cols)[j] == Dot(Transpose(a, cols)[j], u)
  {
    if u != [] {
      RowCombAt(u[1..], a[1..], cols, j);
      assert Transpose(a, cols)[j][1..] == Transpose(a[1..], cols)[j];
    }
  }

  /** u' a is a' u. */
  lemma RowCombTranspose(u: Vec, a: Mat, cols: nat)
    requires IsMat(a, |u|, cols)
    ensures RowComb(u, a, cols) == MatVec(Transpose(a, cols), u)
  {
    forall j | 0 <= j < cols ensures RowComb(u, a, cols)[j] == MatVec(Transpose(a, cols), u)[j] {
      RowCombAt(u, a, cols, j);
    }
  }

  lemma MatMulVec(a: Mat, b: Mat, v: Vec)
    requires IsMat(a, |a|, |b|) && IsMat(b, |b|, |v|)
    ensures MatVec(MatMul(a, b, |v|), v) == MatVec(a, MatVec(b, v))
  {
    forall i | 0 <= i < |a| ensures MatVec(MatMul(a, b, |v|), v)[i] == MatVec(a, MatVec(b, v))[i] {
      RowCombDot(a[i], b, v);
    }
  }

  /** u' (a v) == (a' u)' v. */
  lemma Adjoint(a: Mat, u: Vec, v: Vec)
    requires IsMat(a, |u|, |v|)
    ensures Bil(a, u, v) == Dot(MatVec(Transpose(a, |v|), u), v)
  {
    RowCombDot(u, a, v);
    RowCombTranspose(u, a, |v|);
  }

  lemma MatVecLinear(a: Mat, u: Vec, v: Vec, k: real)
    requires |u| == |v| && IsMat(a, |a|, |u|)
    ensures MatVec(a, VAdd(u, v)) == VAdd(MatVec(a, u), MatVec(a, v))
    ensures MatVec(a, VSub(u, v)) == VSub(MatVec(a, u), MatVec(a, v))
    ensures MatVec(a, VScale(k, u)) == VScale(k, MatVec(a, u))
  {
    forall i | 0 <= i < |a|
      ensures Dot(a[i], VAdd(u, v)) == Dot(a[i], u) + Dot(a[i], v)
      ensures Dot(a[i], VSub(u, v)) == Dot(a[i], u) - Dot(a[i], v)
      ensures Dot(a[i], VScale(k, u)) == Mul(k, Dot(a[i], u))
    {
      DotAdd(a[i], u, v); DotSub(a[i], u, v); DotScale(a[i], k, u);
    }
  }

  lemma MatSumVec(a: Mat, b: Mat, v: Vec, k: real)
    requires IsMat(a, |a|, |v|) && IsMat(b, |a|, |v|)
    ensures MatVec(MAdd(a, b, |v|), v) == VAdd(MatVec(a, v), MatVec(b, v))
    ensures MatVec(MSub(a, b, |v|), v) == VSub(MatVec(a, v), MatVec(b, v))
    ensures MatVec(MScale(k, a, |v|), v) == VScale(k, MatVec(a, v))
  {
    forall i | 0 <= i < |a|
      ensures Dot(VAdd(a[i], b[i]), v) == Dot(a[i], v) + Dot(b[i], v)
      ensures Dot(VSub(a[i], b[i]), v) == Dot(a[i], v) - Dot(b[i], v)
      ensures Dot(VScale(k, a[i]), v) == Mul(k, Dot(a[i], v))
    {
      DotLeft(a[i], b[i], v, k);
    }
  }

  lemma OuterVec(d: Vec, e: Vec, v: Vec)
    requires |e| == |v|
    ensures MatVec(Outer(d, e), v) == VScale(Dot(e, v), d)
  {
    forall i | 0 <= i < |d| ensures MatVec(Outer(d, e), v)[i] == VScale(Dot(e, v), d)[i] {
      DotLeft(e, e, v, d[i]);
    }
  }

  lemma IdentityVec(v: Vec)
    ensures MatVec(Identity(|v|), v) == v
  {
    forall i | 0 <= i < |v| ensures Dot(Unit(|v|, i), v) == v[i] {
      DotSingle(Unit(|v|, i), v, i);
    }
  }

  // ----- bilinear forms and symmetry

  lemma BilUnit(a: Mat, n: nat, i: nat, j: nat)
    requires IsMat(a, n, n) && i < n && j < n
    ensures Bil(a, Unit(n, i), Unit(n, j)) == a[i][j]
  {
    DotSingle(Unit(n, i), MatVec(a, Unit(n, j)), i);
    DotComm(a[i], Unit(n, j));
    DotSingle(Unit(n, j), a[i], j);
  }

  /** Entrywise symmetry is symmetry of the bilinear form. */
  lemma SymmetricBil(a: Mat, u: Vec, v: Vec)
    requires |u| == |v| && Symmetric(a, |u|)
    ensures Bil(a, u, v) == Bil(a, v, u)
  {
    assert Transpose(a, |v|) == a by {
      forall i | 0 <= i < |u| ensures Transpose(a, |v|)[i] == a[i] {
        forall j | 0 <= j < |u| ensures Transpose(a, |v|)[i][j] == a[i][j] {
          assert At(a, i, j) == At(a, j, i);
        }
      }
    }
    Adjoint(a, u, v);
    DotComm(MatVec(a, u), v);
  }

  lemma BilSymmetric(a: Mat, n: nat)
    requires IsMat(a, n, n)
    requires forall u: Vec, v: Vec {:trigger Bil(a, u, v)} :: |u| == n && |v| == n ==> Bil(a, u, v) == Bil(a, v, u)
    ensures Symmetric(a, n)
  {
    forall i, j | 0 <= i < n && 0 <= j < n ensures At(a, i, j) == At(a, j, i) {
      BilUnit(a, n, i, j);
      BilUnit(a, n, j, i);
      assert Bil(a, Unit(n, i), Unit(n, j)) == Bil(a, Unit(n, j), Unit(n, i));
    }
  }

  /** j p j' as the covariance code writes it. */
  function Congruence(j: Mat, p: Mat, n: nat): (m: Mat)
    requires IsMat(j, |j|, n) && IsMat(p, n, n)
    ensures IsMat(m, |j|, |j|)
  {
    MatMul(MatMul(j, p, n), Transpose(j, n), |j|)
  }

  lemma CongruenceBil(j: Mat, p: Mat, n: nat, u: Vec, v: Vec)
    requires IsMat(j, |j|, n) && IsMat(p, n, n) && |u| == |j| && |v| == |j|
    ensures Bil(Congruence(j, p, n), u, v)
         == Bil(p, MatVec(Transpose(j, n), u), MatVec(Transpose(j, n), v))
  {
    var jt := Transpose(j, n);
    MatMulVec(MatMul(j, p, n), jt, v);
    MatMulVec(j, p, MatVec(jt, v));
    Adjoint(j, u, MatVec(p, MatVec(jt, v)));
  }

  // ----- the positive semidefinite cone

  lemma PsdQuad(a: Mat, v: Vec)
    requires Psd(a, |v|)
    ensures Quad(a, v) >= 0.0
  {
  }

  lemma PsdIntro(a: Mat, n: nat)
    requires IsMat(a, n, n)
    requires forall u: Vec, v: Vec {:trigger Bil(a, u, v)} :: |u| == n && |v| == n ==> Bil(a, u, v) == Bil(a, v, u)
    requires forall v: Vec {:trigger Quad(a, v)} :: |v| == n ==> Quad(a, v) >= 0.0
    ensures Psd(a, n)
  {
    BilSymmetric(a, n);
  }

  /** A congruence j p j' of a covariance is a covariance. */
  lemma PsdCongruence(j: Mat, p: Mat, n: nat)
    requires IsMat(j, |j|, n) && Psd(p, n)
    ensures Psd(Congruence(j, p, n), |j|)
  {
    var m := Congruence(j, p, n);
    forall u: Vec, v: Vec | |u| == |j| && |v| == |j| ensures Bil(m, u, v) == Bil(m, v, u) {
      CongruenceBil(j, p, n, u, v);
      CongruenceBil(j, p, n, v, u);
      SymmetricBil(p, MatVec(Transpose(j, n), u), MatVec(Transpose(j, n), v));
    }
    forall v: Vec | |v| == |j| ensures Quad(m, v) >= 0.0 {
      CongruenceBil(j, p, n, v, v);
      assert Quad(p, MatVec(Transpose(j, n), v)) >= 0.0;
    }
    PsdIntro(m, |j|);
  }

  lemma QuadSum(a: Mat, b: Mat, v: Vec, k: real)
    requires IsMat(a, |v|, |v|) && IsMat(b, |v|, |v|)
    ensures Quad(MAdd(a, b, |v|), v) == Quad(a, v) + Quad(b, v)
    ensures Quad(MScale(k, a, |v|), v) == Mul(k, Quad(a, v))
  {
    MatSumVec(a, b, v, k);
    DotAdd(v, MatVec(a, v), MatVec(b, v));
    DotScale(v, k, MatVec(a, v));
  }

  lemma SumSymmetric(a: Mat, b: Mat, n: nat, k: real)
    requires Symmetric(a, n) && Symmetric(b, n)
    ensures Symmetric(MAdd(a, b, n), n)
    ensures Symmetric(MScale(k, a, n), n)
  {
    forall i, j | 0 <= i < n && 0 <= j < n
      ensures At(MAdd(a, b, n), i, j) == At(MAdd(a, b, n), j, i)
      ensures At(MScale(k, a, n), i, j) == At(MScale(k, a, n), j, i)
    {
      assert At(a, i, j) == At(a, j, i) && At(b, i, j) == At(b, j, i);
    }
  }

  lemma SumNonneg(a: Mat, b: Mat, v: Vec, k: real)
    requires Psd(a, |v|) && Psd(b, |v|)
    ensures Quad(MAdd(a, b, |v|), v) >= 0.0
    ensures k >= 0.0 ==> Quad(MScale(k, a, |v|), v) >= 0.0
  {
    QuadSum(a, b, v, k);
    assert Quad(a, v) >= 0.0 && Quad(b, v) >= 0.0;
  }

  /** Covariances are closed under sums and nonnegative multiples. */
  lemma PsdAdd(a: Mat, b: Mat, n: nat)
    requires Psd(a, n) && Psd(b, n)
    ensures Psd(MAdd(a, b, n), n)
  {
    assert Symmetric(MAdd(a, b, n), n) by { SumSymmetric(a, b, n, 0.0); }
    forall v: Vec | |v| == n ensures Quad(MAdd(a, b, n), v) >= 0.0 {
      SumNonneg(a, b, v, 0.0);
    }
  }

  lemma PsdScale(k: real, a: Mat, n: nat)
    requires Psd(a, n) && k >= 0.0
    ensures Psd(MScale(k, a, n), n)
  {
    assert Symmetric(MScale(k, a, n), n) by { SumSymmetric(a, a, n, k); }
    forall v: Vec | |v| == n ensures Quad(MScale(k, a, n), v) >= 0.0 {
      SumNonneg(a, a, v, k);
    }
  }

  lemma PsdOuter(d: Vec)
    ensures Psd(Outer(d, d), |d|)
  {
    forall v: Vec | |v| == |d| ensures Quad(Outer(d, d), v) >= 0.0 {
      OuterVec(d, d, v);
      DotScale(v, Dot(d, v), d);
      DotComm(v, d);
    }
  }

  /** A diagonal matrix. */
  function Diag(d: Vec): (m: Mat)
    ensures IsMat(m, |d|, |d|)
    ensures forall i :: 0 <= i < |d| ==> m[i] == VScale(d[i], Unit(|d|, i))
  {
    seq(|d|, i requires 0 <= i < |d| => VScale(d[i], Unit(|d|, i)))
  }

  lemma {:induction false} DotNonneg(u: Vec, v: Vec)
    requires |u| == |v| && forall i :: 0 <= i < |u| ==> Mul(u[i], v[i]) >= 0.0
    ensures Dot(u, v) >= 0.0
  {
    if u != [] {
      assert forall i :: 0 <= i < |u[1..]| ==> Mul(u[1..][i], v[1..][i]) == Mul(u[i + 1], v[i + 1]);
      DotNonneg(u[1..], v[1..]);
    }
  }

  lemma WeightedSquare(d: real, v: real)
    requires d >= 0.0
    ensures Mul(v, Mul(Mul(d, 1.0), v)) >= 0.0
  {
    assert Mul(v, v) >= 0.0;
    assert Mul(v, Mul(Mul(d, 1.0), v)) == Mul(d, Mul(v, v));
  }

  lemma DiagQuad(d: Vec, v: Vec)
    requires |d| == |v| && forall i :: 0 <= i < |d| ==> d[i] >= 0.0
    ensures Quad(Diag(d), v) >= 0.0
  {
    forall i | 0 <= i < |d| ensures Mul(v[i], MatVec(Diag(d), v)[i]) >= 0.0 {
      DotSingle(Diag(d)[i], v, i);
      WeightedSquare(d[i], v[i]);
    }
    DotNonneg(v, MatVec(Diag(d), v));
  }

  lemma PsdDiag(d: Vec)
    requires forall i :: 0 <= i < |d| ==> d[i] >= 0.0
    ensures Psd(Diag(d), |d|)
  {
    forall v: Vec | |v| == |d| ensures Quad(Diag(d), v) >= 0.0 {
      DiagQuad(d, v);
    }
  }

  lemma SetDiagonalIsSum(a: Mat, n: nat, k: nat, c: real)
    requires IsMat(a, n, n) && k < n && a[k][k] == 0.0
    ensures a[k := a[k][k := c]] == MAdd(a, Diag(Zeros(n)[k := c]), n)
  {
    var e := Diag(Zeros(n)[k := c]);
    var b := a[k := a[k][k := c]];
    forall i | 0 <= i < n ensures b[i] == MAdd(a, e, n)[i] {
      forall j | 0 <= j < n ensures b[i][j] == MAdd(a, e, n)[i][j] {
        assert e[i][j] == if i == k && j == k then c else 0.0;
      }
    }
  }

  /** Overwriting a zero diagonal entry of a covariance with a variance keeps it one. */
  lemma PsdSetDiagonal(a: Mat, n: nat, k: nat, c: real)
    requires Psd(a, n) && k < n && a[k][k] == 0.0 && c >= 0.0
    ensures Psd(a[k := a[k][k := c]], n)
  {
    SetDiagonalIsSum(a, n, k, c);
    PsdDiag(Zeros(n)[k := c]);
    PsdAdd(a, Diag(Zeros(n)[k := c]), n);
  }

  /** A zero row of j makes the matching diagonal entry of j p j' zero. */
  lemma CongruenceZeroRow(j: Mat, p: Mat, n: nat, k: nat)
    requires IsMat(j, |j|, n) && IsMat(p, n, n) && k < |j|
    requires forall i :: 0 <= i < n ==> j[k][i] == 0.0
    ensures Congruence(j, p, n)[k][k] == 0.0
  {
    var e := Unit(|j|, k);
    var z := MatVec(Transpose(j, n), e);
    forall i | 0 <= i < n ensures z[i] == 0.0 {
      DotComm(Transpose(j, n)[i], e);
      DotSingle(e, Transpose(j, n)[i], k);
    }
    CongruenceBil(j, p, n, e, e);
    DotZero(z, MatVec(p, z));
    BilUnit(Congruence(j, p, n), |j|, k, k);
  }

  lemma Explicit2(u: Vec, v: Vec)
    requires |u| == 2 && |v| == 2
    ensures Dot(u, v) == Mul(u[0], v[0]) + Mul(u[1], v[1])
  {
    assert u[1..] == [u[1]] && v[1..] == [v[1]];
    assert Dot([u[1]], [v[1]]) == Mul(u[1], v[1]) + Dot([], []);
  }

  lemma MatVec2(a: Mat, v: Vec)
    requires IsMat(a, 2, 2) && |v| == 2
    ensures MatVec(a, v) == [Mul(a[0][0], v[0]) + Mul(a[0][1], v[1]), Mul(a[1][0], v[0]) + Mul(a[1][1], v[1])]
  {
    Explicit2(a[0], v);
    Explicit2(a[1], v);
  }

  /** The 2 x 2 minors of a planar covariance. */
  lemma Psd2(s: Mat)
    requires Psd(s, 2)
    ensures s[0][0] >= 0.0 && s[1][1] >= 0.0
    ensures s[0][0] * s[1][1] - s[0][1] * s[1][0] >= 0.0
  {
    var a, b, d := s[0][0], s[0][1], s[1][1];
    assert At(s, 0, 1) == At(s, 1, 0);
    Quad2(s, 1.0, 0.0);
    Quad2(s, 0.0, 1.0);
    assert Quad(s, [1.0, 0.0]) >= 0.0 && Quad(s, [0.0, 1.0]) >= 0.0;
    if a > 0.0 {
      Quad2(s, -b, a);
      assert Quad(s, [-b, a]) >= 0.0;
      MinorFactor(a, b, d);
      if a * d - b * b < 0.0 { assert a * (a * d - b * b) < 0.0; }
    } else if b != 0.0 {
      var t := NegativeAlong(a, b, d);
      Quad2(s, t, 1.0);
      PsdQuad(s, [t, 1.0]);
    }
  }

  lemma NegativeAlong(a: real, b: real, d: real) returns (t: real)
    requires a == 0.0 && b != 0.0
    ensures a * t * t + (b + b) * t * 1.0 + d * 1.0 * 1.0 < 0.0
  {
    t := -(d + 1.0) / (2.0 * b);
    assert 2.0 * b * t == -(d + 1.0);
  }

  lemma MinorFactor(a: real, b: real, d: real)
    ensures a * (-b) * (-b) + (b + b) * (-b) * a + d * a * a == a * (a * d - b * b)
  {
  }

  lemma Quad2(s: Mat, x: real, y: real)
    requires IsMat(s, 2, 2)
    ensures Quad(s, [x, y]) == s[0][0] * x * x + (s[0][1] + s[1][0]) * x * y + s[1][1] * y * y
  {
    var v := [x, y];
    MatVec2(s, v);
    Explicit2(v, MatVec(s, v));
    Quad2Entries(s[0][0], s[0][1], s[1][0], s[1][1], x, y);
  }

  lemma Quad2Entries(a: real, b: real, c: real, d: real, x: real, y: real)
    ensures Mul(x, Mul(a, x) + Mul(b, y)) + Mul(y, Mul(c, x) + Mul(d, y)) == a * x * x + (b + c) * x * y + d * y * y
  {
  }

  /** Every 2 x 2 principal minor of a covariance is nonnegative. */
  lemma PsdMinor(p: Mat, n: nat, i: nat, j: nat)
    requires Psd(p, n) && i < n && j < n
    ensures p[i][i] >= 0.0 && p[j][j] >= 0.0
    ensures p[i][i] * p[j][j] - p[i][j] * p[i][j] >= 0.0
  {
    var sel := [Unit(n, i), Unit(n, j)];
    var g := Congruence(sel, p, n);
    PsdCongruence(sel, p, n);
    Psd2(g);
    SelectEntry(sel, p, n, [i, j], 0, 0);
    SelectEntry(sel, p, n, [i, j], 0, 1);
    SelectEntry(sel, p, n, [i, j], 1, 0);
    SelectEntry(sel, p, n, [i, j], 1, 1);
    assert At(p, i, j) == At(p, j, i);
  }

  lemma SelectEntry(sel: Mat, p: Mat, n: nat, at: seq<nat>, k: nat, l: nat)
    requires |at| == 2 && at[0] < n && at[1] < n && sel == [Unit(n, at[0]), Unit(n, at[1])]
    requires IsMat(p, n, n) && k < 2 && l < 2
    ensures Congruence(sel, p, n)[k][l] == p[at[k]][at[l]]
  {
    SelectUnit(sel, n, at, k);
    SelectUnit(sel, n, at, l);
    CongruenceBil(sel, p, n, Unit(2, k), Unit(2, l));
    BilUnit(Congruence(sel, p, n), 2, k, l);
    BilUnit(p, n, at[k], at[l]);
  }

  lemma SelectUnit(sel: Mat, n: nat, at: seq<nat>, k: nat)
    requires |at| == 2 && at[0] < n && at[1] < n && sel == [Unit(n, at[0]), Unit(n, at[1])] && k < 2
    ensures MatVec(Transpose(sel, n), Unit(2, k)) == Unit(n, at[k])
  {
    forall j | 0 <= j < n ensures MatVec(Transpose(sel, n), Unit(2, k))[j] == Unit(n, at[k])[j] {
      Explicit2(Transpose(sel, n)[j], Unit(2, k));
    }
  }
}
