/** The position-only Kalman measurement update that the tracker's single-model path
    and both models of the IMM filter share: K = P H' S^-1, P+ = (I - K H) P, with
    H selecting the first two state entries and S = H P H' + r I. */
module Kalman {
  import opened Linear

  /** The measurement matrix H: position is the first two entries of the state. */
  function Measure(n: nat): (h: Mat)
    requires n >= 2
    ensures IsMat(h, 2, n)
  {
    [Unit(n, 0), Unit(n, 1)]
  }

  function Noise(r: real): (m: Mat)
    ensures IsMat(m, 2, 2)
  {
    MScale(r, Identity(2), 2)
  }

  function Innovation(p: Mat, n: nat, r: real): (s: Mat)
    requires n >= 2 && IsMat(p, n, n)
    ensures IsMat(s, 2, 2)
  {
    MAdd(Congruence(Measure(n), p, n), Noise(r), 2)
  }

  function Det2(s: Mat): real
    requires IsMat(s, 2, 2)
  {
    s[0][0] * s[1][1] - s[0][1] * s[1][0]
  }

  function Inverse2(s: Mat): (m: Mat)
    requires IsMat(s, 2, 2) && Det2(s) != 0.0
    ensures IsMat(m, 2, 2)
  {
    Adjugate2(s, 1.0 / Det2(s))
  }

  function Adjugate2(s: Mat, i: real): (m: Mat)
    requires IsMat(s, 2, 2)
    ensures IsMat(m, 2, 2)
  {
    [[Mul(s[1][1], i), Mul(-s[0][1], i)], [Mul(-s[1][0], i), Mul(s[0][0], i)]]
  }

  function Gain(p: Mat, n: nat, r: real): (k: Mat)
    requires n >= 2 && IsMat(p, n, n) && Det2(Innovation(p, n, r)) != 0.0
    ensures IsMat(k, n, 2)
  {
    MatMul(MatMul(p, Transpose(Measure(n), n), 2), Inverse2(Innovation(p, n, r)), 2)
  }

  /** The covariance after the update. */
  function Updated(p: Mat, n: nat, r: real): (m: Mat)
    requires n >= 2 && IsMat(p, n, n) && Det2(Innovation(p, n, r)) != 0.0
    ensures IsMat(m, n, n)
  {
    MatMul(MSub(Identity(n), MatMul(Gain(p, n, r), Measure(n), n), n), p, n)
  }

  /** The state after the update with measurement z. */
  function Corrected(x: Vec, p: Mat, r: real, z: Vec): (y: Vec)
    requires |x| >= 2 && IsMat(p, |x|, |x|) && |z| == 2 && Det2(Innovation(p, |x|, r)) != 0.0
    ensures |y| == |x|
  {
    VAdd(x, MatVec(Gain(p, |x|, r), VSub(z, MatVec(Measure(|x|), x))))
  }

  // ----- the innovation matrix

  lemma NoiseVec(r: real, y: Vec)
    requires |y| == 2
    ensures MatVec(Noise(r), y) == VScale(r, y)
  {
    IdentityVec(y);
    MatSumVec(Identity(2), Identity(2), y, r);
  }

  lemma NoisePsd(r: real)
    requires r >= 0.0
    ensures Psd(Noise(r), 2)
    ensures Noise(r) == [[r, 0.0], [0.0, r]]
  {
    PsdDiag([1.0, 1.0]);
    assert Diag([1.0, 1.0]) == Identity(2) by {
      forall i | 0 <= i < 2 ensures Diag([1.0, 1.0])[i] == Identity(2)[i] {}
    }
    PsdScale(r, Identity(2), 2);
    assert Noise(r)[0] == [r, 0.0] && Noise(r)[1] == [0.0, r];
  }

  /** With positive measurement noise the innovation matrix is a covariance with a
      positive determinant, so it is always invertible. */
  lemma InnovationInvertible(p: Mat, n: nat, r: real)
    requires n >= 2 && Psd(p, n) && r > 0.0
    ensures Psd(Innovation(p, n, r), 2)
    ensures Det2(Innovation(p, n, r)) > 0.0
  {
    var g := Congruence(Measure(n), p, n);
    PsdCongruence(Measure(n), p, n);
    NoisePsd(r);
    PsdAdd(g, Noise(r), 2);
    Psd2(g);
    var s := Innovation(p, n, r);
    assert s[0] == [g[0][0] + r, g[0][1]] && s[1] == [g[1][0], g[1][1] + r];
    var a, d := g[0][0], g[1][1];
    assert (a + r) * (d + r) == a * d + r * (a + d + r);
    assert r * (a + d + r) > 0.0;
  }

  /** S^-1 is a two-sided inverse. */
  lemma InverseVec(s: Mat, y: Vec)
    requires IsMat(s, 2, 2) && Det2(s) != 0.0 && |y| == 2
    ensures MatVec(s, MatVec(Inverse2(s), y)) == y
  {
    var m := Inverse2(s);
    var w := MatVec(m, y);
    MatVec2(m, y);
    MatVec2(s, w);
    SolveEntries(s, m, 1.0 / Det2(s), y[0], y[1], w[0], w[1]);
  }

  lemma SolveEntries(s: Mat, m: Mat, i: real, y0: real, y1: real, w0: real, w1: real)
    requires IsMat(s, 2, 2) && IsMat(m, 2, 2) && Det2(s) * i == 1.0
    requires m == Adjugate2(s, i)
    requires w0 == Mul(m[0][0], y0) + Mul(m[0][1], y1) && w1 == Mul(m[1][0], y0) + Mul(m[1][1], y1)
    ensures Mul(s[0][0], w0) + Mul(s[0][1], w1) == y0 && Mul(s[1][0], w0) + Mul(s[1][1], w1) == y1
  {
    var a, b, c, d := s[0][0], s[0][1], s[1][0], s[1][1];
    assert a * (d * i * y0 + -b * i * y1) + b * (-c * i * y0 + a * i * y1) == ((a * d - b * c) * i) * y0;
    assert c * (d * i * y0 + -b * i * y1) + d * (-c * i * y0 + a * i * y1) == ((a * d - b * c) * i) * y1;
  }

  // ----- the updated covariance as a form

  /** The innovation-space image H P v of a direction. */
  function Image(p: Mat, n: nat, v: Vec): (a: Vec)
    requires n >= 2 && IsMat(p, n, n) && |v| == n
    ensures |a| == 2
  {
    MatVec(Measure(n), MatVec(p, v))
  }

  lemma GainVec(p: Mat, n: nat, r: real, t: Vec)
    requires n >= 2 && IsMat(p, n, n) && Det2(Innovation(p, n, r)) != 0.0 && |t| == 2
    ensures MatVec(Gain(p, n, r), t)
         == MatVec(p, MatVec(Transpose(Measure(n), n), MatVec(Inverse2(Innovation(p, n, r)), t)))
  {
    var ht := Transpose(Measure(n), n);
    var i := Inverse2(Innovation(p, n, r));
    MatMulVec(MatMul(p, ht, 2), i, t);
    MatMulVec(p, ht, MatVec(i, t));
  }

  /** u' P+ v == u' P v - (S^-1 H P v)' (H P u). */
  lemma UpdatedForm(p: Mat, n: nat, r: real, u: Vec, v: Vec)
    requires n >= 2 && Psd(p, n) && |u| == n && |v| == n && Det2(Innovation(p, n, r)) != 0.0
    ensures Bil(Updated(p, n, r), u, v)
         == Bil(p, u, v) - Dot(MatVec(Inverse2(Innovation(p, n, r)), Image(p, n, v)), Image(p, n, u))
  {
    var h, k := Measure(n), Gain(p, n, r);
    var pv := MatVec(p, v);
    var a := Image(p, n, v);
    var y := MatVec(Inverse2(Innovation(p, n, r)), a);
    var x := MatVec(Transpose(h, n), y);
    MatMulVec(MSub(Identity(n), MatMul(k, h, n), n), p, v);
    MatSumVec(Identity(n), MatMul(k, h, n), pv, 0.0);
    IdentityVec(pv);
    MatMulVec(k, h, pv);
    GainVec(p, n, r, a);
    DotSub(u, pv, MatVec(p, x));
    SymmetricBil(p, u, x);
    Adjoint(h, y, MatVec(p, u));
  }

  /** y' S y splits into the projected covariance and the noise. */
  lemma InnovationForm(p: Mat, n: nat, r: real, y: Vec)
    requires n >= 2 && IsMat(p, n, n) && |y| == 2
    ensures var x := MatVec(Transpose(Measure(n), n), y);
            Dot(y, MatVec(Innovation(p, n, r), y)) == Bil(p, x, x) + r * Dot(y, y)
  {
    var g := Congruence(Measure(n), p, n);
    MatSumVec(g, Noise(r), y, 0.0);
    NoiseVec(r, y);
    DotAdd(y, MatVec(g, y), VScale(r, y));
    DotScale(y, r, y);
    CongruenceBil(Measure(n), p, n, y, y);
  }

  /** v' P+ v is the prior form of the corrected direction v - H' S^-1 H P v plus the
      noise it picks up: the update never leaves the cone. */
  lemma UpdatedQuad(p: Mat, n: nat, r: real, v: Vec)
    requires n >= 2 && Psd(p, n) && r > 0.0 && |v| == n && Det2(Innovation(p, n, r)) != 0.0
    ensures Quad(Updated(p, n, r), v) >= 0.0
  {
    hide Dot, Mul, Updated, Inverse2, Innovation;
    var s := Innovation(p, n, r);
    var a := Image(p, n, v);
    var y := MatVec(Inverse2(s), a);
    var x := MatVec(Transpose(Measure(n), n), y);
    UpdatedForm(p, n, r, v, v);
    InnovationForm(p, n, r, y);
    InverseVec(s, a);
    Adjoint(Measure(n), y, MatVec(p, v));
    QuadDifference(p, v, x);
    PsdQuad(p, VSub(v, x));
    DotSelf(y);
    assert r * Dot(y, y) >= 0.0;
  }

  lemma QuadDifference(p: Mat, v: Vec, x: Vec)
    requires |x| == |v| && Symmetric(p, |v|)
    ensures Quad(p, VSub(v, x)) == Quad(p, v) - 2.0 * Bil(p, x, v) + Quad(p, x)
  {
    SymmetricBil(p, x, v);
    MatVecLinear(p, v, x, 0.0);
    DotSub(VSub(v, x), MatVec(p, v), MatVec(p, x));
    DotLeft(v, x, MatVec(p, v), 0.0);
    DotLeft(v, x, MatVec(p, x), 0.0);
  }

  lemma InverseSymmetric(s: Mat)
    requires Symmetric(s, 2) && Det2(s) != 0.0
    ensures Symmetric(Inverse2(s), 2)
  {
    assert At(s, 0, 1) == At(s, 1, 0);
    var m := Inverse2(s);
    assert At(m, 0, 1) == At(m, 1, 0);
  }

  lemma InverseQuad(s: Mat, y: Vec)
    requires Psd(s, 2) && Det2(s) != 0.0 && |y| == 2
    ensures Dot(MatVec(Inverse2(s), y), y) >= 0.0
  {
    InverseVec(s, y);
    PsdQuad(s, MatVec(Inverse2(s), y));
  }

  /** The measurement update maps covariances to covariances: for any prior
      covariance and any positive measurement noise, (I - K H) P is symmetric and
      positive semidefinite. */
  lemma UpdatePsd(p: Mat, n: nat, r: real)
    requires n >= 2 && Psd(p, n) && r > 0.0
    ensures Det2(Innovation(p, n, r)) > 0.0
    ensures Psd(Updated(p, n, r), n)
  {
    hide Dot, Mul, Updated, Inverse2, Innovation;
    InnovationInvertible(p, n, r);
    var i := Inverse2(Innovation(p, n, r));
    var m := Updated(p, n, r);
    InverseSymmetric(Innovation(p, n, r));
    forall u: Vec, v: Vec | |u| == n && |v| == n ensures Bil(m, u, v) == Bil(m, v, u) {
      UpdatedForm(p, n, r, u, v);
      UpdatedForm(p, n, r, v, u);
      SymmetricBil(p, u, v);
      SymmetricBil(i, Image(p, n, u), Image(p, n, v));
      DotComm(MatVec(i, Image(p, n, v)), Image(p, n, u));
      DotComm(MatVec(i, Image(p, n, u)), Image(p, n, v));
    }
    forall v: Vec | |v| == n ensures Quad(m, v) >= 0.0 {
      UpdatedQuad(p, n, r, v);
    }
    PsdIntro(m, n);
  }

  /** A measurement never increases the variance along any direction. */
  lemma UpdateShrinks(p: Mat, n: nat, r: real, v: Vec)
    requires n >= 2 && Psd(p, n) && r > 0.0 && |v| == n
    ensures Det2(Innovation(p, n, r)) > 0.0
    ensures Quad(Updated(p, n, r), v) <= Quad(p, v)
  {
    InnovationInvertible(p, n, r);
    UpdatedForm(p, n, r, v, v);
    var a := Image(p, n, v);
    InverseQuad(Innovation(p, n, r), a);
  }

  /** After a measurement each position variance is strictly below the measurement
      noise, however uncertain the prior was. */
  lemma UpdateBelowNoise(p: Mat, n: nat, r: real, k: nat)
    requires n >= 2 && Psd(p, n) && r > 0.0 && k < 2
    ensures Det2(Innovation(p, n, r)) > 0.0
    ensures Updated(p, n, r)[k][k] < r
  {
    assert Det2(Innovation(p, n, r)) > 0.0 by { InnovationInvertible(p, n, r); }
    UpdatedEntry(p, n, r, k);
    ImageBelowNoise(p, n, r, k);
  }

  lemma ImageBelowNoise(p: Mat, n: nat, r: real, k: nat)
    requires n >= 2 && Psd(p, n) && r > 0.0 && k < 2 && Det2(Innovation(p, n, r)) > 0.0
    ensures var a := Image(p, n, Unit(n, k));
            p[k][k] - Dot(MatVec(Inverse2(Innovation(p, n, r)), a), a) < r
  {
    InnovationEntries(p, n, r);
    ImageColumn(p, n, k);
    BelowNoise([[p[0][0], p[0][1]], [p[1][0], p[1][1]]], r, k, Innovation(p, n, r));
  }

  lemma UpdatedEntry(p: Mat, n: nat, r: real, k: nat)
    requires n >= 2 && Psd(p, n) && Det2(Innovation(p, n, r)) != 0.0 && k < n
    ensures var a := Image(p, n, Unit(n, k));
            Updated(p, n, r)[k][k] == p[k][k] - Dot(MatVec(Inverse2(Innovation(p, n, r)), a), a)
  {
    UpdatedForm(p, n, r, Unit(n, k), Unit(n, k));
    BilUnit(Updated(p, n, r), n, k, k);
    BilUnit(p, n, k, k);
  }

  /** The entries of the projected covariance H P H' are the position block of P. */
  lemma ProjectedEntry(p: Mat, n: nat, k: nat, l: nat)
    requires n >= 2 && IsMat(p, n, n) && k < 2 && l < 2
    ensures Congruence(Measure(n), p, n)[k][l] == p[k][l]
  {
    SelectEntry(Measure(n), p, n, [0, 1], k, l);
  }

  /** H P e_j is the position part of the j-th column of P. */
  lemma ImageColumn(p: Mat, n: nat, j: nat)
    requires n >= 2 && IsMat(p, n, n) && j < n
    ensures Image(p, n, Unit(n, j)) == [p[0][j], p[1][j]]
  {
    var w := MatVec(p, Unit(n, j));
    forall i | 0 <= i < 2 ensures w[i] == p[i][j] && Dot(Unit(n, i), w) == w[i] {
      DotComm(p[i], Unit(n, j));
      DotSingle(Unit(n, j), p[i], j);
      DotSingle(Unit(n, i), w, i);
    }
  }

  lemma InnovationEntries(p: Mat, n: nat, r: real)
    requires n >= 2 && Psd(p, n) && r > 0.0
    ensures var s := Innovation(p, n, r);
            && p[0][1] == p[1][0] && p[0][0] >= 0.0 && p[1][1] >= 0.0
            && s[0] == [p[0][0] + r, p[0][1]] && s[1] == [p[1][0], p[1][1] + r]
  {
    hide Dot, RowComb, Congruence;
    PsdMinor(p, n, 0, 1);
    assert At(p, 0, 1) == At(p, 1, 0);
    ProjectedEntry(p, n, 0, 0); ProjectedEntry(p, n, 0, 1);
    ProjectedEntry(p, n, 1, 0); ProjectedEntry(p, n, 1, 1);
    NoisePsd(r);
  }

  lemma BelowNoise(g: Mat, r: real, k: nat, s: Mat)
    requires IsMat(g, 2, 2) && k < 2 && r > 0.0 && g[0][1] == g[1][0] && g[0][0] >= 0.0 && g[1][1] >= 0.0
    requires IsMat(s, 2, 2) && s[0] == [g[0][0] + r, g[0][1]] && s[1] == [g[1][0], g[1][1] + r]
    requires Det2(s) > 0.0
    ensures var a := [g[0][k], g[1][k]];
            g[k][k] - Dot(MatVec(Inverse2(s), a), a) < r
  {
    hide Dot, MatVec, Mul;
    var a, d := [g[0][k], g[1][k]], 1.0 / Det2(s);
    NoiseForm(g, r, k, s, d);
    Reciprocal(Det2(s));
    BelowNoiseEntries(g[k][k], g[0][1], g[1 - k][1 - k], r, d, Det2(s));
  }

  /** The quadratic form of the inverse on the k-th column, entry by entry. */
  lemma NoiseForm(g: Mat, r: real, k: nat, s: Mat, d: real)
    requires IsMat(g, 2, 2) && k < 2 && g[0][1] == g[1][0]
    requires IsMat(s, 2, 2) && s[0] == [g[0][0] + r, g[0][1]] && s[1] == [g[1][0], g[1][1] + r] && Det2(s) > 0.0 && d == 1.0 / Det2(s)
    ensures var a, b, c, v := g[k][k], g[0][1], g[1 - k][1 - k], [g[0][k], g[1][k]];
            Dot(MatVec(Inverse2(s), v), v) == (Mul(Mul(Mul(c + r, d), a) + Mul(Mul(-b, d), b), a)
                                               + Mul(Mul(Mul(-b, d), a) + Mul(Mul(a + r, d), b), b))
  {
    hide Dot, MatVec, Mul, Det2;
    var v, i := [g[0][k], g[1][k]], Inverse2(s);
    MatVec2(i, v);
    Explicit2(MatVec(i, v), v);
  }

  lemma Reciprocal(det: real)
    requires det > 0.0
    ensures Mul(det, 1.0 / det) == 1.0 && 1.0 / det > 0.0
  {
  }

  /** Entrywise, a - q is r - r^2 (c + r) / det with c the variance of the other axis. */
  lemma BelowNoiseEntries(a: real, b: real, c: real, r: real, d: real, det: real)
    requires c >= 0.0 && r > 0.0 && det == (a + r) * (c + r) - b * b && Mul(det, d) == 1.0 && d > 0.0
    ensures a - (Mul(Mul(Mul(c + r, d), a) + Mul(Mul(-b, d), b), a)
               + Mul(Mul(Mul(-b, d), a) + Mul(Mul(a + r, d), b), b)) < r
  {
    hide Mul;
    var n := (c + r) * a * a - b * b * a - b * a * b + (a + r) * b * b;
    BelowNoiseExpand(a, b, c, r, d, n);
    BelowNoiseIdentity(a, b, c, r);
    BelowNoiseDivide(a, n, det, r, c + r, d);
  }

  lemma BelowNoiseIdentity(a: real, b: real, c: real, r: real)
    ensures Mul(a, (a + r) * (c + r) - b * b) - ((c + r) * a * a - b * b * a - b * a * b + (a + r) * b * b)
         == Mul(r, (a + r) * (c + r) - b * b - Mul(r, c + r))
  {
  }

  lemma BelowNoiseDivide(a: real, n: real, det: real, r: real, e: real, d: real)
    requires Mul(det, d) == 1.0 && d > 0.0 && r > 0.0 && e > 0.0
    requires Mul(a, det) - n == Mul(r, det - Mul(r, e))
    ensures a - Mul(d, n) < r
  {
    hide Mul;
    var y := Mul(r, e);
    PositiveProduct(r, e);
    PositiveProduct(r, y);
    PositiveProduct(d, Mul(r, y));
    Distribute(d, Mul(a, det), n);
    Rotate(d, a, det);
    Distribute(r, det, y);
    Distribute(d, Mul(r, det), Mul(r, y));
    Rotate(d, r, det);
  }

  lemma Distribute(x: real, y: real, z: real)
    ensures Mul(x, y - z) == Mul(x, y) - Mul(x, z)
  {
  }

  lemma Rotate(d: real, a: real, det: real)
    requires Mul(det, d) == 1.0
    ensures Mul(d, Mul(a, det)) == a
  {
    assert d * (a * det) == a * (det * d);
  }

  lemma BelowNoiseExpand(a: real, b: real, c: real, r: real, d: real, n: real)
    requires n == (c + r) * a * a - b * b * a - b * a * b + (a + r) * b * b
    ensures Mul(Mul(Mul(c + r, d), a) + Mul(Mul(-b, d), b), a) + Mul(Mul(Mul(-b, d), a) + Mul(Mul(a + r, d), b), b)
         == Mul(d, n)
  {
  }

  // ----- what an update computes

  /** The residual a solved innovation leaves: S w = t has w in proportion to what is left of t. */
  lemma SolvedResidual(p: Mat, n: nat, r: real, t: Vec)
    requires n >= 2 && Psd(p, n) && r > 0.0 && Det2(Innovation(p, n, r)) != 0.0 && |t| == 2
    ensures var w := MatVec(Inverse2(Innovation(p, n, r)), t);
            forall k :: 0 <= k < 2 ==> t[k] - (Mul(p[k][0], w[0]) + Mul(p[k][1], w[1])) == Mul(r, w[k])
  {
    hide Inverse2, Innovation, Dot, Det2;
    var s := Innovation(p, n, r);
    var w := MatVec(Inverse2(s), t);
    InnovationEntries(p, n, r);
    InverseVec(s, t);
    MatVec2(s, w);
    Widened(p[0][0], r, w[0]);
    Widened(p[1][1], r, w[1]);
  }

  lemma Widened(a: real, r: real, w: real)
    ensures Mul(a + r, w) == Mul(a, w) + Mul(r, w)
  {
  }

  /** P H' w takes the first two columns. */
  lemma PositionColumns(p: Mat, n: nat, w: Vec, i: nat)
    requires n >= 2 && IsMat(p, n, n) && |w| == 2 && i < n
    ensures MatVec(p, MatVec(Transpose(Measure(n), n), w))[i] == Mul(p[i][0], w[0]) + Mul(p[i][1], w[1])
  {
    var h := Measure(n);
    var x := MatVec(Transpose(h, n), w);
    DotComm(p[i], x);
    Adjoint(h, w, p[i]);
    DotSingle(Unit(n, 0), p[i], 0);
    DotSingle(Unit(n, 1), p[i], 1);
    Explicit2(w, MatVec(h, p[i]));
    DotComm(x, p[i]);
  }

  /** The corrected state, implicitly: noise times the correction of any entry is the prior
      covariance of that entry with the position times the residual left by the update. For
      the position itself, S times the residual left is the noise times the residual before. */
  lemma CorrectedResidual(x: Vec, p: Mat, r: real, z: Vec)
    requires |x| >= 2 && Psd(p, |x|) && r > 0.0 && |z| == 2 && Det2(Innovation(p, |x|, r)) != 0.0
    ensures var y := Corrected(x, p, r, z);
            && (forall i :: 0 <= i < |x| ==> Mul(r, y[i] - x[i]) == Mul(p[i][0], z[0] - y[0]) + Mul(p[i][1], z[1] - y[1]))
            && MatVec(Innovation(p, |x|, r), [z[0] - y[0], z[1] - y[1]]) == [Mul(r, z[0] - x[0]), Mul(r, z[1] - x[1])]
  {
    hide Inverse2, Innovation, Dot, Det2, Gain, Mul;
    var n, s, y := |x|, Innovation(p, |x|, r), Corrected(x, p, r, z);
    PositionOf(x);
    var t := VSub(z, MatVec(Measure(n), x));
    var w := MatVec(Inverse2(s), t);
    GainVec(p, n, r, t);
    SolvedResidual(p, n, r, t);
    forall i | 0 <= i < n ensures y[i] - x[i] == Mul(p[i][0], w[0]) + Mul(p[i][1], w[1]) { PositionColumns(p, n, w, i); }
    assert z[0] - y[0] == Mul(r, w[0]) && z[1] - y[1] == Mul(r, w[1]);
    forall i | 0 <= i < n ensures Mul(r, y[i] - x[i]) == Mul(p[i][0], z[0] - y[0]) + Mul(p[i][1], z[1] - y[1]) {
      Through(r, p[i][0], w[0], p[i][1], w[1]);
    }
    var e := [z[0] - y[0], z[1] - y[1]];
    InnovationEntries(p, n, r);
    MatVec2(s, e);
    Widened(p[0][0], r, e[0]);
    Widened(p[1][1], r, e[1]);
    Whole(r, z[0], y[0], x[0]);
    Whole(r, z[1], y[1], x[1]);
  }

  lemma PositionOf(x: Vec)
    requires |x| >= 2
    ensures MatVec(Measure(|x|), x) == [x[0], x[1]]
  {
    DotSingle(Unit(|x|, 0), x, 0);
    DotSingle(Unit(|x|, 1), x, 1);
  }

  lemma Through(r: real, a: real, w: real, b: real, v: real)
    ensures Mul(r, Mul(a, w) + Mul(b, v)) == Mul(a, Mul(r, w)) + Mul(b, Mul(r, v))
  {
  }

  lemma Whole(r: real, z: real, y: real, x: real)
    ensures Mul(r, y - x) + Mul(r, z - y) == Mul(r, z - x)
  {
  }

  /** The updated covariance, implicitly: noise times what an entry loses is its prior
      covariance with the position times the position's updated covariance with the other. */
  lemma UpdatedLoss(p: Mat, n: nat, r: real, i: nat, j: nat)
    requires n >= 2 && Psd(p, n) && r > 0.0 && Det2(Innovation(p, n, r)) != 0.0 && i < n && j < n
    ensures var q := Updated(p, n, r);
            Mul(r, p[i][j] - q[i][j]) == Mul(p[i][0], q[0][j]) + Mul(p[i][1], q[1][j])
  {
    hide Inverse2, Innovation, Dot, Det2, Updated, Mul, Bil, Image;
    var q, s := Updated(p, n, r), Innovation(p, n, r);
    ImageColumn(p, n, j);
    var t := [p[0][j], p[1][j]];
    var w := MatVec(Inverse2(s), t);
    SolvedResidual(p, n, r, t);
    UpdatedAt(p, n, r, i, j, w);
    UpdatedAt(p, n, r, 0, j, w);
    UpdatedAt(p, n, r, 1, j, w);
    Through(r, p[i][0], w[0], p[i][1], w[1]);
  }

  lemma UpdatedAt(p: Mat, n: nat, r: real, i: nat, j: nat, w: Vec)
    requires n >= 2 && Psd(p, n) && Det2(Innovation(p, n, r)) != 0.0 && i < n && j < n
    requires |w| == 2 && w == MatVec(Inverse2(Innovation(p, n, r)), [p[0][j], p[1][j]])
    ensures Updated(p, n, r)[i][j] == p[i][j] - (Mul(p[i][0], w[0]) + Mul(p[i][1], w[1]))
  {
    hide Inverse2, Innovation, Dot, Det2, Updated, Bil, Image;
    UpdatedForm(p, n, r, Unit(n, i), Unit(n, j));
    BilUnit(Updated(p, n, r), n, i, j);
    BilUnit(p, n, i, j);
    ImageColumn(p, n, i);
    ImageColumn(p, n, j);
    Explicit2(w, [p[0][i], p[1][i]]);
    Mirrored(p, n, i);
  }

  lemma Mirrored(p: Mat, n: nat, i: nat)
    requires n >= 2 && Psd(p, n) && i < n
    ensures p[0][i] == p[i][0] && p[1][i] == p[i][1]
  {
    assert At(p, 0, i) == At(p, i, 0) && At(p, 1, i) == At(p, i, 1);
  }
}
