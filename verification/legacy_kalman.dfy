/** The tracker's single-model path: a constant-velocity filter per track. Its 4 x 4
    covariance never leaves the form of two identical uncoupled axes. */
module LegacyKalman {
  import opened Linear
  import opened Kalman

  datatype Params = Params(processNoise: real, measurementNoise: real, initialVelocityVariance: real)

  predicate ValidParams(ps: Params) {
    ps.processNoise >= 0.0 && ps.measurementNoise > 0.0 && ps.initialVelocityVariance >= 0.0
  }

  /** The constant-velocity transition over dt. */
  function Transition(dt: real): (f: Mat)
    ensures IsMat(f, 4, 4)
  {
    [[1.0, 0.0, dt, 0.0], [0.0, 1.0, 0.0, dt], [0.0, 0.0, 1.0, 0.0], [0.0, 0.0, 0.0, 1.0]]
  }

  /** Discrete white-noise acceleration with spectral density q. */
  function ProcessNoise(dt: real, q: real): (m: Mat)
    ensures IsMat(m, 4, 4)
  {
    Axes(dt * dt * dt * dt / 4.0 * q, dt * dt * dt / 2.0 * q, dt * dt * q)
  }

  function PredictCov(p: Mat, dt: real, q: real): (m: Mat)
    requires IsMat(p, 4, 4)
    ensures IsMat(m, 4, 4)
  {
    MAdd(Congruence(Transition(dt), p, 4), ProcessNoise(dt, q), 4)
  }

  function BirthCov(ps: Params): (m: Mat)
    ensures IsMat(m, 4, 4)
  {
    Diag([ps.measurementNoise, ps.measurementNoise, ps.initialVelocityVariance, ps.initialVelocityVariance])
  }

  /** Two identical uncoupled axes with position variance a, cross term b and velocity
      variance c. */
  function Axes(a: real, b: real, c: real): (m: Mat)
    ensures IsMat(m, 4, 4)
  {
    [[a, 0.0, b, 0.0], [0.0, a, 0.0, b], [b, 0.0, c, 0.0], [0.0, b, 0.0, c]]
  }

  /** The 2 x 2 axis block is symmetric positive semidefinite. */
  predicate AxisPsd(a: real, b: real, c: real) {
    a >= 0.0 && c >= 0.0 && a * c - b * b >= 0.0
  }

  lemma RowComb2(u: Vec, m: Mat, cols: nat)
    requires |u| == 2 && IsMat(m, 2, cols)
    ensures RowComb(u, m, cols) == VAdd(VScale(u[0], m[0]), VScale(u[1], m[1]))
  {
    assert u[1..] == [u[1]] && m[1..] == [m[1]];
    assert RowComb([u[1]], [m[1]], cols) == VAdd(VScale(u[1], m[1]), RowComb([], [], cols));
  }

  lemma RowComb4(u: Vec, m: Mat, cols: nat)
    requires |u| == 4 && IsMat(m, 4, cols)
    ensures RowComb(u, m, cols)
         == VAdd(VAdd(VScale(u[0], m[0]), VScale(u[1], m[1])), VAdd(VScale(u[2], m[2]), VScale(u[3], m[3])))
  {
    assert u[1..][1..] == [u[2], u[3]] && m[1..][1..] == [m[2], m[3]];
    RowComb2(u[1..][1..], m[1..][1..], cols);
    assert RowComb(u, m, cols) == VAdd(VScale(u[0], m[0]), RowComb(u[1..], m[1..], cols));
    assert RowComb(u[1..], m[1..], cols) == VAdd(VScale(u[1], m[1]), RowComb(u[1..][1..], m[1..][1..], cols));
  }

  lemma RowTimes(u: Vec, m: Mat)
    requires |u| == 4 && IsMat(m, 4, 4)
    ensures RowComb(u, m, 4) == [RowEntry(u, m, 0), RowEntry(u, m, 1), RowEntry(u, m, 2), RowEntry(u, m, 3)]
  {
    RowComb4(u, m, 4);
  }

  function RowEntry(u: Vec, m: Mat, j: nat): real
    requires |u| == 4 && IsMat(m, 4, 4) && j < 4
  {
    Mul(u[0], m[0][j]) + Mul(u[1], m[1][j]) + Mul(u[2], m[2][j]) + Mul(u[3], m[3][j])
  }

  lemma ZeroOne(x: real)
    ensures Mul(x, 0.0) == 0.0 && Mul(x, 1.0) == x && Mul(0.0, x) == 0.0 && Mul(1.0, x) == x
  {
  }

  lemma AxesEntries(u: Vec, a: real, b: real, c: real)
    requires |u| == 4
    ensures RowEntry(u, Axes(a, b, c), 0) == Mul(u[0], a) + Mul(u[2], b)
    ensures RowEntry(u, Axes(a, b, c), 1) == Mul(u[1], a) + Mul(u[3], b)
    ensures RowEntry(u, Axes(a, b, c), 2) == Mul(u[0], b) + Mul(u[2], c)
    ensures RowEntry(u, Axes(a, b, c), 3) == Mul(u[1], b) + Mul(u[3], c)
  {
  }

  lemma TransitionEntries(u: Vec, dt: real)
    requires |u| == 4
    ensures var t := Transpose(Transition(dt), 4);
            && RowEntry(u, t, 0) == u[0] + Mul(u[2], dt)
            && RowEntry(u, t, 1) == u[1] + Mul(u[3], dt)
            && RowEntry(u, t, 2) == u[2] && RowEntry(u, t, 3) == u[3]
  {
  }

  function Row4(u: Vec, m: Mat): (w: Vec)
    requires |u| == 4 && IsMat(m, 4, 4)
    ensures |w| == 4
  {
    [RowEntry(u, m, 0), RowEntry(u, m, 1), RowEntry(u, m, 2), RowEntry(u, m, 3)]
  }

  lemma Product4(a: Mat, b: Mat)
    requires IsMat(a, 4, 4) && IsMat(b, 4, 4)
    ensures MatMul(a, b, 4) == [Row4(a[0], b), Row4(a[1], b), Row4(a[2], b), Row4(a[3], b)]
  {
    RowTimes(a[0], b); RowTimes(a[1], b); RowTimes(a[2], b); RowTimes(a[3], b);
  }

  lemma TransitionTimesAxes(a: real, b: real, c: real, dt: real)
    ensures var x, y := a + Mul(dt, b), b + Mul(dt, c);
            MatMul(Transition(dt), Axes(a, b, c), 4) ==
            [[x, 0.0, y, 0.0], [0.0, x, 0.0, y], [b, 0.0, c, 0.0], [0.0, b, 0.0, c]]
  {
    var f := Transition(dt);
    Product4(f, Axes(a, b, c));
    AxesEntries(f[0], a, b, c); AxesEntries(f[1], a, b, c);
    AxesEntries(f[2], a, b, c); AxesEntries(f[3], a, b, c);
    ZeroOne(a); ZeroOne(b); ZeroOne(c);
  }

  lemma CongruenceAxes(a: real, b: real, c: real, dt: real)
    ensures var x, y := a + Mul(dt, b), b + Mul(dt, c);
            Congruence(Transition(dt), Axes(a, b, c), 4) == Axes(x + Mul(y, dt), y, c)
  {
    hide Mul, RowComb;
    var fp := MatMul(Transition(dt), Axes(a, b, c), 4);
    TransitionTimesAxes(a, b, c, dt);
    Product4(fp, Transpose(Transition(dt), 4));
    TransitionEntries(fp[0], dt); TransitionEntries(fp[1], dt);
    TransitionEntries(fp[2], dt); TransitionEntries(fp[3], dt);
    ZeroOne(dt);
    MulComm(c, dt);
  }

  /** Two axes a time later: the velocity has spread into the position, and the noise into
      both. */
  function SpreadAxes(a: real, b: real, c: real, dt: real, q: real): (m: Mat)
    ensures IsMat(m, 4, 4)
  {
    Axes(a + 2.0 * dt * b + dt * dt * c + dt * dt * dt * dt / 4.0 * q, b + dt * c + dt * dt * dt / 2.0 * q, c + dt * dt * q)
  }

  /** A predict step keeps the two axes identical and uncoupled. */
  lemma PredictAxes(a: real, b: real, c: real, dt: real, q: real)
    ensures PredictCov(Axes(a, b, c), dt, q) == SpreadAxes(a, b, c, dt, q)
  {
    hide Congruence, Axes;
    CongruenceAxes(a, b, c, dt);
    var x, y := a + Mul(dt, b), b + Mul(dt, c);
    PredictArithmetic(a, b, c, dt);
    SumAxes(x + Mul(y, dt), y, c, dt * dt * dt * dt / 4.0 * q, dt * dt * dt / 2.0 * q, dt * dt * q);
  }

  lemma PredictArithmetic(a: real, b: real, c: real, dt: real)
    ensures a + Mul(dt, b) + Mul(b + Mul(dt, c), dt) == a + 2.0 * dt * b + dt * dt * c
    ensures b + Mul(dt, c) == b + dt * c
  {
  }

  lemma SumAxes(a: real, b: real, c: real, a': real, b': real, c': real)
    ensures MAdd(Axes(a, b, c), Axes(a', b', c'), 4) == Axes(a + a', b + b', c + c')
  {
    var m, n := Axes(a, b, c), Axes(a', b', c');
    assert VAdd(m[0], n[0]) == [a + a', 0.0, b + b', 0.0] && VAdd(m[1], n[1]) == [0.0, a + a', 0.0, b + b'];
    assert VAdd(m[2], n[2]) == [b + b', 0.0, c + c', 0.0] && VAdd(m[3], n[3]) == [0.0, b + b', 0.0, c + c'];
  }

  // ----- the measurement update on axis form

  /** For the axis form the innovation matrix is (a + r) I. */
  lemma InnovationAxes(a: real, b: real, c: real, r: real)
    requires Psd(Axes(a, b, c), 4) && r > 0.0
    ensures var s := Innovation(Axes(a, b, c), 4, r);
            s[0] == [a + r, 0.0] && s[1] == [0.0, a + r]
  {
    InnovationEntries(Axes(a, b, c), 4, r);
  }

  lemma InverseScalar(s: Mat, m: real)
    requires IsMat(s, 2, 2) && s[0] == [m, 0.0] && s[1] == [0.0, m] && m > 0.0
    ensures Det2(s) == m * m > 0.0
    ensures Inverse2(s) == [[1.0 / m, 0.0], [0.0, 1.0 / m]]
  {
    assert m * m > 0.0;
    assert Mul(m, 1.0 / (m * m)) == 1.0 / m;
    assert Mul(-0.0, 1.0 / (m * m)) == 0.0;
  }

  lemma ScaledVec(k: real, y: Vec)
    requires |y| == 2
    ensures MatVec([[k, 0.0], [0.0, k]], y) == [Mul(k, y[0]), Mul(k, y[1])]
  {
    MatVec2([[k, 0.0], [0.0, k]], y);
    ZeroOne(y[0]);
    ZeroOne(y[1]);
  }

  /** The axis block after an update with gain factor k = 1 / (a + r). */
  function UpdatedAxes(a: real, b: real, c: real, k: real): (m: Mat)
    ensures IsMat(m, 4, 4)
  {
    Axes(a - Mul(Mul(k, a), a), b - Mul(Mul(k, a), b), c - Mul(Mul(k, b), b))
  }

  /** An update keeps the form too, and its new entries are those of one axis. */
  lemma UpdateAxes(a: real, b: real, c: real, r: real)
    requires Psd(Axes(a, b, c), 4) && r > 0.0 && a >= 0.0
    ensures Det2(Innovation(Axes(a, b, c), 4, r)) > 0.0
    ensures Updated(Axes(a, b, c), 4, r) == UpdatedAxes(a, b, c, 1.0 / (a + r))
  {
    var p := Axes(a, b, c);
    var q := UpdatedAxes(a, b, c, 1.0 / (a + r));
    InnovationInvertible(p, 4, r);
    forall i, j | 0 <= i < 4 && 0 <= j < 4 ensures Updated(p, 4, r)[i][j] == q[i][j] {
      UpdatedAxesEntry(a, b, c, r, i, j);
    }
    forall i | 0 <= i < 4 ensures Updated(p, 4, r)[i] == q[i] {}
  }

  lemma UpdatedAxesEntry(a: real, b: real, c: real, r: real, i: nat, j: nat)
    requires Psd(Axes(a, b, c), 4) && r > 0.0 && a >= 0.0 && i < 4 && j < 4
    requires Det2(Innovation(Axes(a, b, c), 4, r)) > 0.0
    ensures Updated(Axes(a, b, c), 4, r)[i][j] == UpdatedAxes(a, b, c, 1.0 / (a + r))[i][j]
  {
    hide Dot, Mul, Updated, Inverse2, Innovation;
    var p, k := Axes(a, b, c), 1.0 / (a + r);
    var u, v := [p[0][i], p[1][i]], [p[0][j], p[1][j]];
    assert Updated(p, 4, r)[i][j] == p[i][j] - Dot(MatVec(Inverse2(Innovation(p, 4, r)), v), u) by {
      UpdatedForm(p, 4, r, Unit(4, i), Unit(4, j));
      BilUnit(Updated(p, 4, r), 4, i, j);
      BilUnit(p, 4, i, j);
      ImageColumn(p, 4, i);
      ImageColumn(p, 4, j);
    }
    assert Inverse2(Innovation(p, 4, r)) == [[k, 0.0], [0.0, k]] by {
      InnovationAxes(a, b, c, r);
      InverseScalar(Innovation(p, 4, r), a + r);
    }
    ScaledVec(k, v);
    Explicit2([Mul(k, v[0]), Mul(k, v[1])], u);
    AxesEntryArithmetic(a, b, c, k, i, j);
  }

  lemma AxesEntryArithmetic(a: real, b: real, c: real, k: real, i: nat, j: nat)
    requires i < 4 && j < 4
    ensures var p := Axes(a, b, c);
            p[i][j] - (Mul(Mul(k, p[0][j]), p[0][i]) + Mul(Mul(k, p[1][j]), p[1][i])) == UpdatedAxes(a, b, c, k)[i][j]
  {
    hide Mul;
    var p, q := Axes(a, b, c), UpdatedAxes(a, b, c, k);
    var x, y := if i < 2 then a else b, if j < 2 then a else b;
    if i % 2 == j % 2 {
      OneAxis(k, y, x);
      assert p[i % 2][i] == x && p[i % 2][j] == y && p[1 - i % 2][i] == 0.0 && p[1 - i % 2][j] == 0.0;
      assert q[i][j] == p[i][j] - Mul(Mul(k, y), x) by { Swapped(k, a, b); }
    } else {
      OffAxis(k, y, x);
      assert p[i % 2][i] == x && p[i % 2][j] == 0.0 && p[j % 2][i] == 0.0 && p[j % 2][j] == y;
      assert q[i][j] == 0.0 && p[i][j] == 0.0;
    }
  }

  lemma Swapped(k: real, a: real, b: real)
    ensures Mul(Mul(k, b), a) == Mul(Mul(k, a), b)
  {
  }

  lemma OneAxis(k: real, y: real, x: real)
    ensures Mul(Mul(k, y), x) + Mul(Mul(k, 0.0), 0.0) == Mul(Mul(k, y), x)
    ensures Mul(Mul(k, 0.0), 0.0) + Mul(Mul(k, y), x) == Mul(Mul(k, y), x)
  {
  }

  lemma OffAxis(k: real, y: real, x: real)
    ensures Mul(Mul(k, 0.0), x) + Mul(Mul(k, y), 0.0) == 0.0
    ensures Mul(Mul(k, y), 0.0) + Mul(Mul(k, 0.0), x) == 0.0
  {
  }

  // ----- whole runs

  /** One filter step of a track: a predict over dt or a fused measurement. */
  datatype Step = Predict(dt: real) | Measure

  /** The covariance after a step; a predict without elapsed time changes nothing. */
  function AfterStep(ps: Params, p: Mat, step: Step): (m: Mat)
    requires Psd(p, 4) && ValidParams(ps)
    ensures Psd(m, 4)
  {
    match step
    case Predict(dt) =>
      if dt <= 0.0 then p else PredictPsd(p, dt, ps.processNoise); PredictCov(p, dt, ps.processNoise)
    case Measure =>
      UpdatePsd(p, 4, ps.measurementNoise);
      Updated(p, 4, ps.measurementNoise)
  }

  /** The covariance after a whole history of steps since birth. */
  function AfterRun(ps: Params, run: seq<Step>): (m: Mat)
    requires ValidParams(ps)
    ensures Psd(m, 4)
  {
    if run == [] then BirthPsd(ps); BirthCov(ps)
    else AfterStep(ps, AfterRun(ps, run[..|run| - 1]), run[|run| - 1])
  }

  lemma BirthPsd(ps: Params)
    requires ValidParams(ps)
    ensures Psd(BirthCov(ps), 4)
  {
    PsdDiag([ps.measurementNoise, ps.measurementNoise, ps.initialVelocityVariance, ps.initialVelocityVariance]);
  }

  /** The process noise is a covariance: G G' q for the acceleration input G. */
  lemma ProcessNoisePsd(dt: real, q: real)
    requires q >= 0.0
    ensures Psd(ProcessNoise(dt, q), 4)
  {
    var h := dt * dt / 2.0;
    var d, e := [h, 0.0, dt, 0.0], [0.0, h, 0.0, dt];
    PsdOuter(d);
    PsdOuter(e);
    PsdAdd(Outer(d, d), Outer(e, e), 4);
    PsdScale(q, MAdd(Outer(d, d), Outer(e, e), 4), 4);
    OuterAxes(h, dt);
    var x := MScale(q, MAdd(Outer(d, d), Outer(e, e), 4), 4);
    assert x == ProcessNoise(dt, q) by {
      ScaleAxes(q, Mul(h, h), Mul(h, dt), Mul(dt, dt));
      NoiseArithmetic(h, dt, q);
    }
  }

  lemma NoiseArithmetic(h: real, dt: real, q: real)
    requires h == dt * dt / 2.0
    ensures Mul(q, Mul(h, h)) == dt * dt * dt * dt / 4.0 * q
    ensures Mul(q, Mul(h, dt)) == dt * dt * dt / 2.0 * q
    ensures Mul(q, Mul(dt, dt)) == dt * dt * q
  {
    assert h * h == dt * dt * dt * dt / 4.0;
    assert h * dt == dt * dt * dt / 2.0;
  }

  lemma ScaleAxes(k: real, a: real, b: real, c: real)
    ensures MScale(k, Axes(a, b, c), 4) == Axes(Mul(k, a), Mul(k, b), Mul(k, c))
  {
    ZeroOne(k);
    var m := Axes(a, b, c);
    assert VScale(k, m[0]) == [Mul(k, a), 0.0, Mul(k, b), 0.0] && VScale(k, m[1]) == [0.0, Mul(k, a), 0.0, Mul(k, b)];
    assert VScale(k, m[2]) == [Mul(k, b), 0.0, Mul(k, c), 0.0] && VScale(k, m[3]) == [0.0, Mul(k, b), 0.0, Mul(k, c)];
  }

  lemma MulComm(x: real, y: real)
    ensures Mul(x, y) == Mul(y, x) && Mul(0.0, 0.0) == 0.0
  {
  }

  lemma OuterAxes(h: real, t: real)
    ensures var d, e := [h, 0.0, t, 0.0], [0.0, h, 0.0, t];
            MAdd(Outer(d, d), Outer(e, e), 4) == Axes(Mul(h, h), Mul(h, t), Mul(t, t))
  {
    hide Mul;
    var d, e := [h, 0.0, t, 0.0], [0.0, h, 0.0, t];
    var m, n := MAdd(Outer(d, d), Outer(e, e), 4), Axes(Mul(h, h), Mul(h, t), Mul(t, t));
    ZeroOne(h);
    ZeroOne(t);
    MulComm(h, t);
    assert m[0] == n[0] && m[1] == n[1] && m[2] == n[2] && m[3] == n[3];
  }

  lemma PredictPsd(p: Mat, dt: real, q: real)
    requires Psd(p, 4) && q >= 0.0
    ensures Psd(PredictCov(p, dt, q), 4)
  {
    PsdCongruence(Transition(dt), p, 4);
    ProcessNoisePsd(dt, q);
    PsdAdd(Congruence(Transition(dt), p, 4), ProcessNoise(dt, q), 4);
  }

  /** The position/velocity block of one axis is itself a covariance. */
  lemma AxisBlock(a: real, b: real, c: real)
    requires Psd(Axes(a, b, c), 4)
    ensures AxisPsd(a, b, c)
  {
    PsdMinor(Axes(a, b, c), 4, 0, 2);
  }

  /** A covariance made of two identical uncoupled axes, each a covariance itself. */
  ghost predicate TwoAxes(p: Mat) {
    && IsMat(p, 4, 4)
    && p == Axes(p[0][0], p[0][2], p[2][2])
    && AxisPsd(p[0][0], p[0][2], p[2][2])
  }

  lemma TwoAxesIntro(p: Mat, a: real, b: real, c: real)
    requires p == Axes(a, b, c) && Psd(p, 4)
    ensures TwoAxes(p)
  {
    AxisBlock(a, b, c);
  }

  lemma StepKeepsAxes(ps: Params, p: Mat, step: Step)
    requires ValidParams(ps) && Psd(p, 4) && TwoAxes(p)
    ensures TwoAxes(AfterStep(ps, p, step))
  {
    var a, b, c, q := p[0][0], p[0][2], p[2][2], AfterStep(ps, p, step);
    match step
    case Predict(dt) =>
      if dt > 0.0 {
        PredictAxes(a, b, c, dt, ps.processNoise);
        TwoAxesIntro(q, q[0][0], q[0][2], q[2][2]);
      }
    case Measure =>
      UpdateAxes(a, b, c, ps.measurementNoise);
      TwoAxesIntro(q, q[0][0], q[0][2], q[2][2]);
  }

  /** Over every history, the covariance of a track is two identical uncoupled axes
      whose block is symmetric positive semidefinite, and the next innovation matrix
      can be inverted. */
  lemma {:induction false} RunKeepsAxes(ps: Params, run: seq<Step>)
    requires ValidParams(ps)
    ensures TwoAxes(AfterRun(ps, run))
    ensures Det2(Innovation(AfterRun(ps, run), 4, ps.measurementNoise)) > 0.0
  {
    if run == [] {
      BirthAxes(ps);
      BirthPsd(ps);
      TwoAxesIntro(BirthCov(ps), ps.measurementNoise, 0.0, ps.initialVelocityVariance);
    } else {
      RunKeepsAxes(ps, run[..|run| - 1]);
      StepKeepsAxes(ps, AfterRun(ps, run[..|run| - 1]), run[|run| - 1]);
    }
    InnovationInvertible(AfterRun(ps, run), 4, ps.measurementNoise);
  }

  lemma BirthAxes(ps: Params)
    ensures BirthCov(ps) == Axes(ps.measurementNoise, 0.0, ps.initialVelocityVariance)
  {
    var r, v := ps.measurementNoise, ps.initialVelocityVariance;
    ZeroOne(r);
    ZeroOne(v);
    var m, n := BirthCov(ps), Axes(r, 0.0, v);
    assert m[0] == n[0] && m[1] == n[1] && m[2] == n[2] && m[3] == n[3];
  }

  /** A measurement at the end of any history leaves the position variance below the
      measurement noise and not above its prior, along with every other direction. */
  lemma MeasurementTightens(ps: Params, run: seq<Step>, v: Vec, k: nat)
    requires ValidParams(ps) && |v| == 4 && k < 2
    ensures AfterRun(ps, run + [Measure])[k][k] < ps.measurementNoise
    ensures AfterRun(ps, run + [Measure])[k][k] <= AfterRun(ps, run)[k][k]
    ensures Quad(AfterRun(ps, run + [Measure]), v) <= Quad(AfterRun(ps, run), v)
  {
    var p, r := AfterRun(ps, run), ps.measurementNoise;
    assert (run + [Measure])[..|run|] == run;
    UpdateBelowNoise(p, 4, r, k);
    UpdateShrinks(p, 4, r, v);
    UpdateShrinks(p, 4, r, Unit(4, k));
    BilUnit(p, 4, k, k);
    BilUnit(Updated(p, 4, r), 4, k, k);
  }
}
