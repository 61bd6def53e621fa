/** The interacting-multiple-model filter: a constant-velocity (CV) Kalman filter and a
    constant-turn-rate (CTRV) extended Kalman filter run in parallel and mixed through a
    Markov chain. Trigonometry and the Gaussian density are uninterpreted. */
module Imm {
  import opened Basics
  import opened Linear
  import opened Kalman
  import LegacyKalman

  /** Below this turn rate the CTRV transition uses its straight-line limit. */
  const OMEGA_EPS := 0.0001
  /** Below this speed the CV heading is not trusted. */
  const MIN_HEADING_SPEED := 0.001
  /** Below this total likelihood the prior model probabilities are kept. */
  const LIKELIHOOD_SUM_FLOOR := 0.000000000000000000000000000001

  datatype Params = Params(
    processNoise: real, measurementNoise: real, initialVelocityVariance: real,
    pCvStay: real, pCtrvStay: real,
    accelNoise: real, yawAccelNoise: real, initOmegaVariance: real)

  /** What the tracker node's configuration accepts. */
  predicate ValidParams(ps: Params) {
    && ps.processNoise >= 0.0 && ps.measurementNoise > 0.0 && ps.initialVelocityVariance >= 0.0
    && 0.0 < ps.pCvStay < 1.0 && 0.0 < ps.pCtrvStay < 1.0
    && ps.accelNoise >= 0.0 && ps.yawAccelNoise >= 0.0 && ps.initOmegaVariance > 0.0
  }

  /** The transcendental functions; `density` is what the likelihood routine returns for
      a squared Mahalanobis distance and a determinant, zero where it underflows. */
  datatype Maths = Maths(
    sin: real -> real, cos: real -> real, atan2: (real, real) -> real, hypot: (real, real) -> real,
    wrap: real -> real, density: (real, real) -> real, pi: real)

  ghost predicate ValidMaths(ms: Maths) {
    forall d: real, det: real :: ms.density(d, det) >= 0.0
  }

  /** The uninformative heading variance pi^2. */
  function HeadingVariance(ms: Maths): (v: real)
    ensures v >= 0.0
  {
    ms.pi * ms.pi
  }

  datatype State = State(
    xCv: Vec, pCv: Mat, xCtrv: Vec, pCtrv: Mat,
    muCv: real, muCtrv: real, cbarCv: real, cbarCtrv: real)

  predicate Shaped(s: State) {
    |s.xCv| == 4 && IsMat(s.pCv, 4, 4) && |s.xCtrv| == 5 && IsMat(s.pCtrv, 5, 5)
  }

  predicate Simplex(a: real, b: real) {
    a >= 0.0 && b >= 0.0 && a + b == 1.0
  }

  /** The filter invariant. */
  ghost predicate Sound(s: State) {
    && Shaped(s)
    && Psd(s.pCv, 4) && Psd(s.pCtrv, 5)
    && Simplex(s.muCv, s.muCtrv)
    && Simplex(s.cbarCv, s.cbarCtrv)
  }

  // ----- conversions between the two state spaces

  function CtrvToCv(ms: Maths, x: Vec): (y: Vec)
    requires |x| == 5
    ensures |y| == 4
  {
    [x[0], x[1], x[2] * ms.cos(x[3]), x[2] * ms.sin(x[3])]
  }

  function CtrvToCvJacobian(ms: Maths, x: Vec): (j: Mat)
    requires |x| == 5
    ensures IsMat(j, 4, 5)
  {
    var st, ct := ms.sin(x[3]), ms.cos(x[3]);
    [[1.0, 0.0, 0.0, 0.0, 0.0], [0.0, 1.0, 0.0, 0.0, 0.0],
     [0.0, 0.0, ct, -x[2] * st, 0.0], [0.0, 0.0, st, x[2] * ct, 0.0]]
  }

  function CvToCtrvJacobian(ms: Maths, x: Vec, priorTheta: real): (j: Mat)
    requires |x| == 4
    ensures IsMat(j, 5, 4)
    ensures j[4] == Zeros(4)
    ensures ms.hypot(x[2], x[3]) < MIN_HEADING_SPEED ==> j[3] == Zeros(4)
  {
    var v := ms.hypot(x[2], x[3]);
    var z := Zeros(4);
    if v >= MIN_HEADING_SPEED then
      [[1.0, 0.0, 0.0, 0.0], [0.0, 1.0, 0.0, 0.0], [0.0, 0.0, x[2] / v, x[3] / v],
       [0.0, 0.0, -x[3] / (v * v), x[2] / (v * v)], z]
    else
      [[1.0, 0.0, 0.0, 0.0], [0.0, 1.0, 0.0, 0.0], [0.0, 0.0, ms.cos(priorTheta), ms.sin(priorTheta)], z, z]
  }

  function CvToCtrv(ms: Maths, x: Vec, priorTheta: real): (y: Vec)
    requires |x| == 4
    ensures |y| == 5
  {
    var v := ms.hypot(x[2], x[3]);
    [x[0], x[1], v, if v >= MIN_HEADING_SPEED then ms.atan2(x[3], x[2]) else priorTheta, 0.0]
  }

  /** The converted covariance, with the unobservable diagonals overwritten. */
  function CvToCtrvCov(ms: Maths, x: Vec, p: Mat, priorTheta: real, omegaVariance: real): (q: Mat)
    requires |x| == 4 && IsMat(p, 4, 4)
    ensures IsMat(q, 5, 5)
  {
    var c := Congruence(CvToCtrvJacobian(ms, x, priorTheta), p, 4);
    var h := if ms.hypot(x[2], x[3]) >= MIN_HEADING_SPEED then c else c[3 := c[3][3 := HeadingVariance(ms)]];
    h[4 := h[4][4 := omegaVariance]]
  }

  // ----- mixing

  function CbarCv(ps: Params, muCv: real, muCtrv: real): real {
    Mul(ps.pCvStay, muCv) + Mul(1.0 - ps.pCtrvStay, muCtrv)
  }

  function CbarCtrv(ps: Params, muCv: real, muCtrv: real): real {
    Mul(1.0 - ps.pCvStay, muCv) + Mul(ps.pCtrvStay, muCtrv)
  }

  /** Mixing weights: column j is the distribution of the previous mode given mode j. */
  datatype Mixing = Mixing(cvCv: real, ctrvCv: real, cvCtrv: real, ctrvCtrv: real)

  /** Each column of mixing weights is itself a point of the simplex. */
  function MixingWeights(ps: Params, muCv: real, muCtrv: real): (w: Mixing)
    requires 0.0 < ps.pCvStay < 1.0 && 0.0 < ps.pCtrvStay < 1.0 && Simplex(muCv, muCtrv)
    ensures Simplex(w.cvCv, w.ctrvCv) && Simplex(w.cvCtrv, w.ctrvCtrv)
  {
    CbarPositive(ps, muCv, muCtrv);
    var cv := Shares(Mul(ps.pCvStay, muCv), Mul(1.0 - ps.pCtrvStay, muCtrv));
    var ctrv := Shares(Mul(1.0 - ps.pCvStay, muCv), Mul(ps.pCtrvStay, muCtrv));
    Mixing(cv.0, cv.1, ctrv.0, ctrv.1)
  }

  /** Two nonnegative masses as shares of their total. */
  function Shares(a: real, b: real): (r: (real, real))
    requires a >= 0.0 && b >= 0.0 && a + b > 0.0
    ensures Simplex(r.0, r.1)
    ensures r.0 * (a + b) == a && r.1 * (a + b) == b
  {
    assert a / (a + b) + b / (a + b) == (a + b) / (a + b);
    (a / (a + b), b / (a + b))
  }

  /** The mixture covariance of two estimates with weights a, b and deviations d, e. */
  function MixCov(a: real, p: Mat, d: Vec, b: real, q: Mat, e: Vec): (m: Mat)
    requires |d| == |e| && IsMat(p, |d|, |d|) && IsMat(q, |d|, |d|)
    ensures IsMat(m, |d|, |d|)
  {
    MAdd(MScale(a, MAdd(p, Outer(d, d), |d|), |d|), MScale(b, MAdd(q, Outer(e, e), |d|), |d|), |d|)
  }

  function Blend(a: real, x: Vec, b: real, y: Vec): (z: Vec)
    requires |x| == |y|
    ensures |z| == |x|
  {
    VAdd(VScale(a, x), VScale(b, y))
  }

  function MixedCvState(ms: Maths, s: State, a: real, b: real): (x: Vec)
    requires Shaped(s)
    ensures |x| == 4
  {
    Blend(a, s.xCv, b, CtrvToCv(ms, s.xCtrv))
  }

  function CtrvCovInCv(ms: Maths, s: State): (p: Mat)
    requires Shaped(s)
    ensures IsMat(p, 4, 4)
  {
    Congruence(CtrvToCvJacobian(ms, s.xCtrv), s.pCtrv, 5)
  }

  function MixedCvCov(ms: Maths, s: State, a: real, b: real): (m: Mat)
    requires Shaped(s)
    ensures IsMat(m, 4, 4)
  {
    var x := CtrvToCv(ms, s.xCtrv);
    var x0 := MixedCvState(ms, s, a, b);
    MixCov(a, s.pCv, VSub(s.xCv, x0),
           b, CtrvCovInCv(ms, s), VSub(x, x0))
  }

  /** The heading is blended in a chart centred on the CTRV prior heading. */
  function MixedCtrvState(ms: Maths, s: State, a: real, b: real): (x: Vec)
    requires Shaped(s)
    ensures |x| == 5
  {
    var cv, t := CvToCtrv(ms, s.xCv, s.xCtrv[3]), s.xCtrv[3];
    Blend(a, cv, b, s.xCtrv)[3 := ms.wrap(t + Mul(a, ms.wrap(cv[3] - t)) + Mul(b, ms.wrap(s.xCtrv[3] - t)))]
  }

  function HeadingDeviation(ms: Maths, x: Vec, x0: Vec): (d: Vec)
    requires |x| == 5 && |x0| == 5
    ensures |d| == 5
  {
    VSub(x, x0)[3 := ms.wrap(x[3] - x0[3])]
  }

  function MixedCtrvCov(ms: Maths, ps: Params, s: State, a: real, b: real): (m: Mat)
    requires Shaped(s)
    ensures IsMat(m, 5, 5)
  {
    var x0 := MixedCtrvState(ms, s, a, b);
    MixCov(a, CvToCtrvCov(ms, s.xCv, s.pCv, s.xCtrv[3], ps.initOmegaVariance),
           HeadingDeviation(ms, CvToCtrv(ms, s.xCv, s.xCtrv[3]), x0),
           b, s.pCtrv, HeadingDeviation(ms, s.xCtrv, x0))
  }

  // ----- the CTRV motion model

  function CtrvTransition(ms: Maths, x: Vec, dt: real): (y: Vec)
    requires |x| == 5
    ensures |y| == 5
  {
    var v, th, om := x[2], x[3], x[4];
    var tp := th + om * dt;
    if Abs(om) >= OMEGA_EPS then
      [x[0] + v / om * (ms.sin(tp) - ms.sin(th)), x[1] + v / om * (-ms.cos(tp) + ms.cos(th)), v, ms.wrap(tp), om]
    else
      [x[0] + v * ms.cos(th) * dt, x[1] + v * ms.sin(th) * dt, v, ms.wrap(tp), om]
  }

  function CtrvJacobian(ms: Maths, x: Vec, dt: real): (f: Mat)
    requires |x| == 5
    ensures IsMat(f, 5, 5)
  {
    var v, th, om := x[2], x[3], x[4];
    var st, ct, sp, cp := ms.sin(th), ms.cos(th), ms.sin(th + om * dt), ms.cos(th + om * dt);
    var tail := [[0.0, 0.0, 1.0, 0.0, 0.0], [0.0, 0.0, 0.0, 1.0, dt], [0.0, 0.0, 0.0, 0.0, 1.0]];
    if Abs(om) >= OMEGA_EPS then
      [[1.0, 0.0, (sp - st) / om, v / om * (cp - ct), v * dt / om * cp - v / (om * om) * (sp - st)],
       [0.0, 1.0, (ct - cp) / om, v / om * (sp - st), v * dt / om * sp - v / (om * om) * (ct - cp)]] + tail
    else
      [[1.0, 0.0, dt * ct, -v * dt * st, -0.5 * v * dt * dt * st],
       [0.0, 1.0, dt * st, v * dt * ct, 0.5 * v * dt * dt * ct]] + tail
  }

  function NoiseInput(ms: Maths, theta: real, dt: real): (g: Mat)
    ensures IsMat(g, 5, 2)
  {
    var h := 0.5 * dt * dt;
    [[h * ms.cos(theta), 0.0], [h * ms.sin(theta), 0.0], [dt, 0.0], [0.0, h], [0.0, dt]]
  }

  function CtrvPredictCov(ms: Maths, ps: Params, p: Mat, x0: Vec, dt: real): (m: Mat)
    requires |x0| == 5 && IsMat(p, 5, 5)
    ensures IsMat(m, 5, 5)
  {
    MAdd(Congruence(CtrvJacobian(ms, x0, dt), p, 5),
         Congruence(NoiseInput(ms, x0[3], dt), Diag([ps.accelNoise, ps.yawAccelNoise]), 2), 5)
  }

  // ----- one cycle

  function ResetState(ms: Maths, ps: Params, x: real, y: real): (s: State)
    ensures Shaped(s)
  {
    var r, v := ps.measurementNoise, ps.initialVelocityVariance;
    State([x, y, 0.0, 0.0], Diag([r, r, v, v]),
          [x, y, 0.0, 0.0, 0.0], Diag([r, r, v, HeadingVariance(ms), ps.initOmegaVariance]),
          0.5, 0.5, 0.5, 0.5)
  }

  function PredictState(ms: Maths, ps: Params, s: State, dt: real): (t: State)
    requires ValidParams(ps) && Shaped(s) && Simplex(s.muCv, s.muCtrv)
    ensures Shaped(t)
  {
    if dt <= 0.0 then s.(cbarCv := s.muCv, cbarCtrv := s.muCtrv)
    else
      var w := MixingWeights(ps, s.muCv, s.muCtrv);
      var x0 := MixedCtrvState(ms, s, w.cvCtrv, w.ctrvCtrv);
      State(MatVec(LegacyKalman.Transition(dt), MixedCvState(ms, s, w.cvCv, w.ctrvCv)),
            LegacyKalman.PredictCov(MixedCvCov(ms, s, w.cvCv, w.ctrvCv), dt, ps.processNoise),
            CtrvTransition(ms, x0, dt),
            CtrvPredictCov(ms, ps, MixedCtrvCov(ms, ps, s, w.cvCtrv, w.ctrvCtrv), x0, dt),
            s.muCv, s.muCtrv, CbarCv(ps, s.muCv, s.muCtrv), CbarCtrv(ps, s.muCv, s.muCtrv))
  }

  function Likelihood(ms: Maths, y: Vec, s: Mat): (l: real)
    requires |y| == 2 && IsMat(s, 2, 2)
  {
    if Det2(s) > 0.0 then ms.density(Dot(y, MatVec(Inverse2(s), y)), Det2(s)) else 0.0
  }

  function UpdateState(ms: Maths, ps: Params, s: State, z: Vec): (t: State)
    requires Shaped(s) && |z| == 2
    requires Det2(Innovation(s.pCv, 4, ps.measurementNoise)) != 0.0
    requires Det2(Innovation(s.pCtrv, 5, ps.measurementNoise)) != 0.0
    ensures Shaped(t)
  {
    var r := ps.measurementNoise;
    var x5 := Corrected(s.xCtrv, s.pCtrv, r, z);
    var l0 := Likelihood(ms, VSub(z, MatVec(Measure(4), s.xCv)), Innovation(s.pCv, 4, r));
    var l1 := Likelihood(ms, VSub(z, MatVec(Measure(5), s.xCtrv)), Innovation(s.pCtrv, 5, r));
    State(Corrected(s.xCv, s.pCv, r, z), Updated(s.pCv, 4, r),
          x5[3 := ms.wrap(x5[3])], Updated(s.pCtrv, 5, r),
          Posterior(s.cbarCv, l0, s.cbarCtrv, l1, s.muCv), Posterior(s.cbarCtrv, l1, s.cbarCv, l0, s.muCtrv),
          s.cbarCv, s.cbarCtrv)
  }

  /** The posterior share of one model: prior times likelihood over the total, or the
      previous probability when the total underflows the floor. */
  function Posterior(c: real, l: real, other: real, ol: real, prior: real): real {
    if c * l + other * ol < LIKELIHOOD_SUM_FLOOR then prior else c * l / (c * l + other * ol)
  }

  function CombinedState(ms: Maths, s: State): (x: Vec)
    requires Shaped(s)
    ensures |x| == 4
  {
    Blend(s.muCv, s.xCv, s.muCtrv, CtrvToCv(ms, s.xCtrv))
  }

  function CombinedCov(ms: Maths, s: State): (p: Mat)
    requires Shaped(s)
    ensures IsMat(p, 4, 4)
  {
    MixedCvCov(ms, s, s.muCv, s.muCtrv)
  }

  // ----- soundness

  /** With stay probabilities strictly inside (0, 1) `predict` never divides by zero. */
  lemma CbarPositive(ps: Params, muCv: real, muCtrv: real)
    requires 0.0 < ps.pCvStay < 1.0 && 0.0 < ps.pCtrvStay < 1.0 && Simplex(muCv, muCtrv)
    ensures CbarCv(ps, muCv, muCtrv) > 0.0 && CbarCtrv(ps, muCv, muCtrv) > 0.0
    ensures Simplex(CbarCv(ps, muCv, muCtrv), CbarCtrv(ps, muCv, muCtrv))
    ensures Mul(ps.pCvStay, muCv) >= 0.0 && Mul(1.0 - ps.pCtrvStay, muCtrv) >= 0.0
    ensures Mul(1.0 - ps.pCvStay, muCv) >= 0.0 && Mul(ps.pCtrvStay, muCtrv) >= 0.0
  {
    hide Mul;
    Complement(ps.pCvStay, muCv);
    Complement(ps.pCtrvStay, muCtrv);
    ProductSign(ps.pCvStay, muCv);
    ProductSign(1.0 - ps.pCvStay, muCv);
    ProductSign(1.0 - ps.pCtrvStay, muCtrv);
    ProductSign(ps.pCtrvStay, muCtrv);
  }

  lemma ProductSign(a: real, b: real)
    requires a > 0.0 && b >= 0.0
    ensures Mul(a, b) >= 0.0 && (b > 0.0 ==> Mul(a, b) > 0.0)
  {
  }

  lemma Complement(a: real, b: real)
    ensures Mul(a, b) + Mul(1.0 - a, b) == b
  {
  }

  /** The open interval the configuration demands is exactly what division needs: over
      stay probabilities in [0, 1], `predict` is safe at every point of the simplex if
      and only if both lie strictly inside. */
  lemma DivisionSafeIff(ps: Params)
    requires 0.0 <= ps.pCvStay <= 1.0 && 0.0 <= ps.pCtrvStay <= 1.0
    ensures (forall a: real, b: real {:trigger Simplex(a, b)} :: Simplex(a, b) ==> CbarCv(ps, a, b) != 0.0 && CbarCtrv(ps, a, b) != 0.0)
       <==> (0.0 < ps.pCvStay < 1.0 && 0.0 < ps.pCtrvStay < 1.0)
  {
    assert Simplex(1.0, 0.0) && Simplex(0.0, 1.0);
    if 0.0 < ps.pCvStay < 1.0 && 0.0 < ps.pCtrvStay < 1.0 {
      forall a: real, b: real | Simplex(a, b) ensures CbarCv(ps, a, b) != 0.0 && CbarCtrv(ps, a, b) != 0.0 {
        CbarPositive(ps, a, b);
      }
    }
  }

  lemma MixPsd(a: real, p: Mat, d: Vec, b: real, q: Mat, e: Vec)
    requires |d| == |e| && Psd(p, |d|) && Psd(q, |d|) && a >= 0.0 && b >= 0.0
    ensures Psd(MixCov(a, p, d, b, q, e), |d|)
  {
    var n := |d|;
    PsdOuter(d);
    PsdOuter(e);
    PsdAdd(p, Outer(d, d), n);
    PsdAdd(q, Outer(e, e), n);
    PsdScale(a, MAdd(p, Outer(d, d), n), n);
    PsdScale(b, MAdd(q, Outer(e, e), n), n);
    PsdAdd(MScale(a, MAdd(p, Outer(d, d), n), n), MScale(b, MAdd(q, Outer(e, e), n), n), n);
  }

  /** The converted covariance stays a covariance although two of its diagonal entries
      are overwritten: their Jacobian rows are zero. */
  lemma CvToCtrvPsd(ms: Maths, x: Vec, p: Mat, priorTheta: real, omegaVariance: real)
    requires |x| == 4 && Psd(p, 4) && omegaVariance >= 0.0
    ensures Psd(CvToCtrvCov(ms, x, p, priorTheta, omegaVariance), 5)
  {
    var j := CvToCtrvJacobian(ms, x, priorTheta);
    var c := Congruence(j, p, 4);
    PsdCongruence(j, p, 4);
    assert forall i :: 0 <= i < 4 ==> j[4][i] == 0.0;
    CongruenceZeroRow(j, p, 4, 4);
    if ms.hypot(x[2], x[3]) >= MIN_HEADING_SPEED {
      PsdSetDiagonal(c, 5, 4, omegaVariance);
    } else {
      CongruenceZeroRow(j, p, 4, 3);
      PsdSetDiagonal(c, 5, 3, HeadingVariance(ms));
      PsdSetDiagonal(c[3 := c[3][3 := HeadingVariance(ms)]], 5, 4, omegaVariance);
    }
  }

  lemma ResetSound(ms: Maths, ps: Params, x: real, y: real)
    requires ValidParams(ps)
    ensures Sound(ResetState(ms, ps, x, y))
  {
    var r, v := ps.measurementNoise, ps.initialVelocityVariance;
    PsdDiag([r, r, v, v]);
    PsdDiag([r, r, v, HeadingVariance(ms), ps.initOmegaVariance]);
  }

  lemma MixedCvPsd(ms: Maths, s: State, a: real, b: real)
    requires Sound(s) && a >= 0.0 && b >= 0.0
    ensures Psd(MixedCvCov(ms, s, a, b), 4)
  {
    var x0 := MixedCvState(ms, s, a, b);
    PsdCongruence(CtrvToCvJacobian(ms, s.xCtrv), s.pCtrv, 5);
    MixPsd(a, s.pCv, VSub(s.xCv, x0),
           b, CtrvCovInCv(ms, s), VSub(CtrvToCv(ms, s.xCtrv), x0));
  }

  lemma PredictSound(ms: Maths, ps: Params, s: State, dt: real)
    requires ValidParams(ps) && Sound(s)
    ensures Sound(PredictState(ms, ps, s, dt))
  {
    if dt > 0.0 {
      var w := MixingWeights(ps, s.muCv, s.muCtrv);
      CbarPositive(ps, s.muCv, s.muCtrv);
      MixedCvPsd(ms, s, w.cvCv, w.ctrvCv);
      LegacyKalman.PredictPsd(MixedCvCov(ms, s, w.cvCv, w.ctrvCv), dt, ps.processNoise);
      MixedCtrvPsd(ms, ps, s, w.cvCtrv, w.ctrvCtrv);
      CtrvPredictPsd(ms, ps, MixedCtrvCov(ms, ps, s, w.cvCtrv, w.ctrvCtrv),
                     MixedCtrvState(ms, s, w.cvCtrv, w.ctrvCtrv), dt);
    }
  }

  lemma MixedCtrvPsd(ms: Maths, ps: Params, s: State, a: real, b: real)
    requires Sound(s) && a >= 0.0 && b >= 0.0 && ps.initOmegaVariance >= 0.0
    ensures Psd(MixedCtrvCov(ms, ps, s, a, b), 5)
  {
    var x0 := MixedCtrvState(ms, s, a, b);
    CvToCtrvPsd(ms, s.xCv, s.pCv, s.xCtrv[3], ps.initOmegaVariance);
    MixPsd(a, CvToCtrvCov(ms, s.xCv, s.pCv, s.xCtrv[3], ps.initOmegaVariance),
           HeadingDeviation(ms, CvToCtrv(ms, s.xCv, s.xCtrv[3]), x0),
           b, s.pCtrv, HeadingDeviation(ms, s.xCtrv, x0));
  }

  lemma CtrvPredictPsd(ms: Maths, ps: Params, p: Mat, x0: Vec, dt: real)
    requires ValidParams(ps) && Psd(p, 5) && |x0| == 5
    ensures Psd(CtrvPredictCov(ms, ps, p, x0, dt), 5)
  {
    PsdCongruence(CtrvJacobian(ms, x0, dt), p, 5);
    PsdDiag([ps.accelNoise, ps.yawAccelNoise]);
    PsdCongruence(NoiseInput(ms, x0[3], dt), Diag([ps.accelNoise, ps.yawAccelNoise]), 2);
    PsdAdd(Congruence(CtrvJacobian(ms, x0, dt), p, 5),
           Congruence(NoiseInput(ms, x0[3], dt), Diag([ps.accelNoise, ps.yawAccelNoise]), 2), 5);
  }

  /** Both innovation matrices of a sound filter can be inverted, and the update keeps
      the filter sound, on a likelihood underflow as well. */
  lemma UpdateSound(ms: Maths, ps: Params, s: State, z: Vec)
    requires ValidParams(ps) && ValidMaths(ms) && Sound(s) && |z| == 2
    ensures Det2(Innovation(s.pCv, 4, ps.measurementNoise)) > 0.0
    ensures Det2(Innovation(s.pCtrv, 5, ps.measurementNoise)) > 0.0
    ensures Sound(UpdateState(ms, ps, s, z))
  {
    var r := ps.measurementNoise;
    UpdatePsd(s.pCv, 4, r);
    UpdatePsd(s.pCtrv, 5, r);
    var l0 := Likelihood(ms, VSub(z, MatVec(Measure(4), s.xCv)), Innovation(s.pCv, 4, r));
    var l1 := Likelihood(ms, VSub(z, MatVec(Measure(5), s.xCtrv)), Innovation(s.pCtrv, 5, r));
    PosteriorSimplex(s, l0, l1);
  }

  lemma PosteriorSimplex(s: State, l0: real, l1: real)
    requires Simplex(s.muCv, s.muCtrv) && Simplex(s.cbarCv, s.cbarCtrv) && l0 >= 0.0 && l1 >= 0.0
    ensures Simplex(Posterior(s.cbarCv, l0, s.cbarCtrv, l1, s.muCv), Posterior(s.cbarCtrv, l1, s.cbarCv, l0, s.muCtrv))
  {
    var n0, n1 := s.cbarCv * l0, s.cbarCtrv * l1;
    assert n0 >= 0.0 && n1 >= 0.0;
    if n0 + n1 >= LIKELIHOOD_SUM_FLOOR { var r := Shares(n0, n1); }
  }

  /** The published combined covariance of a sound filter is a covariance. */
  lemma CombinedPsd(ms: Maths, s: State)
    requires Sound(s)
    ensures Psd(CombinedCov(ms, s), 4)
  {
    MixedCvPsd(ms, s, s.muCv, s.muCtrv);
  }

  /** The second moment of a value with variance u about mean x. */
  function Second(u: real, x: real): real { u + Mul(x, x) }

  function Weigh(a: real, x: real, b: real, y: real): real { Mul(a, x) + Mul(b, y) }

  /** Second moments mix linearly when spreads are taken about the common mean m. */
  lemma SpreadAboutMean(a: real, b: real, x: real, y: real, u: real, w: real, m: real, dx: real, dy: real)
    requires a + b == 1.0 && m == Weigh(a, x, b, y) && dx == x - m && dy == y - m
    ensures Second(Weigh(a, Second(u, dx), b, Second(w, dy)), m) == Weigh(a, Second(u, x), b, Second(w, y))
  {
    hide Mul;
    Deviation(a, x, m);
    Deviation(b, y, m);
    SharesOfOne(a, b, Mul(m, m));
    PartsOf(Mul(a, x), Mul(b, y), m);
    Sum(a, u, Mul(dx, dx));
    Sum(a, u, Mul(x, x));
    Sum(b, w, Mul(dy, dy));
    Sum(b, w, Mul(y, y));
  }

  lemma Deviation(a: real, x: real, m: real)
    ensures Mul(a, Mul(x - m, x - m)) == Mul(a, Mul(x, x)) - 2.0 * Mul(Mul(a, x), m) + Mul(a, Mul(m, m))
  {
  }

  lemma SharesOfOne(a: real, b: real, z: real)
    requires a + b == 1.0
    ensures Mul(a, z) + Mul(b, z) == z
  {
    assert (a + b) * z == a * z + b * z;
  }

  lemma PartsOf(p: real, q: real, m: real)
    requires p + q == m
    ensures Mul(p, m) + Mul(q, m) == Mul(m, m)
  {
    assert (p + q) * m == p * m + q * m;
  }

  lemma Sum(a: real, u: real, d: real)
    ensures Mul(a, u + d) == Mul(a, u) + Mul(a, d)
  {
  }

  lemma WeightedQuad(a: real, p: Mat, d: Vec, v: Vec)
    requires |d| == |v| && IsMat(p, |d|, |d|)
    ensures Quad(MScale(a, MAdd(p, Outer(d, d), |d|), |d|), v) == Mul(a, Second(Quad(p, v), Dot(d, v)))
  {
    hide Dot, Mul, Quad;
    QuadSum(MAdd(p, Outer(d, d), |d|), MAdd(p, Outer(d, d), |d|), v, a);
    QuadSum(p, Outer(d, d), v, 0.0);
    OuterQuad(d, v);
  }

  lemma MixQuad(a: real, p: Mat, d: Vec, b: real, q: Mat, e: Vec, v: Vec)
    requires |d| == |e| == |v| && IsMat(p, |d|, |d|) && IsMat(q, |d|, |d|)
    ensures Quad(MixCov(a, p, d, b, q, e), v)
         == Weigh(a, Second(Quad(p, v), Dot(d, v)), b, Second(Quad(q, v), Dot(e, v)))
  {
    hide Dot, Mul, Quad, Second;
    WeightedQuad(a, p, d, v);
    WeightedQuad(b, q, e, v);
    QuadSum(MScale(a, MAdd(p, Outer(d, d), |v|), |v|), MScale(b, MAdd(q, Outer(e, e), |v|), |v|), v, 0.0);
  }

  lemma OuterQuad(d: Vec, v: Vec)
    requires |d| == |v|
    ensures Quad(Outer(d, d), v) == Mul(Dot(d, v), Dot(d, v))
  {
    hide Dot;
    OuterVec(d, d, v);
    DotScale(v, Dot(d, v), d);
    DotComm(v, d);
  }

  /** The published estimate matches the mixture's first two moments in every
      direction: its variance plus squared mean is the weighted sum over both models of
      variance plus squared mean. */
  lemma CombinedMatchesMoments(ms: Maths, s: State, v: Vec)
    requires Shaped(s) && Simplex(s.muCv, s.muCtrv) && |v| == 4
    ensures Second(Quad(CombinedCov(ms, s), v), Dot(CombinedState(ms, s), v))
         == Weigh(s.muCv, Second(Quad(s.pCv, v), Dot(s.xCv, v)),
                  s.muCtrv, Second(Quad(CtrvCovInCv(ms, s), v), Dot(CtrvToCv(ms, s.xCtrv), v)))
  {
    hide Dot, Quad, MixCov, Mul, Second, Weigh, CtrvToCv;
    MixtureMoments(s.muCv, s.pCv, s.xCv, s.muCtrv, CtrvCovInCv(ms, s), CtrvToCv(ms, s.xCtrv), v);
  }

  lemma MixtureMoments(a: real, p: Mat, x: Vec, b: real, q: Mat, y: Vec, v: Vec)
    requires |x| == |y| == |v| && IsMat(p, |v|, |v|) && IsMat(q, |v|, |v|) && a + b == 1.0
    ensures var m := Blend(a, x, b, y);
            Second(Quad(MixCov(a, p, VSub(x, m), b, q, VSub(y, m)), v), Dot(m, v)) ==
            Weigh(a, Second(Quad(p, v), Dot(x, v)), b, Second(Quad(q, v), Dot(y, v)))
  {
    hide Dot, Quad, MixCov, Mul, Second, Weigh;
    var m := Blend(a, x, b, y);
    var e, f := VSub(x, m), VSub(y, m);
    DotLeft(x, m, v, a);
    DotLeft(y, m, v, b);
    BlendDot(a, x, b, y, v);
    MixQuad(a, p, e, b, q, f, v);
    SpreadAboutMean(a, b, Dot(x, v), Dot(y, v), Quad(p, v), Quad(q, v), Dot(m, v), Dot(e, v), Dot(f, v));
  }

  lemma BlendDot(a: real, x: Vec, b: real, y: Vec, v: Vec)
    requires |x| == |y| == |v|
    ensures Dot(Blend(a, x, b, y), v) == Weigh(a, Dot(x, v), b, Dot(y, v))
  {
    hide Dot, Mul;
    DotLeft(x, x, v, a);
    DotLeft(y, y, v, b);
    DotLeft(VScale(a, x), VScale(b, y), v, 0.0);
  }

  // ----- whole runs

  datatype Op = Reset(x: real, y: real) | Predict(dt: real) | Update(z: Vec)

  predicate ValidOp(op: Op) { op.Update? ==> |op.z| == 2 }

  function Apply(ms: Maths, ps: Params, s: State, op: Op): (t: State)
    requires ValidParams(ps) && ValidMaths(ms) && Sound(s) && ValidOp(op)
    ensures Sound(t)
  {
    match op
    case Reset(x, y) => ResetSound(ms, ps, x, y); ResetState(ms, ps, x, y)
    case Predict(dt) => PredictSound(ms, ps, s, dt); PredictState(ms, ps, s, dt)
    case Update(z) => UpdateSound(ms, ps, s, z); UpdateState(ms, ps, s, z)
  }

  /** The filter after birth at (x, y) and any sequence of operations: predicts with any
      elapsed time, updates with any measurement, likelihood underflows, resets. */
  function Run(ms: Maths, ps: Params, x: real, y: real, ops: seq<Op>): (t: State)
    requires ValidParams(ps) && ValidMaths(ms)
    requires forall i :: 0 <= i < |ops| ==> ValidOp(ops[i])
    ensures Sound(t)
  {
    if ops == [] then ResetSound(ms, ps, x, y); ResetState(ms, ps, x, y)
    else Apply(ms, ps, Run(ms, ps, x, y, ops[..|ops| - 1]), ops[|ops| - 1])
  }

  /** Over every run: the model probabilities stay on the simplex, the next predict can
      divide by both predicted probabilities, both innovation matrices can be inverted,
      and the published covariance is symmetric positive semidefinite. */
  lemma RunSound(ms: Maths, ps: Params, x: real, y: real, ops: seq<Op>)
    requires ValidParams(ps) && ValidMaths(ms)
    requires forall i :: 0 <= i < |ops| ==> ValidOp(ops[i])
    ensures var s := Run(ms, ps, x, y, ops);
            && Simplex(s.muCv, s.muCtrv)
            && CbarCv(ps, s.muCv, s.muCtrv) > 0.0 && CbarCtrv(ps, s.muCv, s.muCtrv) > 0.0
            && Psd(s.pCv, 4) && Psd(s.pCtrv, 5)
            && Det2(Innovation(s.pCv, 4, ps.measurementNoise)) > 0.0
            && Det2(Innovation(s.pCtrv, 5, ps.measurementNoise)) > 0.0
            && Psd(CombinedCov(ms, s), 4)
  {
    var s := Run(ms, ps, x, y, ops);
    CbarPositive(ps, s.muCv, s.muCtrv);
    InnovationInvertible(s.pCv, 4, ps.measurementNoise);
    InnovationInvertible(s.pCtrv, 5, ps.measurementNoise);
    CombinedPsd(ms, s);
  }

  /** The filter object, whose methods overwrite its fields. */
  class ImmFilter {
    const maths: Maths
    const params: Params
    var xCv: Vec
    var pCv: Mat
    var xCtrv: Vec
    var pCtrv: Mat
    var muCv: real
    var muCtrv: real
    var cbarCv: real
    var cbarCtrv: real

    function Value(): State
      reads this
    {
      State(xCv, pCv, xCtrv, pCtrv, muCv, muCtrv, cbarCv, cbarCtrv)
    }

    ghost predicate Valid()
      reads this
    {
      ValidParams(params) && ValidMaths(maths) && Sound(Value())
    }

    constructor (maths: Maths, params: Params, x: real, y: real)
      requires ValidParams(params) && ValidMaths(maths)
      ensures Valid() && this.maths == maths && this.params == params
      ensures Value() == ResetState(maths, params, x, y)
    {
      this.maths, this.params := maths, params;
      var s := ResetState(maths, params, x, y);
      ResetSound(maths, params, x, y);
      xCv, pCv, xCtrv, pCtrv := s.xCv, s.pCv, s.xCtrv, s.pCtrv;
      muCv, muCtrv, cbarCv, cbarCtrv := s.muCv, s.muCtrv, s.cbarCv, s.cbarCtrv;
    }

    method Predict(dt: real)
      requires Valid()
      modifies this
      ensures Valid() && Value() == PredictState(maths, params, old(Value()), dt)
    {
      hide Psd, MatVec, MixedCvState, MixedCvCov, MixedCtrvState, MixedCtrvCov;
      hide CtrvTransition, CtrvPredictCov, LegacyKalman.PredictCov, LegacyKalman.Transition;
      ghost var before := Value();
      PredictSound(maths, params, before, dt);
      if dt <= 0.0 {
        cbarCv, cbarCtrv := muCv, muCtrv;
        return;
      }
      var s := Value();
      var w := MixingWeights(params, muCv, muCtrv);
      cbarCv, cbarCtrv := CbarCv(params, muCv, muCtrv), CbarCtrv(params, muCv, muCtrv);
      var x0Cv, p0Cv := MixedCvState(maths, s, w.cvCv, w.ctrvCv), MixedCvCov(maths, s, w.cvCv, w.ctrvCv);
      var x0Ctrv := MixedCtrvState(maths, s, w.cvCtrv, w.ctrvCtrv);
      var p0Ctrv := MixedCtrvCov(maths, params, s, w.cvCtrv, w.ctrvCtrv);
      xCv := MatVec(LegacyKalman.Transition(dt), x0Cv);
      pCv := LegacyKalman.PredictCov(p0Cv, dt, params.processNoise);
      xCtrv := CtrvTransition(maths, x0Ctrv, dt);
      pCtrv := CtrvPredictCov(maths, params, p0Ctrv, x0Ctrv, dt);
    }

    method Update(z: Vec)
      requires Valid() && |z| == 2
      modifies this
      ensures Det2(Innovation(old(pCv), 4, params.measurementNoise)) > 0.0
      ensures Det2(Innovation(old(pCtrv), 5, params.measurementNoise)) > 0.0
      ensures Valid() && Value() == UpdateState(maths, params, old(Value()), z)
    {
      hide Dot, Mul, RowComb;
      UpdateSound(maths, params, Value(), z);
      var r := params.measurementNoise;
      var lCv := Likelihood(maths, VSub(z, MatVec(Measure(4), xCv)), Innovation(pCv, 4, r));
      xCv := Corrected(xCv, pCv, r, z);
      pCv := Updated(pCv, 4, r);
      var lCtrv := Likelihood(maths, VSub(z, MatVec(Measure(5), xCtrv)), Innovation(pCtrv, 5, r));
      xCtrv := Corrected(xCtrv, pCtrv, r, z);
      xCtrv := xCtrv[3 := maths.wrap(xCtrv[3])];
      pCtrv := Updated(pCtrv, 5, r);
      muCv, muCtrv := Posterior(cbarCv, lCv, cbarCtrv, lCtrv, muCv), Posterior(cbarCtrv, lCtrv, cbarCv, lCv, muCtrv);
    }
  }

  // ----- what the probabilities mean

  /** Mixing is Bayes' rule on the Markov chain: a mixing weight times the predicted probability
      of its mode is the probability of having been in one mode and passed to the other. */
  lemma MixingIsBayes(ps: Params, muCv: real, muCtrv: real)
    requires 0.0 < ps.pCvStay < 1.0 && 0.0 < ps.pCtrvStay < 1.0 && Simplex(muCv, muCtrv)
    ensures var w, cv, ctrv := MixingWeights(ps, muCv, muCtrv), CbarCv(ps, muCv, muCtrv), CbarCtrv(ps, muCv, muCtrv);
            && Mul(w.cvCv, cv) == Mul(ps.pCvStay, muCv) && Mul(w.ctrvCv, cv) == Mul(1.0 - ps.pCtrvStay, muCtrv)
            && Mul(w.cvCtrv, ctrv) == Mul(1.0 - ps.pCvStay, muCv) && Mul(w.ctrvCtrv, ctrv) == Mul(ps.pCtrvStay, muCtrv)
            && cv == Mul(ps.pCvStay, muCv) + Mul(1.0 - ps.pCtrvStay, muCtrv) && ctrv == Mul(1.0 - ps.pCvStay, muCv) + Mul(ps.pCtrvStay, muCtrv)
  {
    hide Shares, Mul;
    CbarPositive(ps, muCv, muCtrv);
    SharesOfTotal(Mul(ps.pCvStay, muCv), Mul(1.0 - ps.pCtrvStay, muCtrv));
    SharesOfTotal(Mul(1.0 - ps.pCvStay, muCv), Mul(ps.pCtrvStay, muCtrv));
  }

  lemma SharesOfTotal(a: real, b: real)
    requires a >= 0.0 && b >= 0.0 && a + b > 0.0
    ensures Mul(Shares(a, b).0, a + b) == a && Mul(Shares(a, b).1, a + b) == b
  {
  }

  /** A predict with elapsed time, for the constant-velocity model and any direction v: with u
      the direction the transition takes to v, the predicted second moment is the one of the
      two estimates before, weighted by where the mode comes from, plus the process noise. */
  lemma CvPredictMoments(ms: Maths, ps: Params, s: State, dt: real, v: Vec)
    requires ValidParams(ps) && Shaped(s) && Simplex(s.muCv, s.muCtrv) && dt > 0.0 && |v| == 4
    ensures var t, w, u := PredictState(ms, ps, s, dt), MixingWeights(ps, s.muCv, s.muCtrv), MatVec(Transpose(LegacyKalman.Transition(dt), 4), v);
            && Dot(t.xCv, v) == Weigh(w.cvCv, Dot(s.xCv, u), w.ctrvCv, Dot(CtrvToCv(ms, s.xCtrv), u))
            && Second(Quad(t.pCv, v) - Quad(LegacyKalman.ProcessNoise(dt, ps.processNoise), v), Dot(t.xCv, v))
               == Weigh(w.cvCv, Second(Quad(s.pCv, u), Dot(s.xCv, u)), w.ctrvCv, Second(Quad(CtrvCovInCv(ms, s), u), Dot(CtrvToCv(ms, s.xCtrv), u)))
  {
    hide Dot, Quad, MixCov, Mul, Second, Weigh, CtrvToCv, CtrvCovInCv, LegacyKalman.Transition, LegacyKalman.ProcessNoise, MixingWeights, Congruence, Transpose, MatVec,
         CtrvTransition, CtrvPredictCov, MixedCtrvState, MixedCtrvCov, CbarCv, CbarCtrv, Blend;
    var w, f := MixingWeights(ps, s.muCv, s.muCtrv), LegacyKalman.Transition(dt);
    var u, m, p := MatVec(Transpose(f, 4), v), MixedCvState(ms, s, w.cvCv, w.ctrvCv), MixedCvCov(ms, s, w.cvCv, w.ctrvCv);
    MixtureMoments(w.cvCv, s.pCv, s.xCv, w.ctrvCv, CtrvCovInCv(ms, s), CtrvToCv(ms, s.xCtrv), u);
    BlendDot(w.cvCv, s.xCv, w.ctrvCv, CtrvToCv(ms, s.xCtrv), u);
    MovedDot(f, m, v);
    QuadSum(Congruence(f, p, 4), LegacyKalman.ProcessNoise(dt, ps.processNoise), v, 0.0);
    MovedQuad(f, p, v);
  }

  lemma MovedDot(f: Mat, m: Vec, v: Vec)
    requires IsMat(f, |v|, |m|)
    ensures Dot(MatVec(f, m), v) == Dot(m, MatVec(Transpose(f, |m|), v))
  {
    hide Dot;
    DotComm(MatVec(f, m), v);
    Adjoint(f, v, m);
    DotComm(m, MatVec(Transpose(f, |m|), v));
  }

  lemma MovedQuad(f: Mat, p: Mat, v: Vec)
    requires IsMat(f, |v|, |v|) && IsMat(p, |v|, |v|)
    ensures Quad(Congruence(f, p, |v|), v) == Quad(p, MatVec(Transpose(f, |v|), v))
  {
    CongruenceBil(f, p, |v|, v, v);
  }

  /** Mixing for the constant-turn model: away from the heading the mean is the weighted one,
      the heading moves from its prior by the weighted wrapped differences, and in every
      direction the covariance is the weighted sum of each estimate's own and its squared
      deviation from that mean, headings compared by their wrapped difference. */
  lemma CtrvMixing(ms: Maths, ps: Params, s: State, a: real, b: real, v: Vec)
    requires Shaped(s) && |v| == 5
    ensures var x, y, m := CvToCtrv(ms, s.xCv, s.xCtrv[3]), s.xCtrv, MixedCtrvState(ms, s, a, b);
            && (forall i :: 0 <= i < 5 && i != 3 ==> m[i] == Weigh(a, x[i], b, y[i]))
            && m[3] == ms.wrap(y[3] + Mul(a, ms.wrap(x[3] - y[3])) + Mul(b, ms.wrap(0.0)))
            && Quad(MixedCtrvCov(ms, ps, s, a, b), v)
               == Weigh(a, Second(Quad(CvToCtrvCov(ms, s.xCv, s.pCv, y[3], ps.initOmegaVariance), v), Dot(Turned(ms, x, m), v)),
                        b, Second(Quad(s.pCtrv, v), Dot(Turned(ms, y, m), v)))
  {
    hide Dot, Quad, MixCov, Mul, Second, CvToCtrv, CvToCtrvCov, MixedCtrvState;
    var x, y, m := CvToCtrv(ms, s.xCv, s.xCtrv[3]), s.xCtrv, MixedCtrvState(ms, s, a, b);
    MixQuad(a, CvToCtrvCov(ms, s.xCv, s.pCv, y[3], ps.initOmegaVariance), Turned(ms, x, m), b, s.pCtrv, Turned(ms, y, m), v);
    MixedMean(ms, s, a, b);
  }

  /** The difference of two states, the heading's wrapped. */
  function Turned(ms: Maths, x: Vec, m: Vec): (d: Vec)
    requires |x| == 5 && |m| == 5
    ensures |d| == 5 && d == HeadingDeviation(ms, x, m)
  {
    [x[0] - m[0], x[1] - m[1], x[2] - m[2], ms.wrap(x[3] - m[3]), x[4] - m[4]]
  }

  lemma MixedMean(ms: Maths, s: State, a: real, b: real)
    requires Shaped(s)
    ensures var x, y, m := CvToCtrv(ms, s.xCv, s.xCtrv[3]), s.xCtrv, MixedCtrvState(ms, s, a, b);
            && (forall i :: 0 <= i < 5 && i != 3 ==> m[i] == Weigh(a, x[i], b, y[i]))
            && m[3] == ms.wrap(y[3] + Mul(a, ms.wrap(x[3] - y[3])) + Mul(b, ms.wrap(0.0)))
  {
    hide CvToCtrv, Mul;
    assert s.xCtrv[3] - s.xCtrv[3] == 0.0;
  }

  /** The likelihood is the density of the residual's squared distance in units of the
      innovation matrix, and zero when that has no positive determinant. */
  lemma LikelihoodIsDensity(ms: Maths, y: Vec, s: Mat) returns (w: Vec)
    requires |y| == 2 && IsMat(s, 2, 2)
    ensures Det2(s) <= 0.0 ==> Likelihood(ms, y, s) == 0.0
    ensures Det2(s) > 0.0 ==> |w| == 2 && MatVec(s, w) == y && Likelihood(ms, y, s) == ms.density(Dot(y, w), Det2(s))
  {
    hide Inverse2, MatVec, Dot, Det2;
    w := Zeros(2);
    if Det2(s) > 0.0 {
      InverseVec(s, y);
      w := MatVec(Inverse2(s), y);
    }
  }

  /** The likelihood of a measurement under one model: the density of its residual, or zero
      when the innovation matrix is degenerate. */
  function Evidence(ms: Maths, ps: Params, x: Vec, p: Mat, z: Vec): real
    requires |x| >= 2 && IsMat(p, |x|, |x|) && |z| == 2
  {
    Likelihood(ms, VSub(z, MatVec(Measure(|x|), x)), Innovation(p, |x|, ps.measurementNoise))
  }

  /** An update is Bayes' rule on the predicted probabilities when their total likelihood is
      above the floor, and leaves the probabilities alone below it; each model is corrected
      with the same measurement, the heading wrapped. */
  lemma UpdateIsBayes(ms: Maths, ps: Params, s: State, z: Vec)
    requires ValidParams(ps) && Sound(s) && |z| == 2
    requires Det2(Innovation(s.pCv, 4, ps.measurementNoise)) != 0.0 && Det2(Innovation(s.pCtrv, 5, ps.measurementNoise)) != 0.0
    ensures var t, r := UpdateState(ms, ps, s, z), ps.measurementNoise;
            var l0, l1 := Evidence(ms, ps, s.xCv, s.pCv, z), Evidence(ms, ps, s.xCtrv, s.pCtrv, z);
            var total := Mul(s.cbarCv, l0) + Mul(s.cbarCtrv, l1);
            && (total >= LIKELIHOOD_SUM_FLOOR ==> Mul(t.muCv, total) == Mul(s.cbarCv, l0) && Mul(t.muCtrv, total) == Mul(s.cbarCtrv, l1))
            && (total < LIKELIHOOD_SUM_FLOOR ==> t.muCv == s.muCv && t.muCtrv == s.muCtrv)
            && t.cbarCv == s.cbarCv && t.cbarCtrv == s.cbarCtrv
            && t.xCv == Corrected(s.xCv, s.pCv, r, z) && t.pCv == Updated(s.pCv, 4, r) && t.pCtrv == Updated(s.pCtrv, 5, r)
            && forall i :: 0 <= i < 5 ==> t.xCtrv[i] == if i == 3 then ms.wrap(Corrected(s.xCtrv, s.pCtrv, r, z)[3]) else Corrected(s.xCtrv, s.pCtrv, r, z)[i]
  {
    hide Likelihood, Innovation, Corrected, Updated, MatVec, Measure, Det2, Psd, Posterior;
    var l0, l1 := Evidence(ms, ps, s.xCv, s.pCv, z), Evidence(ms, ps, s.xCtrv, s.pCtrv, z);
    PosteriorShare(s.cbarCv, l0, s.cbarCtrv, l1, s.muCv);
    PosteriorShare(s.cbarCtrv, l1, s.cbarCv, l0, s.muCtrv);
  }

  lemma PosteriorShare(c: real, l: real, other: real, ol: real, prior: real)
    ensures var total := Mul(c, l) + Mul(other, ol);
            if total < LIKELIHOOD_SUM_FLOOR then Posterior(c, l, other, ol, prior) == prior
            else Mul(Posterior(c, l, other, ol, prior), total) == Mul(c, l)
  {
    var a, total := c * l, c * l + other * ol;
    if total >= LIKELIHOOD_SUM_FLOOR { assert (a / total) * total == a; }
  }
}
