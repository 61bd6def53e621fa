/** Models whose step is linear in state and control: the premise of exact dynamics is met
    by every one of them, the bundled test model included. */
module LinearModel {
  import opened Linear
  import opened QpLayout
  import opened QpRows
  import opened QpFeasible

  /** The next state of a linear model; any other length is answered with zeros. */
  function Move(s: Dims, a: Mat, b: Mat, dt: real, x: Vec, u: Vec): (y: Vec)
    requires IsMat(a, s.n, s.n) && IsMat(b, s.n, s.m)
    ensures |y| == s.n
  {
    if |x| == s.n && |u| == s.m then VAdd(MatVec(a, x), VScale(dt, MatVec(b, u))) else Zeros(s.n)
  }

  function StepOf(s: Dims, a: Mat, b: Mat, dt: real): (Vec, Vec) -> Vec
    requires IsMat(a, s.n, s.n) && IsMat(b, s.n, s.m)
  {
    (x, u) => Move(s, a, b, dt, x, u)
  }

  /** Its Jacobians are constant and its defect is the step minus the given next state. */
  function DynamicsOf(s: Dims, a: Mat, b: Mat): Dynamics
    requires IsMat(a, s.n, s.n) && IsMat(b, s.n, s.m)
  {
    Dynamics((x, u, dt) => a, (x, u) => b,
             (x, u, y, dt) => if |y| == s.n then VSub(Move(s, a, b, dt, x, u), y) else Zeros(s.n))
  }

  lemma MoveAffine(s: Dims, a: Mat, b: Mat, dt: real, x: Vec, dx: Vec, u: Vec, du: Vec)
    requires IsMat(a, s.n, s.n) && IsMat(b, s.n, s.m) && |x| == s.n && |dx| == s.n && |u| == s.m && |du| == s.m
    ensures Move(s, a, b, dt, VAdd(x, dx), VAdd(u, du)) == VAdd(Move(s, a, b, dt, x, u), VAdd(MatVec(a, dx), VScale(dt, MatVec(b, du))))
  {
    hide Mul, Dot;
    MatVecLinear(a, x, dx, 1.0);
    MatVecLinear(b, u, du, 1.0);
    var p, q := Move(s, a, b, dt, VAdd(x, dx), VAdd(u, du)), VAdd(Move(s, a, b, dt, x, u), VAdd(MatVec(a, dx), VScale(dt, MatVec(b, du))));
    forall i | 0 <= i < s.n ensures p[i] == q[i] {
      Sum(dt, MatVec(b, u)[i], MatVec(b, du)[i]);
    }
  }

  lemma Sum(k: real, x: real, y: real)
    ensures Mul(k, x + y) == Mul(k, x) + Mul(k, y)
  {
  }

  /** Every linear model has an affine step with exactly its own Jacobians. */
  lemma LinearIsAffine(s: Dims, a: Mat, b: Mat, dt: real)
    requires IsMat(a, s.n, s.n) && IsMat(b, s.n, s.m)
    ensures ValidDynamics(s, DynamicsOf(s, a, b)) && AffineStep(s, DynamicsOf(s, a, b), dt, StepOf(s, a, b, dt))
  {
    hide Move;
    var f := StepOf(s, a, b, dt);
    forall x: Vec, u: Vec, dx: Vec, du: Vec {:trigger f(VAdd(x, dx), VAdd(u, du))} | |x| == s.n && |dx| == s.n && |u| == s.m && |du| == s.m
      ensures f(VAdd(x, dx), VAdd(u, du)) == VAdd(f(x, u), VAdd(MatVec(a, dx), VScale(dt, MatVec(b, du))))
    {
      MoveAffine(s, a, b, dt, x, dx, u, du);
    }
  }

  /** The control matrix of the asymmetric-bounds model: speed drives x, turn rate drives
      the heading. */
  const ASYMMETRIC_B: Mat := [[1.0, 0.0], [0.0, 0.0], [0.0, 1.0]]

  /** Its step, component by component. */
  lemma AsymmetricBoundsStep(s: Dims, dt: real, x: Vec, u: Vec)
    requires s.n == 3 && s.m == 2 && |x| == 3 && |u| == 2
    ensures Move(s, Identity(3), ASYMMETRIC_B, dt, x, u) == [x[0] + Mul(dt, u[0]), x[1], x[2] + Mul(dt, u[1])]
  {
    hide Dot;
    IdentityVec(x);
    Explicit2(ASYMMETRIC_B[0], u);
    Explicit2(ASYMMETRIC_B[1], u);
    Explicit2(ASYMMETRIC_B[2], u);
    var w := MatVec(ASYMMETRIC_B, u);
    assert w[0] == u[0] && w[1] == 0.0 && w[2] == u[1];
    var y := Move(s, Identity(3), ASYMMETRIC_B, dt, x, u);
    assert y[0] == x[0] + Mul(dt, w[0]) && y[1] == x[1] + Mul(dt, w[1]) && y[2] == x[2] + Mul(dt, w[2]);
  }
}
