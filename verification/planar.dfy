/** Lengths and directions in the plane. */
module Planar {
  import opened Linear

  function Norm2(dx: real, dy: real): real { dx * dx + dy * dy }

  lemma SquareOrder(a: real, r: real)
    requires r >= 0.0 && a * a <= r * r
    ensures -r <= a <= r
  {
    assert (a - r) * (a + r) == a * a - r * r;
    if a > r { PositiveProduct(a - r, a + r); }
    if -a > r { PositiveProduct(r - a, -a - r); }
  }

  /** No unit direction sees a vector longer than it is. */
  lemma CauchySchwarz(nx: real, ny: real, vx: real, vy: real, r: real)
    requires nx * nx + ny * ny == 1.0 && r >= 0.0 && r * r == Norm2(vx, vy)
    ensures Mul(nx, vx) + Mul(ny, vy) <= r
  {
    var a, b := nx * vx + ny * vy, nx * vy - ny * vx;
    assert a * a + b * b == (nx * nx + ny * ny) * (vx * vx + vy * vy) by { Lagrange(nx, ny, vx, vy); }
    assert b * b >= 0.0;
    SquareOrder(a, r);
  }

  lemma Lagrange(nx: real, ny: real, vx: real, vy: real)
    ensures (nx * vx + ny * vy) * (nx * vx + ny * vy) + (nx * vy - ny * vx) * (nx * vy - ny * vx)
         == (nx * nx + ny * ny) * (vx * vx + vy * vy)
  {
  }

  lemma NormNonneg(dx: real, dy: real)
    ensures Norm2(dx, dy) >= 0.0 && dx * dx <= Norm2(dx, dy)
  {
    assert dx * dx >= 0.0 && dy * dy >= 0.0;
  }

  lemma SquareOfProduct(a: real, b: real)
    ensures Mul(Mul(a, b), Mul(a, b)) == Mul(Mul(a, a), Mul(b, b))
  {
  }

  lemma NoResidue(a: real, b: real, t: real)
    requires t > 0.0 && Mul(a, t) + Mul(b, t) == t
    ensures a + b == 1.0
  {
    assert (a + b - 1.0) * t == 0.0;
  }

  lemma UnitFromScaled(nx: real, ny: real, raw: real)
    requires Mul(raw, raw) > 0.0 && Mul(Mul(nx, raw), Mul(nx, raw)) + Mul(Mul(ny, raw), Mul(ny, raw)) == Mul(raw, raw)
    ensures Mul(nx, nx) + Mul(ny, ny) == 1.0
  {
    hide Mul;
    SquareOfProduct(nx, raw);
    SquareOfProduct(ny, raw);
    NoResidue(Mul(nx, nx), Mul(ny, ny), Mul(raw, raw));
  }

  lemma UnitNormal(dx: real, dy: real, raw: real)
    requires raw > 0.0 && raw * raw == Norm2(dx, dy)
    ensures (dx / raw) * (dx / raw) + (dy / raw) * (dy / raw) == 1.0
    ensures Mul(dx / raw, dx) + Mul(dy / raw, dy) == raw
  {
    var nx, ny := dx / raw, dy / raw;
    assert dx == Mul(nx, raw) && dy == Mul(ny, raw);
    PositiveProduct(raw, raw);
    UnitFromScaled(nx, ny, raw);
    Along(nx, ny, raw);
  }

  lemma Along(nx: real, ny: real, raw: real)
    requires Mul(nx, nx) + Mul(ny, ny) == 1.0
    ensures Mul(nx, Mul(nx, raw)) + Mul(ny, Mul(ny, raw)) == raw
  {
    assert nx * (nx * raw) + ny * (ny * raw) == (nx * nx + ny * ny) * raw;
  }
}
