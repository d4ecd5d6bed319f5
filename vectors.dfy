/** Two-dimensional vectors over the reals: the glm::vec2 arithmetic the simulator uses. */
module Vectors {

  datatype Vec = Vec(x: real, y: real)

  const Zero: Vec := Vec(0.0, 0.0)

  function Add(a: Vec, b: Vec): Vec { Vec(a.x + b.x, a.y + b.y) }

  function Sub(a: Vec, b: Vec): Vec { Vec(a.x - b.x, a.y - b.y) }

  function Neg(a: Vec): Vec { Vec(-a.x, -a.y) }

  /** k * a */
  function Scale(k: real, a: Vec): Vec { Vec(k * a.x, k * a.y) }

  /** a / k, component-wise, as glm divides a vector by a scalar */
  function Div(a: Vec, k: real): Vec
    requires k != 0.0
  {
    Vec(a.x / k, a.y / k)
  }

  function Dot(a: Vec, b: Vec): real { a.x * b.x + a.y * b.y }

  /** The z component of the 3D cross product: a.x * b.y - a.y * b.x */
  function Cross(a: Vec, b: Vec): real { a.x * b.y - a.y * b.x }

  /** (v.y, -v.x): a quarter turn clockwise; the resolver's "unitParallel" */
  function PerpCW(v: Vec): Vec { Vec(v.y, -v.x) }

  /** (-v.y, v.x): a quarter turn anticlockwise; localY as built from localX */
  function PerpCCW(v: Vec): Vec { Vec(-v.y, v.x) }

  /** The signed distance of a point from the line through `origin` with normal `normal`. */
  function DistanceFromPlane(p: Vec, origin: Vec, normal: Vec): real
  {
    Dot(Sub(p, origin), normal)
  }

  function Abs(r: real): real { if r < 0.0 then -r else r }

  /** A unit vector and its anticlockwise perpendicular: the frame (cos a, sin a), (-sin a, cos a). */
  predicate Orthonormal(u: Vec, v: Vec)
  {
    Dot(u, u) == 1.0 && v == PerpCCW(u)
  }

  /**
   * A product kept behind a function, so that sign facts about it stay
   * arithmetic facts about one term.
   */
  function Mul(a: real, b: real): real { a * b }

  /** The sign rule for a product. */
  lemma MulSign(a: real, b: real)
    ensures (a > 0.0 && b > 0.0) || (a < 0.0 && b < 0.0) ==> Mul(a, b) > 0.0
    ensures (a > 0.0 && b < 0.0) || (a < 0.0 && b > 0.0) ==> Mul(a, b) < 0.0
    ensures a == 0.0 || b == 0.0 ==> Mul(a, b) == 0.0
  {
    if a < 0.0 && b < 0.0 {
      assert Mul(a, b) == Mul(-a, -b);
      assert Mul(-a, -b) == (-a) * (-b);
    } else if a > 0.0 && b > 0.0 {
      assert Mul(a, b) == a * b;
    } else if a > 0.0 && b < 0.0 {
      assert Mul(a, b) == -Mul(a, -b);
      assert Mul(a, -b) == a * (-b);
    } else if a < 0.0 && b > 0.0 {
      assert Mul(a, b) == -Mul(-a, b);
      assert Mul(-a, b) == (-a) * b;
    }
  }

  /** A square is positive exactly when its root is non-zero. */
  lemma SquarePositive(r: real)
    ensures r != 0.0 ==> Mul(r, r) > 0.0
    ensures r == 0.0 ==> Mul(r, r) == 0.0
  {
    MulSign(r, r);
  }

  /** Squaring is strictly increasing on the non-negative reals. */
  lemma SquareMonotone(x: real, y: real)
    requires 0.0 <= x < y
    ensures x * x < y * y
  {
    MulSign(y - x, y + x);
    assert Mul(y - x, y + x) == y * y - x * x;
  }

  /** The squared length of a vector is non-negative and zero only for the zero vector. */
  lemma DotSelfZero(v: Vec)
    ensures Dot(v, v) >= 0.0
    ensures Dot(v, v) == 0.0 <==> v == Zero
  {
    SquarePositive(v.x);
    SquarePositive(v.y);
    assert Dot(v, v) == Mul(v.x, v.x) + Mul(v.y, v.y);
  }

  /** Crossing a vector with its own multiple gives nothing: Cross is antisymmetric. */
  lemma CrossScaled(a: Vec, k: real)
    ensures Cross(a, Scale(k, a)) == 0.0
  {
    assert a.x * (k * a.y) == a.y * (k * a.x);
  }

  /** Cross is bilinear: Cross(a + b, f) == Cross(a, f) + Cross(b, f). */
  lemma CrossAddLeft(a: Vec, b: Vec, f: Vec)
    ensures Cross(Add(a, b), f) == Cross(a, f) + Cross(b, f)
  {
  }

  /** Cross is linear in its second argument. */
  lemma CrossScaleRight(a: Vec, k: real, f: Vec)
    ensures Cross(a, Scale(k, f)) == k * Cross(a, f)
  {
    assert a.x * (k * f.y) - a.y * (k * f.x) == k * (a.x * f.y - a.y * f.x);
  }

  /** Dot is linear in its first argument. */
  lemma DotScaleLeft(k: real, a: Vec, b: Vec)
    ensures Dot(Scale(k, a), b) == k * Dot(a, b)
  {
    assert (k * a.x) * b.x + (k * a.y) * b.y == k * (a.x * b.x + a.y * b.y);
  }

  lemma CrossNegRight(a: Vec, f: Vec)
    ensures Cross(a, Neg(f)) == -Cross(a, f)
  {
  }

  /** Dot with the clockwise perpendicular is the cross product. */
  lemma DotPerpCW(a: Vec, u: Vec)
    ensures Dot(a, PerpCW(u)) == Cross(a, u)
  {
  }

  /** An orthonormal frame resolves a vector into its two components and back. */
  lemma FrameDecompose(u: Vec, v: Vec, p: Vec)
    requires Orthonormal(u, v)
    ensures Add(Scale(Dot(p, u), u), Scale(Dot(p, v), v)) == p
  {
    var a, b := Dot(p, u), Dot(p, v);
    assert u.x * u.x + u.y * u.y == 1.0;
    calc {
      a * u.x + b * v.x;
      (p.x * u.x + p.y * u.y) * u.x + (p.x * (-u.y) + p.y * u.x) * (-u.y);
      p.x * (u.x * u.x + u.y * u.y);
      p.x;
    }
    calc {
      a * u.y + b * v.y;
      (p.x * u.x + p.y * u.y) * u.y + (p.x * (-u.y) + p.y * u.x) * u.x;
      p.y * (u.x * u.x + u.y * u.y);
      p.y;
    }
  }
}
