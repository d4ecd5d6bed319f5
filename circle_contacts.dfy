/**
 * Contact handling of Circle.cpp, as functions on body states: a circle against a
 * one-sided or two-sided plane, a circle against a circle, and the point test.
 */
module CircleContacts {
  import opened Vectors
  import opened RigidBodies

  // ---------------------------------------------------------------------------
  // Circle against plane (Circle::CollideWithPlane)
  // ---------------------------------------------------------------------------

  /** -mass * (normal * (1 + restitution) * velocityIntoPlane): the force applied at the centre. */
  function ReboundForce(s: BodyState, normal: Vec, vn: real): Vec
  {
    Scale(-s.mass * ((1.0 + s.restitution) * vn), normal)
  }

  /** A one-sided plane pushes back anything nearer than the radius that still moves into it. */
  predicate OneSidedHit(dist: real, radius: real, vn: real)
  {
    dist < radius && vn < 0.0
  }

  /** A two-sided plane acts on the side of the centre, only within the radius and only when closing. */
  predicate TwoSidedHit(dist: real, radius: real, vn: real)
  {
    (0.0 < dist && dist < radius && vn < 0.0) || (dist < 0.0 && -radius < dist && vn > 0.0)
  }

  /**
   * Circle::CollideWithPlane. The two tests of the two-sided branch are written one after the
   * other in the source; they exclude each other (dist > 0 against dist < 0), so at most one
   * impulse is applied and an if/else states the same thing.
   */
  function CirclePlane(s: BodyState, radius: real, origin: Vec, normal: Vec, oneSided: bool): (r: BodyState)
    requires Massive(s)
    // only the motion changes, and the impulse acts at the centre, so the spin stays
    ensures r == s.(position := r.position, velocity := r.velocity)
    ensures var dist, vn := DistanceFromPlane(s.position, origin, normal), Dot(s.velocity, normal);
      // no contact, no change
      && (oneSided && !OneSidedHit(dist, radius, vn) ==> r == s)
      && (!oneSided && !TwoSidedHit(dist, radius, vn) ==> r == s)
      // the one-sided plane also moves the circle out by radius - dist along the normal
      && (oneSided && OneSidedHit(dist, radius, vn) ==>
            Sub(r.position, s.position) == Scale(radius - dist, normal))
      // the two-sided plane never corrects the position
      && (!oneSided ==> r.position == s.position)
    // the velocity changes by the rebound force over the mass, or not at all
    ensures r.velocity == s.velocity
         || Scale(s.mass, Sub(r.velocity, s.velocity)) == ReboundForce(s, normal, Dot(s.velocity, normal))
  {
    var dist := DistanceFromPlane(s.position, origin, normal);
    var vn := Dot(s.velocity, normal);
    if oneSided then
      if OneSidedHit(dist, radius, vn) then
        AfterContactForce(AfterForce(s, ReboundForce(s, normal, vn), s.position), radius - dist, normal)
      else s
    else
      if TwoSidedHit(dist, radius, vn) then AfterForce(s, ReboundForce(s, normal, vn), s.position)
      else s
  }

  /** The velocity change the rebound force causes: -(1 + restitution) * vn along the normal. */
  lemma ReboundVelocity(s: BodyState, normal: Vec, vn: real)
    requires Massive(s)
    ensures var t := AfterForce(s, ReboundForce(s, normal, vn), s.position);
      t.velocity == Add(s.velocity, Scale(-((1.0 + s.restitution) * vn), normal)) && t.rotation == s.rotation
  {
    var k := (1.0 + s.restitution) * vn;
    var t := AfterForce(s, ReboundForce(s, normal, vn), s.position);
    assert -s.mass * k * normal.x / s.mass == -k * normal.x;
    assert -s.mass * k * normal.y / s.mass == -k * normal.y;
  }

  /**
   * Against a plane with a unit normal the rebound reverses the normal velocity and scales it by
   * the restitution, and leaves the tangential velocity as it was.
   */
  lemma {:induction false} ReboundReflects(s: BodyState, normal: Vec, vn: real)
    requires Massive(s) && Dot(normal, normal) == 1.0 && vn == Dot(s.velocity, normal)
    ensures var t := AfterForce(s, ReboundForce(s, normal, vn), s.position);
      && Dot(t.velocity, normal) == -s.restitution * vn
      && Dot(t.velocity, PerpCW(normal)) == Dot(s.velocity, PerpCW(normal))
  {
    var k := (1.0 + s.restitution) * vn;
    ReboundVelocity(s, normal, vn);
    var t := AfterForce(s, ReboundForce(s, normal, vn), s.position);
    assert Dot(Scale(-k, normal), normal) == -k * Dot(normal, normal);
    assert Dot(Scale(-k, normal), PerpCW(normal)) == 0.0;
  }

  /**
   * A one-sided hit with a unit normal: the normal velocity becomes -restitution times itself,
   * the tangential velocity and the spin stay, and the circle ends exactly one radius from the plane.
   */
  lemma {:induction false} OneSidedRebound(s: BodyState, radius: real, origin: Vec, normal: Vec)
    requires Massive(s) && Dot(normal, normal) == 1.0
    requires OneSidedHit(DistanceFromPlane(s.position, origin, normal), radius, Dot(s.velocity, normal))
    ensures var r := CirclePlane(s, radius, origin, normal, true);
      && Dot(r.velocity, normal) == -s.restitution * Dot(s.velocity, normal)
      && Dot(r.velocity, PerpCW(normal)) == Dot(s.velocity, PerpCW(normal))
      && r.rotation == s.rotation
      && DistanceFromPlane(r.position, origin, normal) == radius
  {
    var dist, vn := DistanceFromPlane(s.position, origin, normal), Dot(s.velocity, normal);
    ReboundReflects(s, normal, vn);
    var r := CirclePlane(s, radius, origin, normal, true);
    assert r.position == Add(s.position, Scale(radius - dist, normal));
    calc {
      DistanceFromPlane(r.position, origin, normal);
      Dot(Add(Sub(s.position, origin), Scale(radius - dist, normal)), normal);
      dist + (radius - dist) * Dot(normal, normal);
      radius;
    }
  }

  /** A two-sided hit with a unit normal reflects the normal velocity the same way, in place. */
  lemma {:induction false} TwoSidedRebound(s: BodyState, radius: real, origin: Vec, normal: Vec)
    requires Massive(s) && Dot(normal, normal) == 1.0
    requires TwoSidedHit(DistanceFromPlane(s.position, origin, normal), radius, Dot(s.velocity, normal))
    ensures var r := CirclePlane(s, radius, origin, normal, false);
      && Dot(r.velocity, normal) == -s.restitution * Dot(s.velocity, normal)
      && Dot(r.velocity, PerpCW(normal)) == Dot(s.velocity, PerpCW(normal))
      && r.rotation == s.rotation && r.position == s.position
  {
    ReboundReflects(s, normal, Dot(s.velocity, normal));
  }

  /** A circle exactly one radius from a one-sided plane is not touched, whatever its velocity. */
  lemma AtRadiusNoImpulse(s: BodyState, radius: real, origin: Vec, normal: Vec)
    requires Massive(s) && DistanceFromPlane(s.position, origin, normal) == radius
    ensures CirclePlane(s, radius, origin, normal, true) == s
  {
  }

  // ---------------------------------------------------------------------------
  // Circle against circle (Circle::CollideWithCircle)
  // ---------------------------------------------------------------------------

  /**
   * d > 0 and d < r1 + r2, for d the distance between the centres, stated on the squared
   * distance: coincident centres are excluded.
   */
  predicate CirclesTouch(p: Vec, q: Vec, ra: real, rb: real)
  {
    var dd := Dot(Sub(q, p), Sub(q, p));
    0.0 < dd && 0.0 < ra + rb && dd < (ra + rb) * (ra + rb)
  }

  /** The squared test is the source's test on the length d = sqrt(dd). */
  lemma CirclesTouchByLength(p: Vec, q: Vec, ra: real, rb: real, d: real)
    requires d >= 0.0 && d * d == Dot(Sub(q, p), Sub(q, p))
    ensures CirclesTouch(p, q, ra, rb) <==> (d > 0.0 && d < ra + rb)
  {
    var R := ra + rb;
    SquarePositive(d);
    assert d * d == Mul(d, d);
    if 0.0 <= d < R {
      SquareMonotone(d, R);
    }
    if 0.0 < R <= d {
      if R < d {
        SquareMonotone(R, d);
      }
    }
  }

  /** 0.5 * (position + circle.position) */
  function Midpoint(p: Vec, q: Vec): Vec
  {
    Scale(0.5, Add(p, q))
  }

  /** Circle::CollideWithCircle: resolve at the midpoint along the line of centres when touching. */
  function CircleCircle(a: BodyState, b: BodyState, ra: real, rb: real): (r: (BodyState, BodyState))
    requires Massive(a) && Massive(b)
    ensures !CirclesTouch(a.position, b.position, ra, rb) ==> r == (a, b)
    ensures r.0.position == a.position && r.1.position == b.position
    ensures SameConstitution(a, r.0) && SameConstitution(b, r.1)
  {
    if CirclesTouch(a.position, b.position, ra, rb) then
      Resolved(a, b, Midpoint(a.position, b.position), None)
    else
      (a, b)
  }

  /** At the midpoint, both contact levers about the line of centres vanish. */
  lemma MidpointLevers(a: BodyState, b: BodyState)
    ensures var axis := Sub(b.position, a.position);
      var m := Midpoint(a.position, b.position);
      Lever(a, m, axis) == 0.0 && Lever(b, m, axis) == 0.0
  {
  }

  /** The source's resolver and the corrected one agree for two circles. */
  lemma CircleCircleAsWritten(a: BodyState, b: BodyState)
    requires Massive(a) && Massive(b)
    ensures ResolvedAsWritten(a, b, Midpoint(a.position, b.position), None)
         == Resolved(a, b, Midpoint(a.position, b.position), None)
  {
    MidpointLevers(a, b);
    AsWrittenAgreesWithoutSecondSpin(a, b, Midpoint(a.position, b.position), None);
  }

  /**
   * Two touching circles whose centres approach bounce apart along the line of centres:
   * the relative normal velocity is reversed and scaled by the first circle's restitution.
   */
  lemma {:induction false} CircleCircleRestitution(a: BodyState, b: BodyState, ra: real, rb: real)
    requires Massive(a) && Massive(b) && CirclesTouch(a.position, b.position, ra, rb)
    requires var d := Sub(b.position, a.position); Dot(a.velocity, d) > Dot(b.velocity, d)
    ensures var d := Sub(b.position, a.position);
      var r := CircleCircle(a, b, ra, rb);
      Dot(r.0.velocity, d) - Dot(r.1.velocity, d) == -a.restitution * (Dot(a.velocity, d) - Dot(b.velocity, d))
  {
    var d := Sub(b.position, a.position);
    var m := Midpoint(a.position, b.position);
    MidpointLevers(a, b);
    assert d != Zero;
    assert Closing(a, b, d, Lever(a, m, d), Lever(b, m, d));
    ResolvedRestitution(a, b, m, None);
    var r := CircleCircle(a, b, ra, rb);
    assert Lever(r.0, m, d) == 0.0 && Lever(r.1, m, d) == 0.0;
  }

  /** Coincident centres are skipped: nothing changes. */
  lemma CoincidentCirclesSkipped(a: BodyState, b: BodyState, ra: real, rb: real)
    requires Massive(a) && Massive(b) && a.position == b.position
    ensures CircleCircle(a, b, ra, rb) == (a, b)
  {
  }

  /** A circle-circle collision conserves linear and angular momentum. */
  lemma {:induction false} CircleCircleConserves(a: BodyState, b: BodyState, ra: real, rb: real)
    requires Massive(a) && Massive(b)
    ensures var r := CircleCircle(a, b, ra, rb);
      && Momentum(r.0, r.1) == Momentum(a, b)
      && AngularMomentum(r.0) + AngularMomentum(r.1) == AngularMomentum(a) + AngularMomentum(b)
  {
    if CirclesTouch(a.position, b.position, ra, rb) {
      ResolvedConserves(a, b, Midpoint(a.position, b.position), None);
    }
  }

  // ---------------------------------------------------------------------------
  // Circle::IsInside
  // ---------------------------------------------------------------------------

  /** The squared distance of the point from the centre is strictly below radius squared. */
  predicate InsideCircle(centre: Vec, radius: real, p: Vec): (r: bool)
    // no point is inside a circle of radius zero, and the centre is inside any other
    ensures r ==> radius != 0.0
    ensures p == centre ==> (r <==> radius != 0.0)
  {
    CentreTest(centre, radius, p);
    Dot(Sub(p, centre), Sub(p, centre)) < radius * radius
  }

  /** The squared-distance test at the centre holds exactly for a non-zero radius, and never for radius zero. */
  lemma CentreTest(centre: Vec, radius: real, p: Vec)
    ensures p == centre ==> (Dot(Sub(p, centre), Sub(p, centre)) < radius * radius <==> radius != 0.0)
    ensures Dot(Sub(p, centre), Sub(p, centre)) < radius * radius ==> radius != 0.0
  {
    SquarePositive(radius);
    assert Mul(radius, radius) == radius * radius;
    if p == centre {
      assert Sub(p, centre) == Zero;
    } else {
      DotSelfZero(Sub(p, centre));
    }
  }

  /** For a non-negative radius, the same as the distance being strictly below the radius. */
  lemma InsideCircleByLength(centre: Vec, radius: real, p: Vec, d: real)
    requires radius >= 0.0 && d >= 0.0 && d * d == Dot(Sub(p, centre), Sub(p, centre))
    ensures InsideCircle(centre, radius, p) <==> d < radius
  {
    if d < radius {
      SquareMonotone(d, radius);
    } else if radius < d {
      SquareMonotone(radius, d);
    }
  }
}
