/**
 * Spring.cpp: a damped spring between attachment points on two rigid bodies.
 * Each tick it measures the spring, sums a Hooke force along the unnormalised
 * separation and a damping force against the relative velocity, and applies
 * the result, times dt, as equal and opposite impulses at the attachment points.
 */
module Springs {
  import opened Vectors
  import opened RigidBodies
  import opened Shapes

  /** The damping coefficient Spring::Update uses. */
  const SpringDamping: real := 0.1

  /** The attachment points, in world coordinates, and the separation from the first to the second. */
  function Separation(s1: BodyState, s2: BodyState, c1: Vec, c2: Vec): Vec
  {
    Sub(ToWorld(s2, c2), ToWorld(s1, c1))
  }

  /**
   * The force on body2 (body1 receives its opposite), from the separation `dist` of the
   * attachment points and the relative velocity dv = v2 - v1: restoringForce * (restLength - len)
   * along the separation, which is not normalised, minus the damping times dv. `len` is the
   * length of the separation.
   */
  function SpringForce(dist: Vec, dv: Vec, restLength: real, restoringForce: real, len: real): Vec
  {
    Sub(Scale(restoringForce * (restLength - len), dist), Scale(SpringDamping, dv))
  }

  /** The force Spring::Update computes for two body states. */
  function ForceBetween(s1: BodyState, s2: BodyState, c1: Vec, c2: Vec, restLength: real, restoringForce: real, len: real): Vec
  {
    SpringForce(Separation(s1, s2, c1, c2), Sub(s2.velocity, s1.velocity), restLength, restoringForce, len)
  }

  /** Spring::Update on two distinct bodies: -force*dt to body1 at p1, force*dt to body2 at p2. */
  function SpringStep(s1: BodyState, s2: BodyState, c1: Vec, c2: Vec, restLength: real, restoringForce: real,
                      len: real, dt: real): (r: (BodyState, BodyState))
    requires Massive(s1) && Massive(s2)
    // only the velocities and rotations change
    ensures r.0 == s1.(velocity := r.0.velocity, rotation := r.0.rotation)
    ensures r.1 == s2.(velocity := r.1.velocity, rotation := r.1.rotation)
  {
    var f := Scale(dt, ForceBetween(s1, s2, c1, c2, restLength, restoringForce, len));
    (AfterForce(s1, Neg(f), ToWorld(s1, c1)), AfterForce(s2, f, ToWorld(s2, c2)))
  }

  /**
   * Spring::Update with body1 and body2 the same body: the second impulse is applied to the
   * state the first left, at the point measured before either.
   */
  function SpringSelf(s: BodyState, c1: Vec, c2: Vec, restLength: real, restoringForce: real, len: real, dt: real): (r: BodyState)
    requires Massive(s)
    ensures r == s.(velocity := r.velocity, rotation := r.rotation)
  {
    var f := Scale(dt, ForceBetween(s, s, c1, c2, restLength, restoringForce, len));
    AfterForce(AfterForce(s, Neg(f), ToWorld(s, c1)), f, ToWorld(s, c2))
  }

  /** The Hooke part of the force acts along the separation; the damping part opposes relative motion. */
  lemma SpringForceParts(dist: Vec, dv: Vec, restLength: real, restoringForce: real, len: real)
    ensures var f := SpringForce(dist, dv, restLength, restoringForce, len);
      && Cross(dist, f) == -SpringDamping * Cross(dist, dv)
      && Dot(f, dist) == Mul(restoringForce * (restLength - len), Dot(dist, dist)) - SpringDamping * Dot(dv, dist)
      && (dv == Zero ==> f == Scale(restoringForce * (restLength - len), dist))
  {
    var k := restoringForce * (restLength - len);
    CrossScaled(dist, k);
    CrossScaleRight(dist, SpringDamping, dv);
    assert Cross(dist, Sub(Scale(k, dist), Scale(SpringDamping, dv))) == Cross(dist, Scale(k, dist)) - Cross(dist, Scale(SpringDamping, dv));
    DotScaleLeft(k, dist, dist);
    DotScaleLeft(SpringDamping, dv, dist);
  }

  /** Without relative motion the force is the Hooke term alone, along the separation. */
  lemma HookeAlongSeparation(dist: Vec, dv: Vec, restLength: real, restoringForce: real, len: real)
    requires dv == Zero
    ensures var k := Mul(restoringForce, restLength - len);
      var f := SpringForce(dist, dv, restLength, restoringForce, len);
      f == Scale(k, dist) && Dot(f, dist) == Mul(k, Dot(dist, dist))
  {
    var k := Mul(restoringForce, restLength - len);
    DotScaleLeft(k, dist, dist);
  }

  /**
   * Without relative motion (dv = v2 - v1 = 0) and with a positive stiffness, a stretched
   * spring (len > restLength) pulls the second attachment back towards the first.
   */
  lemma SpringPullsWhenStretched(dist: Vec, dv: Vec, restLength: real, restoringForce: real, len: real)
    requires restoringForce > 0.0 && dist != Zero && dv == Zero && len > restLength
    ensures Dot(SpringForce(dist, dv, restLength, restoringForce, len), dist) < 0.0
  {
    HookeAlongSeparation(dist, dv, restLength, restoringForce, len);
    DotSelfZero(dist);
    MulSign(restoringForce, restLength - len);
    MulSign(Mul(restoringForce, restLength - len), Dot(dist, dist));
  }

  /** Likewise a compressed spring (len < restLength) pushes the second attachment away. */
  lemma SpringPushesWhenCompressed(dist: Vec, dv: Vec, restLength: real, restoringForce: real, len: real)
    requires restoringForce > 0.0 && dist != Zero && dv == Zero && len < restLength
    ensures Dot(SpringForce(dist, dv, restLength, restoringForce, len), dist) > 0.0
  {
    HookeAlongSeparation(dist, dv, restLength, restoringForce, len);
    DotSelfZero(dist);
    MulSign(restoringForce, restLength - len);
    MulSign(Mul(restoringForce, restLength - len), Dot(dist, dist));
  }

  /** At its rest length, and without relative motion, the spring exerts no force. */
  lemma SpringSlackAtRestLength(dist: Vec, dv: Vec, restLength: real, restoringForce: real)
    requires dv == Zero
    ensures SpringForce(dist, dv, restLength, restoringForce, restLength) == Zero
  {
    HookeAlongSeparation(dist, dv, restLength, restoringForce, restLength);
    MulSign(restoringForce, restLength - restLength);
  }

  /** At its rest length, with no relative motion, the spring changes neither body. */
  lemma SpringAtRest(s1: BodyState, s2: BodyState, c1: Vec, c2: Vec, restLength: real, restoringForce: real, dt: real)
    requires Massive(s1) && Massive(s2) && s1.velocity == s2.velocity
    ensures SpringStep(s1, s2, c1, c2, restLength, restoringForce, restLength, dt) == (s1, s2)
  {
    var f := Scale(dt, ForceBetween(s1, s2, c1, c2, restLength, restoringForce, restLength));
    NoImpulseAtRest(s1, s2, c1, c2, restLength, restoringForce, dt);
    NoForceNoChange(s1, Neg(f), ToWorld(s1, c1));
    NoForceNoChange(s2, f, ToWorld(s2, c2));
  }

  /** The impulse Spring::Update applies at rest length with no relative motion is zero. */
  lemma NoImpulseAtRest(s1: BodyState, s2: BodyState, c1: Vec, c2: Vec, restLength: real, restoringForce: real, dt: real)
    requires s1.velocity == s2.velocity
    ensures var f := Scale(dt, ForceBetween(s1, s2, c1, c2, restLength, restoringForce, restLength));
      f == Zero && Neg(f) == Zero
  {
    var d, dv := Separation(s1, s2, c1, c2), Sub(s2.velocity, s1.velocity);
    assert dv == Zero;
    SpringSlackAtRestLength(d, dv, restLength, restoringForce);
  }

  /** Equal and opposite impulses: the spring conserves the total linear momentum of its two bodies. */
  lemma SpringConservesMomentum(s1: BodyState, s2: BodyState, c1: Vec, c2: Vec, restLength: real, restoringForce: real,
                                len: real, dt: real)
    requires Massive(s1) && Massive(s2)
    ensures var r := SpringStep(s1, s2, c1, c2, restLength, restoringForce, len, dt);
      Momentum(r.0, r.1) == Momentum(s1, s2)
  {
    var f := Scale(dt, ForceBetween(s1, s2, c1, c2, restLength, restoringForce, len));
    OppositeForcesConserveMomentum(s1, s2, f, ToWorld(s1, c1), ToWorld(s2, c2));
  }

  /** Opposite impulses at points p and q change the total angular momentum by the torque Cross(q - p, f). */
  lemma ForcesAtTwoPointsAngularMomentum(a: BodyState, b: BodyState, f: Vec, p: Vec, q: Vec)
    requires Massive(a) && Massive(b)
    ensures AngularMomentum(AfterForce(a, Neg(f), p)) + AngularMomentum(AfterForce(b, f, q))
         == AngularMomentum(a) + AngularMomentum(b) + Cross(Sub(q, p), f)
  {
    AfterForceAngularMomentum(a, Neg(f), p);
    AfterForceAngularMomentum(b, f, q);
    CrossNegRight(p, f);
  }

  /**
   * The two impulses act at different points, so they exert a net torque: the total angular
   * momentum about the origin changes by dt times the torque of the force about the first
   * attachment point, which only the damping part contributes.
   */
  lemma {:induction false} SpringAngularMomentum(s1: BodyState, s2: BodyState, c1: Vec, c2: Vec, restLength: real,
                                                 restoringForce: real, len: real, dt: real)
    requires Massive(s1) && Massive(s2)
    ensures var r := SpringStep(s1, s2, c1, c2, restLength, restoringForce, len, dt);
      AngularMomentum(r.0) + AngularMomentum(r.1)
        == AngularMomentum(s1) + AngularMomentum(s2)
           - dt * SpringDamping * Cross(Separation(s1, s2, c1, c2), Sub(s2.velocity, s1.velocity))
  {
    var d, dv := Separation(s1, s2, c1, c2), Sub(s2.velocity, s1.velocity);
    var force := SpringForce(d, dv, restLength, restoringForce, len);
    ForcesAtTwoPointsAngularMomentum(s1, s2, Scale(dt, force), ToWorld(s1, c1), ToWorld(s2, c2));
    SpringForceParts(d, dv, restLength, restoringForce, len);
    CrossScaleRight(d, dt, force);
  }

  /** With no relative motion the spring conserves angular momentum as well. */
  lemma SpringConservesAngularMomentum(s1: BodyState, s2: BodyState, c1: Vec, c2: Vec, restLength: real,
                                       restoringForce: real, len: real, dt: real)
    requires Massive(s1) && Massive(s2) && s1.velocity == s2.velocity
    ensures var r := SpringStep(s1, s2, c1, c2, restLength, restoringForce, len, dt);
      AngularMomentum(r.0) + AngularMomentum(r.1) == AngularMomentum(s1) + AngularMomentum(s2)
  {
    SpringAngularMomentum(s1, s2, c1, c2, restLength, restoringForce, len, dt);
    assert Sub(s2.velocity, s1.velocity) == Zero;
  }

  /** Two velocity changes by -f/m and f/m restore the velocity. */
  lemma VelocityRestored(m: real, v0: Vec, v1: Vec, v2: Vec, f: Vec)
    requires m > 0.0 && Scale(m, Sub(v1, v0)) == Neg(f) && Scale(m, Sub(v2, v1)) == f
    ensures v2 == v0
  {
    assert Mul(m, v2.x - v0.x) == 0.0 && Mul(m, v2.y - v0.y) == 0.0;
    MulSign(m, v2.x - v0.x);
    MulSign(m, v2.y - v0.y);
  }

  /** Two rotation changes whose torques cancel restore the rotation. */
  lemma RotationRestored(moment: real, w0: real, w1: real, w2: real, torque1: real, torque2: real)
    requires moment > 0.0 && moment * (w1 - w0) == torque1 && moment * (w2 - w1) == torque2
    requires torque1 + torque2 == 0.0
    ensures w2 == w0
  {
    assert Mul(moment, w2 - w0) == 0.0;
    MulSign(moment, w2 - w0);
  }

  /** Opposite impulses on one body whose torques cancel leave it as it was. */
  lemma {:induction false} CancellingImpulses(s: BodyState, f: Vec, p: Vec, q: Vec)
    requires Massive(s) && Cross(Sub(q, p), f) == 0.0
    ensures AfterForce(AfterForce(s, Neg(f), p), f, q) == s
  {
    var t := AfterForce(s, Neg(f), p);
    var r := AfterForce(t, f, q);
    VelocityRestored(s.mass, s.velocity, t.velocity, r.velocity, f);
    CrossNegRight(Sub(p, s.position), f);
    assert Cross(Sub(p, s.position), Neg(f)) + Cross(Sub(q, s.position), f) == Cross(Sub(q, p), f);
    RotationRestored(s.moment, s.rotation, t.rotation, r.rotation,
                     Cross(Sub(p, s.position), Neg(f)), Cross(Sub(q, s.position), f));
  }

  /**
   * A spring with both ends on one body is inert: the two impulses cancel, and, there being no
   * relative velocity, the force lies along the line between the attachment points and so has
   * no torque about it.
   */
  lemma {:induction false} SpringOnOneBodyInert(s: BodyState, c1: Vec, c2: Vec, restLength: real, restoringForce: real,
                                                len: real, dt: real)
    requires Massive(s)
    ensures SpringSelf(s, c1, c2, restLength, restoringForce, len, dt) == s
  {
    var d, dv := Separation(s, s, c1, c2), Sub(s.velocity, s.velocity);
    var k := Mul(restoringForce, restLength - len);
    assert dv == Zero;
    HookeAlongSeparation(d, dv, restLength, restoringForce, len);
    var f := Scale(dt, SpringForce(d, dv, restLength, restoringForce, len));
    assert f == Scale(dt * k, d);
    CrossScaled(d, dt * k);
    CancellingImpulses(s, f, ToWorld(s, c1), ToWorld(s, c2));
  }

  /** Spring.h: the two bodies, the attachment points in body coordinates, the rest length and the stiffness. */
  class Spring {
    var body1: RigidBody
    var body2: RigidBody
    var contact1: Vec
    var contact2: Vec
    var restLength: real
    var restoringForce: real

    constructor (b1: RigidBody, b2: RigidBody, l: real, f: real, c1: Vec, c2: Vec)
      ensures body1 == b1 && body2 == b2 && restLength == l && restoringForce == f
      ensures contact1 == c1 && contact2 == c2
    {
      body1, body2 := b1, b2;
      restLength, restoringForce := l, f;
      contact1, contact2 := c1, c2;
    }

    /**
     * Spring::Update. `len` is the length of the separation, which the source takes with a
     * square root. The spring itself is not changed.
     */
    method Update(dt: real, len: real)
      requires body1.Valid() && body2.Valid()
      requires var d := Separation(body1.State(), body2.State(), contact1, contact2);
        len >= 0.0 && len * len == Dot(d, d)
      modifies body1, body2
      ensures body1 != body2 ==>
        (body1.State(), body2.State())
          == SpringStep(old(body1.State()), old(body2.State()), contact1, contact2, restLength, restoringForce, len, dt)
      ensures body1 == body2 ==>
        body1.State() == SpringSelf(old(body1.State()), contact1, contact2, restLength, restoringForce, len, dt)
    {
      var s1, s2 := body1.State(), body2.State();
      var p2 := ToWorld(s2, contact2);
      var p1 := ToWorld(s1, contact1);
      var dist := Sub(p2, p1);
      var dv := Sub(s2.velocity, s1.velocity);
      var damping := 0.1;
      var force := Sub(Scale(restoringForce * (restLength - len), dist), Scale(damping, dv));
      assert force == ForceBetween(s1, s2, contact1, contact2, restLength, restoringForce, len);
      body1.ApplyForce(Neg(Scale(dt, force)), p1);
      body2.ApplyForce(Scale(dt, force), p2);
    }

    /** A spring takes part in no collision: its three handlers are empty and change nothing. */
    method CollideWithPlane(plane: Plane)
      ensures unchanged(this, body1, body2, plane)
    {
    }

    method CollideWithCircle(circle: Circle)
      ensures unchanged(this, body1, body2, circle.body)
    {
    }

    method CollideWithBox(box: Box)
      ensures unchanged(this, body1, body2, box.body)
    {
    }
  }
}
