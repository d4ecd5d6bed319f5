/**
 * The shapes of the simulator as objects: Plane, Circle and Box. A Circle or Box owns the
 * RigidBody it moves (the source's inheritance from RigidBody, written as composition); its
 * collision handlers run the source's loops and tests on that body and are proved to have
 * exactly the effect of the contact functions of CircleContacts and BoxContacts.
 */
module Shapes {
  import opened Vectors
  import opened RigidBodies
  import opened CircleContacts
  import opened BoxContacts

  // ---------------------------------------------------------------------------
  // Planes
  // ---------------------------------------------------------------------------

  class Plane {
    var normal: Vec
    var origin: Vec
    var oneSided: bool

    /** A plane through `origin` with normal `normal`; planes start one-sided. */
    constructor (origin: Vec, normal: Vec)
      ensures this.origin == origin && this.normal == normal && oneSided
    {
      this.origin := origin;
      this.normal := normal;
      oneSided := true;
    }

    /** A plane does not move: Update has an empty frame. */
    method Update(dt: real)
      ensures unchanged(this)
    {
    }

    /** Plane against plane does nothing. */
    method CollideWithPlane(plane: Plane)
      ensures unchanged(this, plane)
    {
    }

    /** Handled by the circle; the plane itself is not in the frame. */
    method CollideWithCircle(circle: Circle)
      requires circle.body.Valid()
      modifies circle.body
      ensures circle.body.State() == CirclePlane(old(circle.body.State()), circle.radius, origin, normal, oneSided)
    {
      circle.CollideWithPlane(this);
    }

    /** Handled by the box; the plane itself is not in the frame. */
    method CollideWithBox(box: Box)
      requires box.body.Valid()
      modifies box.body
      ensures box.body.State() == BoxPlane(old(box.body.State()), box.width, box.height, origin, normal)
    {
      box.CollideWithPlane(this);
    }
  }

  // ---------------------------------------------------------------------------
  // Circles
  // ---------------------------------------------------------------------------

  /** The approximation of pi the Circle constructor uses. */
  const Pi: real := 3.14159

  /** mass = 3.14159 * r * r * density: positive for a positive radius and density. */
  function CircleMass(r: real, density: real): (m: real)
    ensures r != 0.0 && density > 0.0 ==> m > 0.0
    ensures r == 0.0 || density == 0.0 ==> m == 0.0
  {
    SquarePositive(r);
    MulSign(Pi * Mul(r, r), density);
    assert Pi * r * r * density == Mul(Pi * Mul(r, r), density);
    Pi * r * r * density
  }

  /** moment = 0.5 * mass * radius * radius: that of a uniform disc, positive with the mass. */
  function CircleMoment(mass: real, radius: real): (i: real)
    ensures mass > 0.0 && radius != 0.0 ==> i > 0.0
    ensures radius == 0.0 ==> i == 0.0
  {
    SquarePositive(radius);
    MulSign(0.5 * mass, Mul(radius, radius));
    assert 0.5 * mass * radius * radius == Mul(0.5 * mass, Mul(radius, radius));
    0.5 * mass * radius * radius
  }

  class Circle {
    const body: RigidBody
    const radius: real

    /**
     * Circle(p, v, r, a, density): rotation 0, awake, not fixed, restitution 0.95 from the
     * RigidBody constructor; the local frame keeps glm's zero vectors until the first Update.
     */
    constructor (p: Vec, v: Vec, r: real, a: real, density: real)
      ensures radius == r && fresh(body)
      ensures body.State() == Body(p, v, a, 0.0, CircleMass(r, density), CircleMoment(CircleMass(r, density), r),
                                   DefaultRestitution, true, false, false, Zero, Zero)
    {
      var mass := CircleMass(r, density);
      body := new RigidBody(p, v, a, mass, CircleMoment(mass, r), false, Zero, Zero);
      radius := r;
    }

    /** Circle::CollideWithPlane, one-sided or two-sided as the plane says. */
    method CollideWithPlane(plane: Plane)
      requires body.Valid()
      modifies body
      ensures body.State() == CirclePlane(old(body.State()), radius, plane.origin, plane.normal, plane.oneSided)
    {
      var s := body.State();
      var distFromPlane := (body.position.x - plane.origin.x) * plane.normal.x
                         + (body.position.y - plane.origin.y) * plane.normal.y;
      var velocityIntoPlane := body.velocity.x * plane.normal.x + body.velocity.y * plane.normal.y;
      var force := Scale(-body.mass, Scale(velocityIntoPlane, Scale(1.0 + body.restitution, plane.normal)));
      assert force == ReboundForce(s, plane.normal, velocityIntoPlane);
      assert distFromPlane == DistanceFromPlane(s.position, plane.origin, plane.normal);
      assert velocityIntoPlane == Dot(s.velocity, plane.normal);
      if plane.oneSided {
        if distFromPlane < radius && velocityIntoPlane < 0.0 {
          body.ApplyForce(force, body.position);
          body.ApplyContactForce(radius - distFromPlane, plane.normal);
          assert body.State() == AfterContactForce(AfterForce(s, force, s.position), radius - distFromPlane, plane.normal);
        }
      } else {
        if distFromPlane > 0.0 && distFromPlane < radius && velocityIntoPlane < 0.0 {
          body.ApplyForce(force, body.position);
        }
        // the second test reads the values computed before the first impulse and excludes the first
        if distFromPlane < 0.0 && distFromPlane > -radius && velocityIntoPlane > 0.0 {
          body.ApplyForce(force, body.position);
        }
        assert TwoSidedHit(distFromPlane, radius, velocityIntoPlane) ==> body.State() == AfterForce(s, force, s.position);
        assert !TwoSidedHit(distFromPlane, radius, velocityIntoPlane) ==> body.State() == s;
      }
    }

    /**
     * Circle::CollideWithCircle. The source tests d > 0 && d < r1 + r2 on the square root d of
     * the squared distance; the test here compares the squares instead, which is the same test
     * (CirclesTouchByLength). The contact is the midpoint of the centres and no direction is passed.
     */
    method CollideWithCircle(circle: Circle)
      requires circle.body != body && body.Valid() && circle.body.Valid()
      modifies body, circle.body
      ensures (body.State(), circle.body.State())
           == CircleCircle(old(body.State()), old(circle.body.State()), radius, circle.radius)
    {
      var a0, b0 := body.State(), circle.body.State();
      var disp := Sub(circle.body.position, body.position);
      var dd := disp.x * disp.x + disp.y * disp.y;
      var sum := radius + circle.radius;
      if 0.0 < dd && 0.0 < sum && dd < sum * sum {
        assert CirclesTouch(a0.position, b0.position, radius, circle.radius);
        var mid := Scale(0.5, Add(body.position, circle.body.position));
        assert mid == Midpoint(a0.position, b0.position);
        body.ResolveCollision(circle.body, mid, None);
      } else {
        assert !CirclesTouch(a0.position, b0.position, radius, circle.radius);
      }
    }

    /** Handled by the box. */
    method CollideWithBox(box: Box)
      requires box.body != body && box.body.Valid() && body.Valid()
      modifies box.body, body
      ensures (box.body.State(), body.State())
           == BoxCircle(old(box.body.State()), box.width, box.height, old(body.State()), radius)
    {
      box.CollideWithCircle(this);
    }

    /** Circle::IsInside: the strict distance test against the body's centre. */
    predicate IsInside(pt: Vec): (r: bool)
      reads body
      ensures r <==> InsideCircle(body.position, radius, pt)
      ensures pt == body.position ==> (r <==> radius != 0.0)
    {
      InsideCircle(body.position, radius, pt)
    }
  }

  // ---------------------------------------------------------------------------
  // Boxes
  // ---------------------------------------------------------------------------

  /** mass = density * width * height: positive for a positive size and density. */
  function BoxMass(w: real, h: real, density: real): (m: real)
    ensures w > 0.0 && h > 0.0 && density > 0.0 ==> m > 0.0
  {
    MulSign(w, h);
    MulSign(density, Mul(w, h));
    assert density * w * h == Mul(density, Mul(w, h));
    density * w * h
  }

  /** moment = 1/12 * mass * (w * w + h * h): that of a uniform rectangle, positive with the mass. */
  function BoxMoment(mass: real, w: real, h: real): (i: real)
    ensures mass > 0.0 && (w != 0.0 || h != 0.0) ==> i > 0.0
  {
    SquarePositive(w);
    SquarePositive(h);
    MulSign(1.0 / 12.0 * mass, Mul(w, w) + Mul(h, h));
    assert 1.0 / 12.0 * mass * (w * w + h * h) == Mul(1.0 / 12.0 * mass, Mul(w, w) + Mul(h, h));
    1.0 / 12.0 * mass * (w * w + h * h)
  }

  /**
   * The impulse Box::CollideWithPlane computes, in the source's terms, is PlaneImpulse:
   * acceleration * mass0 with mass0 = 1 / (1 / mass + r * r / moment).
   */
  lemma SourcePlaneImpulse(s: BodyState, t: PlaneTally, normal: Vec, acceleration: Vec, r: real, mass0: real)
    requires Massive(s) && t.count > 0
    requires acceleration == Scale((1.0 + s.restitution) * (t.contactV / (t.count as real)), Neg(normal))
    requires r == Dot(Sub(Div(t.contact, t.count as real), s.position), Vec(normal.y, -normal.x))
    requires 1.0 / s.mass + (r * r) / s.moment > 0.0
    requires mass0 == 1.0 / (1.0 / s.mass + (r * r) / s.moment)
    ensures Scale(mass0, acceleration) == PlaneImpulse(s, t, normal)
  {
    assert r == Lever(s, AverageContact(t), normal);
    assert mass0 == EffectiveMass(s.mass, s.moment, r * r);
  }

  /** The source's corner position, distance and velocity into the plane, for the corner (x, y). */
  lemma PlaneCornerTerms(s: BodyState, x: real, y: real, origin: Vec, normal: Vec)
    ensures var p := Add(Add(s.position, Scale(x, s.localX)), Scale(y, s.localY));
      && p == ToWorld(s, Vec(x, y))
      && Dot(Sub(p, origin), normal) == CornerDistance(s, Vec(x, y), origin, normal)
      && Dot(Add(s.velocity, Scale(s.rotation, Add(Scale(-y, s.localX), Scale(x, s.localY)))), normal)
         == CornerSpeed(s, Vec(x, y), normal)
  {
  }

  /**
   * One pass of the corner loop of Box::CollideWithPlane, for the corner at local offset
   * (x, y): a corner beyond the plane on the far side from the centre of mass and moving
   * further in is counted, its world point and velocity into the plane added to the sums,
   * and the penetration deepened.
   */
  method TallyPlaneCorner(t: PlaneTally, s: BodyState, x: real, y: real, origin: Vec, normal: Vec, comFromPlane: real)
    returns (r: PlaneTally)
    ensures r == PlaneStep(t, s, Vec(x, y), origin, normal, comFromPlane)
  {
    var p := Add(Add(s.position, Scale(x, s.localX)), Scale(y, s.localY));
    var distFromPlane := Dot(Sub(p, origin), normal);
    var velocityIntoPlane := Dot(Add(s.velocity, Scale(s.rotation, Add(Scale(-y, s.localX), Scale(x, s.localY)))), normal);
    PlaneCornerTerms(s, x, y, origin, normal);
    r := t;
    if (distFromPlane >= 0.0 && comFromPlane < 0.0 && velocityIntoPlane >= 0.0)
       || (distFromPlane <= 0.0 && comFromPlane > 0.0 && velocityIntoPlane <= 0.0) {
      var penetration := t.penetration;
      if comFromPlane >= 0.0 {
        if penetration > distFromPlane {
          penetration := distFromPlane;
        }
      } else {
        if penetration < distFromPlane {
          penetration := distFromPlane;
        }
      }
      r := PlaneTally(t.count + 1, Add(t.contact, p), t.contactV + velocityIntoPlane, penetration);
    }
    assert r == TallyStep(t, p, distFromPlane, velocityIntoPlane, comFromPlane);
  }

  /** One pass of the corner loop of Box::CollideWithCircle, for the corner at local offset (x, y). */
  method TallyCircleCorner(t: CircleTally, s: BodyState, x: real, y: real, circlePos: Vec, radius: real)
    returns (r: CircleTally)
    ensures r == CircleStep(t, s, Vec(x, y), circlePos, radius)
  {
    var p := Add(Scale(x, s.localX), Scale(y, s.localY));
    var dp := Sub(p, circlePos);
    r := t;
    if dp.x * dp.x + dp.y * dp.y < radius * radius {
      r := CircleTally(t.count + 1, Add(t.contact, Vec(x, y)), t.direction);
    }
  }

  /**
   * The edge tests of Box::CollideWithCircle: with the circle centre at localPos in box
   * coordinates, each edge it lies level with and within half the box plus the radius of adds
   * the edge point facing it and sets the direction to that edge's outward normal.
   */
  method EdgeContacts(t: CircleTally, localPos: Vec, w2: real, h2: real, radius: real, localX: Vec, localY: Vec)
    returns (r: CircleTally)
    ensures r == EdgeTally(t, localPos, w2, h2, radius, localX, localY)
  {
    r := t;
    if localPos.y < h2 && localPos.y > -h2 {
      if localPos.x > 0.0 && localPos.x < w2 + radius {
        r := CircleTally(r.count + 1, Add(r.contact, Vec(w2, localPos.y)), Some(localX));
      }
      if localPos.x < 0.0 && localPos.x > -(w2 + radius) {
        r := CircleTally(r.count + 1, Add(r.contact, Vec(-w2, localPos.y)), Some(Neg(localX)));
      }
    }
    if localPos.x < w2 && localPos.x > -w2 {
      if localPos.y > 0.0 && localPos.y < h2 + radius {
        r := CircleTally(r.count + 1, Add(r.contact, Vec(localPos.x, h2)), Some(localY));
      }
      if localPos.y < 0.0 && localPos.y > -(h2 + radius) {
        r := CircleTally(r.count + 1, Add(r.contact, Vec(localPos.x, -h2)), Some(Neg(localY)));
      }
    }
  }

  /**
   * One pass of the corner loop of Box::CheckOverlap, for the corner at local offset (x, y)
   * of box b: its world point p and its position p0 in a's coordinates; the first corner
   * sets every extent, a later one moves an extent it lies strictly beyond.
   */
  method ExtendCorner(first: bool, e: Extents, a: BodyState, b: BodyState, x: real, y: real) returns (r: Extents)
    ensures first ==> r == FirstExtents(CornerIn(a, b, Vec(x, y)), ToWorld(b, Vec(x, y)))
    ensures !first ==> r == Extend(e, CornerIn(a, b, Vec(x, y)), ToWorld(b, Vec(x, y)))
  {
    var p := Add(Add(b.position, Scale(x, b.localX)), Scale(y, b.localY));
    var p0 := Vec(Dot(Sub(p, a.position), a.localX), Dot(Sub(p, a.position), a.localY));
    assert p == ToWorld(b, Vec(x, y));
    assert p0 == CornerIn(a, b, Vec(x, y));
    r := e;
    if first || p0.x < r.xmin {
      r := r.(xmin := p0.x, xminPos := p);
    }
    if first || p0.x > r.xmax {
      r := r.(xmax := p0.x, xmaxPos := p);
    }
    if first || p0.y < r.ymin {
      r := r.(ymin := p0.y, yminPos := p);
    }
    if first || p0.y > r.ymax {
      r := r.(ymax := p0.y, ymaxPos := p);
    }
  }

  class Box {
    const body: RigidBody
    const width: real
    const height: real

    /**
     * Box(p, v, a, w, h, density, fx): rotation 0, awake, fixed as given, restitution 0.95,
     * and the local frame (cos a, sin a), (-sin a, cos a); `trig` stands for cosf and sinf.
     */
    constructor (p: Vec, v: Vec, a: real, w: real, h: real, density: real, fx: bool, trig: real -> Vec)
      ensures width == w && height == h && fresh(body)
      ensures body.State() == Body(p, v, a, 0.0, BoxMass(w, h, density), BoxMoment(BoxMass(w, h, density), w, h),
                                   DefaultRestitution, true, fx, false, trig(a), PerpCCW(trig(a)))
    {
      width := w;
      height := h;
      var mass := BoxMass(w, h, density);
      var cs := trig(a);
      body := new RigidBody(p, v, a, mass, BoxMoment(mass, w, h), fx, Vec(cs.x, cs.y), Vec(-cs.y, cs.x));
    }

    /**
     * The corner loop of Box::CollideWithPlane: numContacts, contact, contactV and penetration
     * after visiting the corners in the order of the nested loops.
     */
    method PlaneContacts(plane: Plane) returns (t: PlaneTally)
      ensures t == BoxPlaneTally(body.State(), width, height, plane.origin, plane.normal)
    {
      var s := body.State();
      var origin, normal := plane.origin, plane.normal;
      var comFromPlane := Dot(Sub(s.position, origin), normal);
      t := PlaneTally(0, Zero, 0.0, 0.0);
      ghost var cs := Corners(width, height);
      ghost var n := 0;
      var xs := LoopSteps(width);
      var ys := LoopSteps(height);
      for i := 0 to |xs|
        invariant n == i * |ys| <= |cs|
        invariant t == PlaneTallyOf(s, cs[..n], origin, normal, comFromPlane)
      {
        for j := 0 to |ys|
          invariant n == i * |ys| + j <= |cs|
          invariant t == PlaneTallyOf(s, cs[..n], origin, normal, comFromPlane)
        {
          CornerAt(width, height, i, j);
          PlaneTallyOfStep(s, cs, n, origin, normal, comFromPlane);
          t := TallyPlaneCorner(t, s, xs[i], ys[j], origin, normal, comFromPlane);
          n := n + 1;
        }
      }
      assert cs[..n] == cs;
    }

    /** Box::CollideWithPlane: tally the closing corners beyond the plane, then push back at their average. */
    method CollideWithPlane(plane: Plane)
      requires body.Valid()
      modifies body
      ensures body.State() == BoxPlane(old(body.State()), width, height, plane.origin, plane.normal)
    {
      if body.fixed {
        return;
      }
      var t := PlaneContacts(plane);
      if t.count > 0 {
        PushBack(t, plane.normal);
      }
    }

    /**
     * The response of Box::CollideWithPlane to numContacts > 0 contributing corners: the
     * average velocity into the plane is stopped or reversed by an impulse at the average
     * contact, scaled by the effective mass there, and the box is moved back by the penetration.
     */
    method PushBack(t: PlaneTally, normal: Vec)
      requires body.Valid() && t.count > 0
      modifies body
      ensures body.State() == PlaneResponse(old(body.State()), t, normal)
    {
      ghost var s := body.State();
      var numContacts, contact, contactV, penetration := t.count, t.contact, t.contactV, t.penetration;
      var collisionV := contactV / (numContacts as real);
      var acceleration := Scale((1.0 + body.restitution) * collisionV, Neg(normal));
      var localContact := Div(contact, numContacts as real);
      var r := Dot(Sub(localContact, body.position), Vec(normal.y, -normal.x));
      TurningNonNegative(r, body.moment);
      var mass0 := 1.0 / (1.0 / body.mass + (r * r) / body.moment);
      SourcePlaneImpulse(s, t, normal, acceleration, r, mass0);
      body.ApplyForce(Scale(mass0, acceleration), localContact);
      body.position := Sub(body.position, Scale(penetration, normal));
      body.hasContact := true;
    }

    /**
     * The corner loop of Box::CollideWithCircle: the corners of the box, in box coordinates,
     * whose offset from the circle centre is shorter than the radius, counted and summed.
     */
    method CircleCorners(circle: Circle) returns (t: CircleTally)
      ensures t == CornerTally(body.State(), Corners(width, height), Sub(circle.body.position, body.position), circle.radius)
    {
      var s := body.State();
      var circlePos := Sub(circle.body.position, body.position);
      t := CircleTally(0, Zero, None);
      ghost var cs := Corners(width, height);
      ghost var n := 0;
      var xs := LoopSteps(width);
      var ys := LoopSteps(height);
      for i := 0 to |xs|
        invariant n == i * |ys| <= |cs|
        invariant t == CornerTally(s, cs[..n], circlePos, circle.radius)
      {
        for j := 0 to |ys|
          invariant n == i * |ys| + j <= |cs|
          invariant t == CornerTally(s, cs[..n], circlePos, circle.radius)
        {
          CornerAt(width, height, i, j);
          CornerTallyStep(s, cs, n, circlePos, circle.radius);
          t := TallyCircleCorner(t, s, xs[i], ys[j], circlePos, circle.radius);
          n := n + 1;
        }
      }
      assert cs[..n] == cs;
    }

    /**
     * Box::CollideWithCircle: corners of the box inside the circle, then the edges the circle
     * centre faces within its radius; resolve at the average, along the last edge normal found.
     */
    method CollideWithCircle(circle: Circle)
      requires circle.body != body && body.Valid() && circle.body.Valid()
      modifies body, circle.body
      ensures (body.State(), circle.body.State())
           == BoxCircle(old(body.State()), width, height, old(circle.body.State()), circle.radius)
    {
      var s := body.State();
      var t0 := CircleCorners(circle);
      var circlePos := Sub(circle.body.position, body.position);
      var localPos := Vec(Dot(body.localX, circlePos), Dot(body.localY, circlePos));
      var t := EdgeContacts(t0, localPos, width / 2.0, height / 2.0, circle.radius, body.localX, body.localY);
      assert t == BoxCircleTally(s, width, height, circle.body.position, circle.radius);
      if t.count > 0 {
        var worldContact := Add(body.position, Scale(1.0 / (t.count as real),
                                                     Add(Scale(t.contact.x, body.localX), Scale(t.contact.y, body.localY))));
        body.ResolveCollision(circle.body, worldContact, t.direction);
      }
    }

    /** The corner loop of Box::CheckOverlap: the extents of `box`'s corners in this box's coordinates. */
    method CornerExtents(box: Box) returns (e: Extents)
      requires box.width > 0.0 && box.height > 0.0
      ensures e == ExtentsIn(body.State(), box.body.State(), box.width, box.height)
    {
      var a, b := body.State(), box.body.State();
      e := Extents(0.0, 0.0, 0.0, 0.0, Zero, Zero, Zero, Zero);
      var first := true;
      ghost var cs := Corners(box.width, box.height);
      ghost var n := 0;
      var xs := LoopSteps(box.width);
      var ys := LoopSteps(box.height);
      for i := 0 to |xs|
        invariant n == i * |ys| <= |cs|
        invariant first <==> n == 0
        invariant !first ==> e == ExtentsOf(a, b, cs[..n])
      {
        for j := 0 to |ys|
          invariant n == i * |ys| + j <= |cs|
          invariant first <==> n == 0
          invariant !first ==> e == ExtentsOf(a, b, cs[..n])
        {
          CornerAt(box.width, box.height, i, j);
          ExtentsOfStep(a, b, cs, n);
          e := ExtendCorner(first, e, a, b, xs[i], ys[j]);
          first := false;
          n := n + 1;
        }
      }
      assert cs[..n] == cs;
    }

    /**
     * Box::CheckOverlap against `box`. The source's reference parameters overlap, contact and
     * normal come in as arguments and go out in the result, with the hit flag.
     */
    method CheckOverlap(box: Box, overlap: real, contact: Vec, normal: Vec) returns (r: OverlapResult)
      requires box.width > 0.0 && box.height > 0.0
      ensures r == BoxContacts.CheckOverlap(body.State(), width, height, box.body.State(), box.width, box.height,
                                            overlap, contact, normal)
    {
      var w2, h2 := width / 2.0, height / 2.0;
      var e := CornerExtents(box);
      r := OverlapResult(true, overlap, contact, normal);
      if e.xmax < -w2 {
        return r.(hit := false);
      }
      var overlap0 := e.xmax - -w2;
      if overlap0 < r.overlap {
        r := r.(contact := e.xmaxPos, overlap := overlap0, normal := Neg(body.localX));
      }
      if e.xmin > w2 {
        return r.(hit := false);
      }
      var overlap1 := w2 - e.xmin;
      if overlap1 < r.overlap {
        r := r.(contact := e.xminPos, overlap := overlap1, normal := body.localX);
      }
      if e.ymax < -h2 {
        return r.(hit := false);
      }
      var overlap2 := e.ymax - -h2;
      if overlap2 < r.overlap {
        r := r.(contact := e.ymaxPos, overlap := overlap2, normal := Neg(body.localY));
      }
      if e.ymin > h2 {
        return r.(hit := false);
      }
      var overlap3 := h2 - e.ymin;
      if overlap3 < r.overlap {
        r := r.(contact := e.yminPos, overlap := overlap3, normal := body.localY);
      }
    }

    /**
     * Box::CollideWithBox: the separating-axis test both ways, sharing one running overlap that
     * starts at FLT_MAX, and the contact and normal that start as zero vectors.
     */
    method CollideWithBox(box: Box)
      requires box.body != body && body.Valid() && box.body.Valid()
      requires width > 0.0 && height > 0.0 && box.width > 0.0 && box.height > 0.0
      modifies body, box.body
      ensures (body.State(), box.body.State())
           == BoxBox(old(body.State()), width, height, old(box.body.State()), box.width, box.height)
    {
      var r1 := CheckOverlap(box, FltMax, Zero, Zero);
      if r1.hit {
        var r2 := box.CheckOverlap(this, r1.overlap, r1.contact, r1.normal);
        if r2.hit {
          body.ResolveCollision(box.body, r2.contact, Some(r2.normal));
        }
      }
    }

    /** Box::IsInside: the strict half-extent test in the box's own coordinates. */
    predicate IsInside(pt: Vec): (r: bool)
      reads body
      ensures r <==> InsideBox(body.State(), width, height, pt)
      ensures pt == body.position ==> (r <==> width > 0.0 && height > 0.0)
    {
      InsideBox(body.State(), width, height, pt)
    }
  }

  /** The constructed frame is orthonormal whenever `trig` gives a unit vector, as (cos a, sin a) is. */
  lemma BoxFrameOrthonormal(trig: real -> Vec, a: real)
    requires Dot(trig(a), trig(a)) == 1.0
    ensures Orthonormal(trig(a), PerpCCW(trig(a)))
    ensures Dot(trig(a), PerpCCW(trig(a))) == 0.0
  {
  }
}
