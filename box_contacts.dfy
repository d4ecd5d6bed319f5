/**
 * Contact generation of Box.cpp, as functions on body states: box against plane,
 * box against circle, the separating-axis test between two boxes, and the point test.
 * The corner loops over the four corners are folds over the corner sequence; the
 * class Box in module Shapes runs them as loops proved equal to these folds.
 */
module BoxContacts {
  import opened Vectors
  import opened RigidBodies
  import CircleContacts

  // ---------------------------------------------------------------------------
  // Corners
  // ---------------------------------------------------------------------------

  /** The values `for (x = -w / 2; x < w; x += w)` visits: -w/2 then w/2 when w > 0, and none otherwise. */
  function LoopValues(w: real): seq<real>
  {
    if w > 0.0 then [-w / 2.0, w / 2.0] else []
  }

  /**
   * The corner loops of Box.cpp, run as written: start at -w/2 and step by w while below w.
   * They visit exactly LoopValues(w).
   */
  method LoopSteps(w: real) returns (xs: seq<real>)
    ensures xs == LoopValues(w)
  {
    xs := [];
    var x := -w / 2.0;
    while x < w
      invariant w > 0.0 ==>
        (|xs| == 0 && x == -w / 2.0) || (|xs| == 1 && x == w / 2.0) || (|xs| == 2 && x == 3.0 * w / 2.0)
      invariant w > 0.0 ==> xs == LoopValues(w)[..|xs|]
      invariant w <= 0.0 ==> xs == [] && x >= w
      decreases 2 - |xs|
    {
      xs := xs + [x];
      x := x + w;
    }
  }

  /**
   * The corners in box coordinates, in the order of the nested loops (x outer, y inner).
   * A box without positive width and height has none.
   */
  function Corners(w: real, h: real): (cs: seq<Vec>)
    ensures |cs| == |LoopValues(w)| * |LoopValues(h)|
  {
    if w > 0.0 && h > 0.0 then
      [Vec(-w / 2.0, -h / 2.0), Vec(-w / 2.0, h / 2.0), Vec(w / 2.0, -h / 2.0), Vec(w / 2.0, h / 2.0)]
    else []
  }

  /** The pass (i, j) of the nested loops, x values outer and y values inner, meets corner i * |ys| + j. */
  lemma CornerAt(w: real, h: real, i: nat, j: nat)
    requires i < |LoopValues(w)| && j < |LoopValues(h)|
    ensures i * |LoopValues(h)| + j < |Corners(w, h)|
    ensures Corners(w, h)[i * |LoopValues(h)| + j] == Vec(LoopValues(w)[i], LoopValues(h)[j])
  {
    assert |LoopValues(h)| == 2;
    assert i == 0 || i == 1;
  }

  /** At most four corners. */
  lemma CornersAtMostFour(w: real, h: real)
    ensures |Corners(w, h)| <= 4
    ensures |Corners(w, h)| == 4 <==> w > 0.0 && h > 0.0
  {
  }

  // ---------------------------------------------------------------------------
  // Box against plane (Box::CollideWithPlane)
  // ---------------------------------------------------------------------------

  /** The velocity of a corner as the source computes it: velocity + rotation * (-y * localX + x * localY). */
  function CornerVelocity(s: BodyState, c: Vec): Vec
  {
    Add(s.velocity, Scale(s.rotation, Add(Scale(-c.y, s.localX), Scale(c.x, s.localY))))
  }

  /** The velocity of the material point of a body at world point p. */
  function PointVelocity(s: BodyState, p: Vec): Vec
  {
    Add(s.velocity, Scale(s.rotation, PerpCCW(Sub(p, s.position))))
  }

  /** With localY the quarter turn of localX, the source's corner velocity is the point velocity of the corner. */
  lemma CornerVelocityIsPointVelocity(s: BodyState, c: Vec)
    requires s.localY == PerpCCW(s.localX)
    ensures CornerVelocity(s, c) == PointVelocity(s, ToWorld(s, c))
  {
    assert Sub(ToWorld(s, c), s.position) == Add(Scale(c.x, s.localX), Scale(c.y, s.localY));
  }

  /** The normal speed of a point is the point speed of the resolver for the plane normal as axis. */
  lemma PointVelocityAlongNormal(s: BodyState, p: Vec, normal: Vec)
    ensures Dot(PointVelocity(s, p), normal) == PointSpeed(s, normal, Lever(s, p, normal))
  {
    var d := Sub(p, s.position);
    assert Dot(Scale(s.rotation, PerpCCW(d)), normal) == s.rotation * Cross(d, normal);
    DotPerpCW(d, normal);
  }

  /**
   * A corner contributes when it lies on the far side of the plane from the centre of mass
   * (or on it) and still moves further in (or not out).
   */
  predicate ClosingCorner(dist: real, com: real, vn: real)
  {
    (dist >= 0.0 && com < 0.0 && vn >= 0.0) || (dist <= 0.0 && com > 0.0 && vn <= 0.0)
  }

  /** distFromPlane of a corner */
  function CornerDistance(s: BodyState, c: Vec, origin: Vec, normal: Vec): real
  {
    DistanceFromPlane(ToWorld(s, c), origin, normal)
  }

  /** velocityIntoPlane of a corner */
  function CornerSpeed(s: BodyState, c: Vec, normal: Vec): real
  {
    Dot(CornerVelocity(s, c), normal)
  }

  predicate Contributes(s: BodyState, c: Vec, origin: Vec, normal: Vec, com: real)
  {
    ClosingCorner(CornerDistance(s, c, origin, normal), com, CornerSpeed(s, c, normal))
  }

  /** The running totals of the corner loop: numContacts, contact, contactV and penetration. */
  datatype PlaneTally = PlaneTally(count: nat, contact: Vec, contactV: real, penetration: real)

  /**
   * The penetration rule: on the positive side the most negative distance is kept, on the
   * negative side the most positive one; the running value starts at 0.
   */
  function Deeper(penetration: real, dist: real, com: real): real
  {
    if com >= 0.0 then (if penetration > dist then dist else penetration)
    else (if penetration < dist then dist else penetration)
  }

  /** The body of the corner loop for a corner at world point p, with distance dist and velocity vn into the plane. */
  function TallyStep(t: PlaneTally, p: Vec, dist: real, vn: real, com: real): PlaneTally
  {
    if ClosingCorner(dist, com, vn) then PlaneTally(t.count + 1, Add(t.contact, p), t.contactV + vn, Deeper(t.penetration, dist, com))
    else t
  }

  /** One pass of the corner loop. */
  function PlaneStep(t: PlaneTally, s: BodyState, c: Vec, origin: Vec, normal: Vec, com: real): PlaneTally
  {
    TallyStep(t, ToWorld(s, c), CornerDistance(s, c, origin, normal), CornerSpeed(s, c, normal), com)
  }

  /** The totals after the loop has visited the corners cs, in order. */
  function PlaneTallyOf(s: BodyState, cs: seq<Vec>, origin: Vec, normal: Vec, com: real): (t: PlaneTally)
    ensures t.count <= |cs|
    decreases |cs|
  {
    if cs == [] then PlaneTally(0, Zero, 0.0, 0.0)
    else PlaneStep(PlaneTallyOf(s, cs[..|cs| - 1], origin, normal, com), s, cs[|cs| - 1], origin, normal, com)
  }

  /** The tally over one more corner is one more step of the loop. */
  lemma PlaneTallyOfStep(s: BodyState, cs: seq<Vec>, k: nat, origin: Vec, normal: Vec, com: real)
    requires k < |cs|
    ensures PlaneTallyOf(s, cs[..k + 1], origin, normal, com)
         == PlaneStep(PlaneTallyOf(s, cs[..k], origin, normal, com), s, cs[k], origin, normal, com)
  {
    assert cs[..k + 1][..k] == cs[..k];
  }

  /** The corner tally of a box against a plane. */
  function BoxPlaneTally(s: BodyState, w: real, h: real, origin: Vec, normal: Vec): PlaneTally
  {
    PlaneTallyOf(s, Corners(w, h), origin, normal, DistanceFromPlane(s.position, origin, normal))
  }

  /** The average velocity into the plane of the contributing corners: contactV / numContacts. */
  function CollisionSpeed(t: PlaneTally): real
    requires t.count > 0
  {
    t.contactV / (t.count as real)
  }

  /** The average of the contributing corners: contact / numContacts. */
  function AverageContact(t: PlaneTally): Vec
    requires t.count > 0
  {
    Div(t.contact, t.count as real)
  }

  /** The impulse of a hit: the acceleration -normal * ((1 + e) * collisionV) times the effective mass. */
  function PlaneImpulse(s: BodyState, t: PlaneTally, normal: Vec): Vec
    requires Massive(s) && t.count > 0
  {
    var acceleration := Scale((1.0 + s.restitution) * CollisionSpeed(t), Neg(normal));
    var r := Lever(s, AverageContact(t), normal);
    Scale(EffectiveMass(s.mass, s.moment, r * r), acceleration)
  }

  /** Box::CollideWithPlane. */
  function BoxPlane(s: BodyState, w: real, h: real, origin: Vec, normal: Vec): (r: BodyState)
    requires Massive(s)
    ensures r == s.(position := r.position, velocity := r.velocity, rotation := r.rotation, hasContact := r.hasContact)
    // a fixed box, or one with no contributing corner, is left exactly as it was
    ensures s.fixed || BoxPlaneTally(s, w, h, origin, normal).count == 0 ==> r == s
    // a hit sets hasContact and moves the box back by normal * penetration
    ensures !s.fixed && BoxPlaneTally(s, w, h, origin, normal).count > 0 ==>
      r.hasContact && Sub(s.position, r.position) == Scale(BoxPlaneTally(s, w, h, origin, normal).penetration, normal)
  {
    if s.fixed then s
    else
      var t := BoxPlaneTally(s, w, h, origin, normal);
      if t.count > 0 then PlaneResponse(s, t, normal) else s
  }

  /** A hit: the impulse at the averaged contact, then the move back by normal * penetration. */
  function PlaneResponse(s: BodyState, t: PlaneTally, normal: Vec): (r: BodyState)
    requires Massive(s) && t.count > 0
    ensures r == s.(position := r.position, velocity := r.velocity, rotation := r.rotation, hasContact := true)
    ensures Sub(s.position, r.position) == Scale(t.penetration, normal)
  {
    var s1 := AfterForce(s, PlaneImpulse(s, t, normal), AverageContact(t));
    s1.(position := Sub(s1.position, Scale(t.penetration, normal)), hasContact := true)
  }

  /** At most four corners contribute. */
  lemma BoxPlaneAtMostFour(s: BodyState, w: real, h: real, origin: Vec, normal: Vec)
    ensures BoxPlaneTally(s, w, h, origin, normal).count <= 4
  {
    CornersAtMostFour(w, h);
  }

  /** The centre of mass on the plane itself: no corner can contribute. */
  lemma {:induction false} CentredNoContacts(s: BodyState, cs: seq<Vec>, origin: Vec, normal: Vec)
    ensures PlaneTallyOf(s, cs, origin, normal, 0.0) == PlaneTally(0, Zero, 0.0, 0.0)
    decreases |cs|
  {
    if cs != [] {
      CentredNoContacts(s, cs[..|cs| - 1], origin, normal);
    }
  }

  /**
   * The penetration is the deepest contributing corner's distance: the least one when the
   * centre of mass is on the positive side, the greatest one when it is on the negative side,
   * and 0 when nothing contributes.
   */
  lemma {:induction false} PenetrationIsDeepest(s: BodyState, cs: seq<Vec>, origin: Vec, normal: Vec, com: real)
    ensures var t := PlaneTallyOf(s, cs, origin, normal, com);
      && (t.count == 0 ==> t.penetration == 0.0)
      && (com > 0.0 ==>
            && t.penetration <= 0.0
            && forall i :: 0 <= i < |cs| && Contributes(s, cs[i], origin, normal, com) ==>
                 t.penetration <= CornerDistance(s, cs[i], origin, normal))
      && (com < 0.0 ==>
            && t.penetration >= 0.0
            && forall i :: 0 <= i < |cs| && Contributes(s, cs[i], origin, normal, com) ==>
                 t.penetration >= CornerDistance(s, cs[i], origin, normal))
      && (t.count > 0 ==>
            exists i :: 0 <= i < |cs| && Contributes(s, cs[i], origin, normal, com) &&
              t.penetration == CornerDistance(s, cs[i], origin, normal))
    decreases |cs|
  {
    if cs != [] {
      var init := cs[..|cs| - 1];
      PenetrationIsDeepest(s, init, origin, normal, com);
      var t0 := PlaneTallyOf(s, init, origin, normal, com);
      var t := PlaneTallyOf(s, cs, origin, normal, com);
      var last := |cs| - 1;
      assert forall i :: 0 <= i < last ==> init[i] == cs[i];
      if Contributes(s, cs[last], origin, normal, com) && t0.count > 0 {
        var j :| 0 <= j < |init| && Contributes(s, init[j], origin, normal, com) &&
          t0.penetration == CornerDistance(s, init[j], origin, normal);
        assert cs[j] == init[j];
      } else if t0.count > 0 {
        var j :| 0 <= j < |init| && Contributes(s, init[j], origin, normal, com) &&
          t0.penetration == CornerDistance(s, init[j], origin, normal);
        assert cs[j] == init[j];
      }
    }
  }

  /** The speed of a corner into the plane: the centre's normal speed plus the spin times the corner's arm. */
  lemma CornerSpeedSplit(s: BodyState, c: Vec, normal: Vec)
    requires s.localY == PerpCCW(s.localX)
    ensures CornerSpeed(s, c, normal)
         == Dot(s.velocity, normal) + s.rotation * Cross(Sub(ToWorld(s, c), s.position), normal)
  {
    CornerVelocityIsPointVelocity(s, c);
    PointVelocityAlongNormal(s, ToWorld(s, c), normal);
    DotPerpCW(Sub(ToWorld(s, c), s.position), normal);
  }

  /** Adding one point with its speed to the sums keeps the sum form. */
  lemma SumStep(k: real, sum: Vec, p: Vec, centre: Vec, vn: real, w: real, normal: Vec, speed: real)
    requires speed == vn + w * Cross(Sub(p, centre), normal)
    ensures (k + 1.0) * vn + Mul(w, Cross(Sub(Add(sum, p), Scale(k + 1.0, centre)), normal))
         == k * vn + Mul(w, Cross(Sub(sum, Scale(k, centre)), normal)) + speed
  {
    var before := Sub(sum, Scale(k, centre));
    assert Sub(Add(sum, p), Scale(k + 1.0, centre)) == Add(before, Sub(p, centre));
    CrossAddLeft(before, Sub(p, centre), normal);
  }

  /**
   * The sum form of a tally: contactV is count times the normal velocity of the centre plus
   * the spin times the arm of the contact sum.
   */
  predicate SumForm(t: PlaneTally, s: BodyState, normal: Vec)
  {
    t.contactV == (t.count as real) * Dot(s.velocity, normal)
                  + Mul(s.rotation, Cross(Sub(t.contact, Scale(t.count as real, s.position)), normal))
  }

  /** One pass of the corner loop keeps the sum form. */
  lemma SumFormStep(t0: PlaneTally, s: BodyState, c: Vec, origin: Vec, normal: Vec, com: real)
    requires s.localY == PerpCCW(s.localX) && SumForm(t0, s, normal)
    ensures SumForm(PlaneStep(t0, s, c, origin, normal, com), s, normal)
  {
    var t := PlaneStep(t0, s, c, origin, normal, com);
    if Contributes(s, c, origin, normal, com) {
      var p, k, vn, speed := ToWorld(s, c), t0.count as real, Dot(s.velocity, normal), CornerSpeed(s, c, normal);
      assert t.count as real == k + 1.0 && t.contact == Add(t0.contact, p) && t.contactV == t0.contactV + speed;
      CornerSpeedSplit(s, c, normal);
      SumStep(k, t0.contact, p, s.position, vn, s.rotation, normal, speed);
    }
  }

  /** The summed corner speeds are the speeds of the summed points. */
  lemma {:induction false} ContactSpeedSum(s: BodyState, cs: seq<Vec>, origin: Vec, normal: Vec, com: real)
    requires s.localY == PerpCCW(s.localX)
    ensures SumForm(PlaneTallyOf(s, cs, origin, normal, com), s, normal)
    decreases |cs|
  {
    if cs == [] {
      assert Sub(Zero, Scale(0.0, s.position)) == Zero;
      assert Mul(s.rotation, Cross(Zero, normal)) == 0.0;
    } else {
      ContactSpeedSum(s, cs[..|cs| - 1], origin, normal, com);
      SumFormStep(PlaneTallyOf(s, cs[..|cs| - 1], origin, normal, com), s, cs[|cs| - 1], origin, normal, com);
    }
  }

  /** Averaging: a sum over k points less k centres is k times the offset of the average point. */
  lemma AverageOffset(sum: Vec, k: real, centre: Vec, normal: Vec)
    requires k > 0.0
    ensures Cross(Sub(sum, Scale(k, centre)), normal) == k * Cross(Sub(Div(sum, k), centre), normal)
  {
    var d := Sub(Div(sum, k), centre);
    assert Sub(sum, Scale(k, centre)) == Scale(k, d);
  }

  /** Dividing the sum form by the count. */
  lemma DivideSum(total: real, k: real, vn: real, w: real, arm: real)
    requires k > 0.0 && total == k * vn + Mul(w, k * arm)
    ensures total / k == vn + w * arm
  {
    assert total == k * (vn + w * arm);
  }

  /**
   * The average velocity into the plane is the normal velocity of the average contact point,
   * for any tally in sum form.
   */
  lemma CollisionSpeedAtAverage(t: PlaneTally, s: BodyState, normal: Vec)
    requires t.count > 0 && SumForm(t, s, normal)
    ensures CollisionSpeed(t) == Dot(PointVelocity(s, AverageContact(t)), normal)
  {
    var k := t.count as real;
    var lc := AverageContact(t);
    AverageOffset(t.contact, k, s.position, normal);
    var arm := Cross(Sub(lc, s.position), normal);
    DivideSum(t.contactV, k, Dot(s.velocity, normal), s.rotation, arm);
    PointVelocityAlongNormal(s, lc, normal);
    DotPerpCW(Sub(lc, s.position), normal);
  }

  /** Scaling against the normal twice is one scaling by minus the product. */
  lemma ScaleAgainst(m: real, c: real, normal: Vec)
    ensures Scale(m, Scale(c, Neg(normal))) == Scale(-(m * c), normal)
  {
  }

  /** The effective mass times the compliance along a unit normal is one, so the impulse f gives back f. */
  lemma EffectiveMassCancels(mass: real, moment: real, r: real, f: real, aa: real)
    requires mass > 0.0 && moment > 0.0 && r * r >= 0.0 && aa == 1.0
    ensures -(EffectiveMass(mass, moment, r * r) * f) * (aa / mass + Turning(r, moment)) == -f
  {
    var m0 := EffectiveMass(mass, moment, r * r);
    var x := aa / mass + Turning(r, moment);
    assert x == 1.0 / m0;
    assert m0 * x == 1.0;
    assert -(m0 * f) * x == -f * (m0 * x);
  }

  /**
   * The impulse of Box::CollideWithPlane, applied at the average contact point, changes that
   * point's normal speed by -(1 + e) * collisionV when the normal is a unit vector.
   */
  lemma {:induction false} PlaneImpulseSpeed(s: BodyState, t: PlaneTally, normal: Vec)
    requires Massive(s) && t.count > 0 && Dot(normal, normal) == 1.0
    ensures var lc := AverageContact(t);
      var s1 := AfterForce(s, PlaneImpulse(s, t, normal), lc);
      PointSpeed(s1, normal, Lever(s1, lc, normal))
        == PointSpeed(s, normal, Lever(s, lc, normal)) - (1.0 + s.restitution) * CollisionSpeed(t)
  {
    var lc := AverageContact(t);
    var c := (1.0 + s.restitution) * CollisionSpeed(t);
    var r := Lever(s, lc, normal);
    var m0 := EffectiveMass(s.mass, s.moment, r * r);
    ScaleAgainst(m0, c, normal);
    assert PlaneImpulse(s, t, normal) == Scale(m0, Scale(c, Neg(normal)));
    PointSpeedAfterImpulse(s, -(m0 * c), normal, lc);
    EffectiveMassCancels(s.mass, s.moment, r, c, Dot(normal, normal));
  }

  /**
   * Box against plane obeys the law of restitution at the average contact point: with a unit
   * normal and a proper frame, the point's velocity into the plane after the hit is -restitution
   * times its velocity before (the point moves with the box's positional correction).
   */
  lemma {:induction false} BoxPlaneRestitution(s: BodyState, w: real, h: real, origin: Vec, normal: Vec)
    requires Massive(s) && !s.fixed && Dot(normal, normal) == 1.0 && s.localY == PerpCCW(s.localX)
    requires BoxPlaneTally(s, w, h, origin, normal).count > 0
    ensures var t := BoxPlaneTally(s, w, h, origin, normal);
      var r := BoxPlane(s, w, h, origin, normal);
      var lc := AverageContact(t);
      Dot(PointVelocity(r, Sub(lc, Scale(t.penetration, normal))), normal)
        == -s.restitution * Dot(PointVelocity(s, lc), normal)
  {
    var t := BoxPlaneTally(s, w, h, origin, normal);
    assert BoxPlane(s, w, h, origin, normal) == PlaneResponse(s, t, normal);
    ContactSpeedSum(s, Corners(w, h), origin, normal, DistanceFromPlane(s.position, origin, normal));
    ResponseRestitution(s, t, normal);
  }

  /** The restitution law for the whole response: impulse, then the move back by the penetration. */
  lemma ResponseRestitution(s: BodyState, t: PlaneTally, normal: Vec)
    requires Massive(s) && t.count > 0 && SumForm(t, s, normal) && Dot(normal, normal) == 1.0
    ensures var lc := AverageContact(t);
      Dot(PointVelocity(PlaneResponse(s, t, normal), Sub(lc, Scale(t.penetration, normal))), normal)
        == -s.restitution * Dot(PointVelocity(s, lc), normal)
  {
    var lc := AverageContact(t);
    var s1 := AfterForce(s, PlaneImpulse(s, t, normal), lc);
    ShiftedPointVelocity(s1, PlaneResponse(s, t, normal), lc, Scale(t.penetration, normal));
    TallyRestitution(s, t, normal);
  }

  /**
   * For any tally in sum form, the impulse of a hit with a unit normal turns the normal speed of
   * the average contact point into -restitution times itself.
   */
  lemma TallyRestitution(s: BodyState, t: PlaneTally, normal: Vec)
    requires Massive(s) && t.count > 0 && SumForm(t, s, normal) && Dot(normal, normal) == 1.0
    ensures var lc := AverageContact(t);
      Dot(PointVelocity(AfterForce(s, PlaneImpulse(s, t, normal), lc), lc), normal)
        == -s.restitution * Dot(PointVelocity(s, lc), normal)
  {
    var lc := AverageContact(t);
    var s1 := AfterForce(s, PlaneImpulse(s, t, normal), lc);
    CollisionSpeedAtAverage(t, s, normal);
    PlaneImpulseSpeed(s, t, normal);
    PointVelocityAlongNormal(s, lc, normal);
    PointVelocityAlongNormal(s1, lc, normal);
    var before := Dot(PointVelocity(s, lc), normal);
    var after := Dot(PointVelocity(s1, lc), normal);
    assert after == before - (1.0 + s.restitution) * before;
  }

  /** Moving a body by d moves its velocity field with it: the point moved by d has the old point's velocity. */
  lemma ShiftedPointVelocity(s1: BodyState, r: BodyState, p: Vec, d: Vec)
    requires r == s1.(position := Sub(s1.position, d), hasContact := true)
    ensures PointVelocity(r, Sub(p, d)) == PointVelocity(s1, p)
  {
    assert Sub(Sub(p, d), r.position) == Sub(p, s1.position);
  }

  /** Moving a body along a unit normal shifts the signed distance of each of its corners by the same amount. */
  lemma CornerDistanceShift(s: BodyState, r: BodyState, c: Vec, origin: Vec, normal: Vec, pen: real)
    requires Dot(normal, normal) == 1.0
    requires r.localX == s.localX && r.localY == s.localY && r.position == Sub(s.position, Scale(pen, normal))
    ensures CornerDistance(r, c, origin, normal) == CornerDistance(s, c, origin, normal) - pen
  {
    assert Sub(ToWorld(r, c), origin) == Sub(Sub(ToWorld(s, c), origin), Scale(pen, normal));
  }

  /**
   * The positional correction of a box hitting a plane with a unit normal brings the deepest
   * contributing corner exactly onto the plane and every other contributing corner onto the
   * side of the centre of mass.
   */
  lemma {:induction false} BoxPlaneCorrection(s: BodyState, w: real, h: real, origin: Vec, normal: Vec)
    requires Massive(s) && !s.fixed && Dot(normal, normal) == 1.0
    requires BoxPlaneTally(s, w, h, origin, normal).count > 0
    ensures var com := DistanceFromPlane(s.position, origin, normal);
      var r := BoxPlane(s, w, h, origin, normal);
      var cs := Corners(w, h);
      && (com > 0.0 ==> forall i :: 0 <= i < |cs| && Contributes(s, cs[i], origin, normal, com) ==>
            CornerDistance(r, cs[i], origin, normal) >= 0.0)
      && (com < 0.0 ==> forall i :: 0 <= i < |cs| && Contributes(s, cs[i], origin, normal, com) ==>
            CornerDistance(r, cs[i], origin, normal) <= 0.0)
      && exists i :: 0 <= i < |cs| && Contributes(s, cs[i], origin, normal, com) &&
            CornerDistance(r, cs[i], origin, normal) == 0.0
  {
    var com := DistanceFromPlane(s.position, origin, normal);
    var t := BoxPlaneTally(s, w, h, origin, normal);
    var r := BoxPlane(s, w, h, origin, normal);
    var cs := Corners(w, h);
    PenetrationIsDeepest(s, cs, origin, normal, com);
    assert r.position == Sub(s.position, Scale(t.penetration, normal));
    forall i | 0 <= i < |cs|
      ensures CornerDistance(r, cs[i], origin, normal) == CornerDistance(s, cs[i], origin, normal) - t.penetration
    {
      CornerDistanceShift(s, r, cs[i], origin, normal, t.penetration);
    }
    var j :| 0 <= j < |cs| && Contributes(s, cs[j], origin, normal, com) &&
      t.penetration == CornerDistance(s, cs[j], origin, normal);
    assert CornerDistance(r, cs[j], origin, normal) == 0.0;
  }

  // ---------------------------------------------------------------------------
  // Box against circle (Box::CollideWithCircle)
  // ---------------------------------------------------------------------------

  /** numContacts, the contact sum in box coordinates, and the edge normal chosen so far. */
  datatype CircleTally = CircleTally(count: nat, contact: Vec, direction: Option<Vec>)

  /**
   * A corner is inside the circle: its offset from the circle centre, both measured from the
   * box centre, is shorter than the radius.
   */
  predicate CornerInCircle(s: BodyState, c: Vec, centre: Vec, radius: real)
  {
    var dp := Sub(Add(Scale(c.x, s.localX), Scale(c.y, s.localY)), centre);
    dp.x * dp.x + dp.y * dp.y < radius * radius
  }

  /** The corner test is the point test of the circle at the corner's world position. */
  lemma CornerInCircleIsInside(s: BodyState, c: Vec, circle: Vec, radius: real)
    ensures CornerInCircle(s, c, Sub(circle, s.position), radius)
        <==> CircleContacts.InsideCircle(circle, radius, ToWorld(s, c))
  {
    assert Sub(Add(Scale(c.x, s.localX), Scale(c.y, s.localY)), Sub(circle, s.position))
        == Sub(ToWorld(s, c), circle);
  }

  /** One pass of the corner loop: a corner inside the circle is counted and added to the sum. */
  function CircleStep(t: CircleTally, s: BodyState, c: Vec, centre: Vec, radius: real): CircleTally
  {
    if CornerInCircle(s, c, centre, radius) then CircleTally(t.count + 1, Add(t.contact, c), t.direction) else t
  }

  /** The corner loop: count the corners inside the circle and sum them, in box coordinates. */
  function CornerTally(s: BodyState, cs: seq<Vec>, centre: Vec, radius: real): (t: CircleTally)
    ensures t.count <= |cs| && t.direction == None
    decreases |cs|
  {
    if cs == [] then CircleTally(0, Zero, None)
    else CircleStep(CornerTally(s, cs[..|cs| - 1], centre, radius), s, cs[|cs| - 1], centre, radius)
  }

  /** The corner tally over one more corner counts it exactly when it is inside the circle. */
  lemma CornerTallyStep(s: BodyState, cs: seq<Vec>, k: nat, centre: Vec, radius: real)
    requires k < |cs|
    ensures CornerTally(s, cs[..k + 1], centre, radius) == CircleStep(CornerTally(s, cs[..k], centre, radius), s, cs[k], centre, radius)
  {
    assert cs[..k + 1][..k] == cs[..k];
  }

  /** The circle centre, in box coordinates, is level with the box and within w/2 + radius to the right. */
  predicate EdgeRight(lp: Vec, w2: real, h2: real, radius: real)
  {
    lp.y < h2 && lp.y > -h2 && lp.x > 0.0 && lp.x < w2 + radius
  }

  predicate EdgeLeft(lp: Vec, w2: real, h2: real, radius: real)
  {
    lp.y < h2 && lp.y > -h2 && lp.x < 0.0 && lp.x > -(w2 + radius)
  }

  predicate EdgeTop(lp: Vec, w2: real, h2: real, radius: real)
  {
    lp.x < w2 && lp.x > -w2 && lp.y > 0.0 && lp.y < h2 + radius
  }

  predicate EdgeBottom(lp: Vec, w2: real, h2: real, radius: real)
  {
    lp.x < w2 && lp.x > -w2 && lp.y < 0.0 && lp.y > -(h2 + radius)
  }

  /** One edge test: a hit adds the edge point and overwrites the direction. */
  function AddEdge(t: CircleTally, hit: bool, point: Vec, direction: Vec): CircleTally
  {
    if hit then CircleTally(t.count + 1, Add(t.contact, point), Some(direction)) else t
  }

  /** The four edge tests in the source's order: +x, -x, +y, -y. */
  function EdgeTally(t: CircleTally, lp: Vec, w2: real, h2: real, radius: real, lx: Vec, ly: Vec): CircleTally
  {
    var t1 := AddEdge(t, EdgeRight(lp, w2, h2, radius), Vec(w2, lp.y), lx);
    var t2 := AddEdge(t1, EdgeLeft(lp, w2, h2, radius), Vec(-w2, lp.y), Neg(lx));
    var t3 := AddEdge(t2, EdgeTop(lp, w2, h2, radius), Vec(lp.x, h2), ly);
    AddEdge(t3, EdgeBottom(lp, w2, h2, radius), Vec(lp.x, -h2), Neg(ly))
  }

  /**
   * At most one edge per axis fires; a y edge, tested later, overrides an x edge; with no edge
   * the direction is left as it was.
   */
  lemma EdgeDirection(t: CircleTally, lp: Vec, w2: real, h2: real, radius: real, lx: Vec, ly: Vec)
    ensures !(EdgeRight(lp, w2, h2, radius) && EdgeLeft(lp, w2, h2, radius))
    ensures !(EdgeTop(lp, w2, h2, radius) && EdgeBottom(lp, w2, h2, radius))
    ensures var e := EdgeTally(t, lp, w2, h2, radius, lx, ly);
      var xEdge := EdgeRight(lp, w2, h2, radius) || EdgeLeft(lp, w2, h2, radius);
      var yEdge := EdgeTop(lp, w2, h2, radius) || EdgeBottom(lp, w2, h2, radius);
      && e.count == t.count + (if xEdge then 1 else 0) + (if yEdge then 1 else 0)
      && (EdgeTop(lp, w2, h2, radius) ==> e.direction == Some(ly))
      && (EdgeBottom(lp, w2, h2, radius) ==> e.direction == Some(Neg(ly)))
      && (!yEdge && EdgeRight(lp, w2, h2, radius) ==> e.direction == Some(lx))
      && (!yEdge && EdgeLeft(lp, w2, h2, radius) ==> e.direction == Some(Neg(lx)))
      && (!xEdge && !yEdge ==> e == t)
  {
  }

  /** localPos: the circle centre in box coordinates. */
  function CircleInBox(s: BodyState, centre: Vec): Vec
  {
    Vec(Dot(s.localX, centre), Dot(s.localY, centre))
  }

  /** The full tally of Box::CollideWithCircle: corners first, then edges. */
  function BoxCircleTally(s: BodyState, w: real, h: real, circle: Vec, radius: real): CircleTally
  {
    var centre := Sub(circle, s.position);
    EdgeTally(CornerTally(s, Corners(w, h), centre, radius), CircleInBox(s, centre), w / 2.0, h / 2.0, radius,
              s.localX, s.localY)
  }

  /** The averaged contact, converted back into world coordinates. */
  function BoxCircleContact(s: BodyState, t: CircleTally): Vec
    requires t.count > 0
  {
    Add(s.position, Scale(1.0 / (t.count as real), Add(Scale(t.contact.x, s.localX), Scale(t.contact.y, s.localY))))
  }

  /** The contact is the world position of the average of the contact points in box coordinates. */
  lemma BoxCircleContactIsAverage(s: BodyState, t: CircleTally)
    requires t.count > 0
    ensures BoxCircleContact(s, t) == ToWorld(s, Div(t.contact, t.count as real))
  {
    var k := t.count as real;
    var q := Div(t.contact, k);
    assert q.x == (1.0 / k) * t.contact.x && q.y == (1.0 / k) * t.contact.y;
  }

  /** Box::CollideWithCircle: resolve at the averaged contact, along the chosen edge normal if any. */
  function BoxCircle(s: BodyState, w: real, h: real, c: BodyState, radius: real): (r: (BodyState, BodyState))
    requires Massive(s) && Massive(c)
    ensures BoxCircleTally(s, w, h, c.position, radius).count == 0 ==> r == (s, c)
    ensures r.0.position == s.position && r.1.position == c.position
    ensures SameConstitution(s, r.0) && SameConstitution(c, r.1)
  {
    var t := BoxCircleTally(s, w, h, c.position, radius);
    if t.count > 0 then Resolved(s, c, BoxCircleContact(s, t), t.direction) else (s, c)
  }

  /**
   * For a circle that does not spin, BoxCircle is exactly Box::CollideWithCircle as written: the
   * source's resolver and the corrected one differ only through the second body's spin.
   */
  lemma BoxCircleAsWritten(s: BodyState, w: real, h: real, c: BodyState, radius: real)
    requires Massive(s) && Massive(c) && c.rotation == 0.0
    ensures var t := BoxCircleTally(s, w, h, c.position, radius);
      BoxCircle(s, w, h, c, radius)
        == if t.count > 0 then ResolvedAsWritten(s, c, BoxCircleContact(s, t), t.direction) else (s, c)
  {
    var t := BoxCircleTally(s, w, h, c.position, radius);
    if t.count > 0 {
      AsWrittenAgreesWithoutSecondSpin(s, c, BoxCircleContact(s, t), t.direction);
    }
  }

  /** At most four corners and two edges contribute. */
  lemma BoxCircleAtMostSix(s: BodyState, w: real, h: real, circle: Vec, radius: real)
    ensures BoxCircleTally(s, w, h, circle, radius).count <= 6
  {
    var centre := Sub(circle, s.position);
    var t := CornerTally(s, Corners(w, h), centre, radius);
    CornersAtMostFour(w, h);
    EdgeDirection(t, CircleInBox(s, centre), w / 2.0, h / 2.0, radius, s.localX, s.localY);
  }

  /**
   * The direction handed to the resolver is one of the box's four edge normals, or none, in
   * which case the resolver falls back to the line of centres.
   */
  lemma BoxCircleDirection(s: BodyState, w: real, h: real, circle: Vec, radius: real)
    ensures var d := BoxCircleTally(s, w, h, circle, radius).direction;
      d == None || d == Some(s.localX) || d == Some(Neg(s.localX)) || d == Some(s.localY) || d == Some(Neg(s.localY))
  {
    var centre := Sub(circle, s.position);
    var t := CornerTally(s, Corners(w, h), centre, radius);
    EdgeDirection(t, CircleInBox(s, centre), w / 2.0, h / 2.0, radius, s.localX, s.localY);
  }

  /** A box-circle collision conserves linear and angular momentum. */
  lemma BoxCircleConserves(s: BodyState, w: real, h: real, c: BodyState, radius: real)
    requires Massive(s) && Massive(c)
    ensures var r := BoxCircle(s, w, h, c, radius);
      && Momentum(r.0, r.1) == Momentum(s, c)
      && AngularMomentum(r.0) + AngularMomentum(r.1) == AngularMomentum(s) + AngularMomentum(c)
  {
    var t := BoxCircleTally(s, w, h, c.position, radius);
    if t.count > 0 {
      ResolvedConserves(s, c, BoxCircleContact(s, t), t.direction);
    }
  }

  // ---------------------------------------------------------------------------
  // The separating-axis test (Box::CheckOverlap) and box against box
  // ---------------------------------------------------------------------------

  /** FLT_MAX, the running overlap Box::CollideWithBox starts from. */
  const FltMax: real := 340282346638528859811704183484516925440.0

  /** A corner of box b, given in b's coordinates, in the coordinates of box a. */
  function CornerIn(a: BodyState, b: BodyState, c: Vec): Vec
  {
    ToLocal(a, ToWorld(b, c))
  }

  /** The extents of the other box's corners in this box's coordinates, with the world corner attaining each. */
  datatype Extents = Extents(xmin: real, xmax: real, ymin: real, ymax: real,
                             xminPos: Vec, xmaxPos: Vec, yminPos: Vec, ymaxPos: Vec)

  /** The first corner sets all four extents. */
  function FirstExtents(p0: Vec, p: Vec): Extents
  {
    Extents(p0.x, p0.x, p0.y, p0.y, p, p, p, p)
  }

  /** A later corner replaces an extent only when it lies strictly beyond it. */
  function Extend(e: Extents, p0: Vec, p: Vec): Extents
  {
    Extents(if p0.x < e.xmin then p0.x else e.xmin,
            if p0.x > e.xmax then p0.x else e.xmax,
            if p0.y < e.ymin then p0.y else e.ymin,
            if p0.y > e.ymax then p0.y else e.ymax,
            if p0.x < e.xmin then p else e.xminPos,
            if p0.x > e.xmax then p else e.xmaxPos,
            if p0.y < e.ymin then p else e.yminPos,
            if p0.y > e.ymax then p else e.ymaxPos)
  }

  /** The extents after the loop over the corners cs of box b. */
  function ExtentsOf(a: BodyState, b: BodyState, cs: seq<Vec>): (e: Extents)
    requires |cs| > 0
    ensures e.xmin <= e.xmax && e.ymin <= e.ymax
    decreases |cs|
  {
    var c := cs[|cs| - 1];
    if |cs| == 1 then FirstExtents(CornerIn(a, b, c), ToWorld(b, c))
    else Extend(ExtentsOf(a, b, cs[..|cs| - 1]), CornerIn(a, b, c), ToWorld(b, c))
  }

  /** The extents over one more corner: the first sets them, a later one extends them. */
  lemma ExtentsOfStep(a: BodyState, b: BodyState, cs: seq<Vec>, k: nat)
    requires k < |cs|
    ensures k == 0 ==> ExtentsOf(a, b, cs[..k + 1]) == FirstExtents(CornerIn(a, b, cs[k]), ToWorld(b, cs[k]))
    ensures k > 0 ==>
      ExtentsOf(a, b, cs[..k + 1]) == Extend(ExtentsOf(a, b, cs[..k]), CornerIn(a, b, cs[k]), ToWorld(b, cs[k]))
  {
    assert cs[..k + 1][..k] == cs[..k];
  }

  /** Every corner lies within the extents. */
  lemma {:induction false} ExtentsBound(a: BodyState, b: BodyState, cs: seq<Vec>)
    requires |cs| > 0
    ensures var e := ExtentsOf(a, b, cs);
      forall i :: 0 <= i < |cs| ==>
        && e.xmin <= CornerIn(a, b, cs[i]).x <= e.xmax
        && e.ymin <= CornerIn(a, b, cs[i]).y <= e.ymax
    decreases |cs|
  {
    if |cs| > 1 {
      var init := cs[..|cs| - 1];
      ExtentsBound(a, b, init);
      assert forall i :: 0 <= i < |init| ==> init[i] == cs[i];
    }
  }

  /** The extents by number: 0 xmin, 1 xmax, 2 ymin, 3 ymax. */
  function Extent(e: Extents, k: nat): real
    requires k < 4
  {
    if k == 0 then e.xmin else if k == 1 then e.xmax else if k == 2 then e.ymin else e.ymax
  }

  function ExtentPos(e: Extents, k: nat): Vec
    requires k < 4
  {
    if k == 0 then e.xminPos else if k == 1 then e.xmaxPos else if k == 2 then e.yminPos else e.ymaxPos
  }

  /** The coordinate extent k measures. */
  function Coord(p0: Vec, k: nat): real
  {
    if k < 2 then p0.x else p0.y
  }

  /** v lies strictly beyond the extent value x: below it for a minimum, above it for a maximum. */
  predicate Beyond(k: nat, v: real, x: real)
  {
    if k % 2 == 0 then v < x else v > x
  }

  /** Extending by one corner, extent by extent. */
  lemma ExtendSelect(e: Extents, p0: Vec, p: Vec, k: nat)
    requires k < 4
    ensures var v := Coord(p0, k);
      && Extent(Extend(e, p0, p), k) == (if Beyond(k, v, Extent(e, k)) then v else Extent(e, k))
      && ExtentPos(Extend(e, p0, p), k) == (if Beyond(k, v, Extent(e, k)) then p else ExtentPos(e, k))
  {
  }

  /** No corner lies beyond an extent. */
  lemma ExtentNotExceeded(a: BodyState, b: BodyState, cs: seq<Vec>, k: nat)
    requires |cs| > 0 && k < 4
    ensures forall i :: 0 <= i < |cs| ==> !Beyond(k, Coord(CornerIn(a, b, cs[i]), k), Extent(ExtentsOf(a, b, cs), k))
  {
    ExtentsBound(a, b, cs);
  }

  /**
   * Each extent is attained by the earliest corner reaching it (a later tie does not replace
   * it), and the recorded position is that corner in world coordinates.
   */
  lemma {:induction false} ExtentsAttained(a: BodyState, b: BodyState, cs: seq<Vec>, k: nat)
    requires |cs| > 0 && k < 4
    ensures var e := ExtentsOf(a, b, cs);
      exists j :: 0 <= j < |cs| && ExtentPos(e, k) == ToWorld(b, cs[j]) && Coord(CornerIn(a, b, cs[j]), k) == Extent(e, k) &&
        forall i :: 0 <= i < j ==> Beyond(k, Extent(e, k), Coord(CornerIn(a, b, cs[i]), k))
    decreases |cs|
  {
    var e := ExtentsOf(a, b, cs);
    var last := |cs| - 1;
    if |cs| == 1 {
      assert ExtentPos(e, k) == ToWorld(b, cs[0]) && Coord(CornerIn(a, b, cs[0]), k) == Extent(e, k);
    } else {
      var init := cs[..last];
      ExtentsAttained(a, b, init, k);
      var e0 := ExtentsOf(a, b, init);
      var v := Coord(CornerIn(a, b, cs[last]), k);
      assert e == Extend(e0, CornerIn(a, b, cs[last]), ToWorld(b, cs[last]));
      ExtendSelect(e0, CornerIn(a, b, cs[last]), ToWorld(b, cs[last]), k);
      var j0 :| 0 <= j0 < |init| && ExtentPos(e0, k) == ToWorld(b, init[j0]) &&
        Coord(CornerIn(a, b, init[j0]), k) == Extent(e0, k) &&
        forall i :: 0 <= i < j0 ==> Beyond(k, Extent(e0, k), Coord(CornerIn(a, b, init[i]), k));
      if Beyond(k, v, Extent(e0, k)) {
        ExtentNotExceeded(a, b, init, k);
        forall i | 0 <= i < last
          ensures Beyond(k, Extent(e, k), Coord(CornerIn(a, b, cs[i]), k))
        {
          assert cs[i] == init[i];
        }
      } else {
        assert cs[j0] == init[j0];
        forall i | 0 <= i < j0
          ensures Beyond(k, Extent(e, k), Coord(CornerIn(a, b, cs[i]), k))
        {
          assert cs[i] == init[i];
        }
      }
    }
  }

  /** What CheckOverlap returns and writes to its out-parameters overlap, contact and normal. */
  datatype OverlapResult = OverlapResult(hit: bool, overlap: real, contact: Vec, normal: Vec)

  /** A candidate axis replaces the running one only with a strictly smaller overlap. */
  function Candidate(r: OverlapResult, overlap: real, contact: Vec, normal: Vec): OverlapResult
  {
    if overlap < r.overlap then OverlapResult(r.hit, overlap, contact, normal) else r
  }

  /** The four candidate overlaps, against -x, +x, -y and +y of box a. */
  function Overlaps(e: Extents, w2: real, h2: real): (real, real, real, real)
  {
    (e.xmax - -w2, w2 - e.xmin, e.ymax - -h2, h2 - e.ymin)
  }

  /** One of the four extent tests finds a separating axis. */
  predicate Separated(e: Extents, w2: real, h2: real)
  {
    e.xmax < -w2 || e.xmin > w2 || e.ymax < -h2 || e.ymin > h2
  }

  /**
   * Box::CheckOverlap of box a (width w, height h) against box b: test a's four edges in turn,
   * returning false at the first that separates; each edge that does not separate offers its
   * overlap. The out-parameters keep whatever the tests before a false return wrote.
   */
  function CheckOverlap(a: BodyState, w: real, h: real, b: BodyState, bw: real, bh: real,
                        overlap: real, contact: Vec, normal: Vec): (r: OverlapResult)
    requires bw > 0.0 && bh > 0.0
    // the running overlap never grows, and contact and normal change only with a smaller overlap
    ensures r.overlap <= overlap
    ensures r.overlap == overlap ==> r.contact == contact && r.normal == normal
  {
    var e := ExtentsOf(a, b, Corners(bw, bh));
    var w2, h2 := w / 2.0, h / 2.0;
    var r0 := OverlapResult(true, overlap, contact, normal);
    if e.xmax < -w2 then r0.(hit := false)
    else
      var r1 := Candidate(r0, e.xmax - -w2, e.xmaxPos, Neg(a.localX));
      if e.xmin > w2 then r1.(hit := false)
      else
        var r2 := Candidate(r1, w2 - e.xmin, e.xminPos, a.localX);
        if e.ymax < -h2 then r2.(hit := false)
        else
          var r3 := Candidate(r2, e.ymax - -h2, e.ymaxPos, Neg(a.localY));
          if e.ymin > h2 then r3.(hit := false)
          else Candidate(r3, h2 - e.ymin, e.yminPos, a.localY)
  }

  /** The extents of b's corners in a's coordinates, as CheckOverlap computes them. */
  function ExtentsIn(a: BodyState, b: BodyState, bw: real, bh: real): Extents
    requires bw > 0.0 && bh > 0.0
  {
    ExtentsOf(a, b, Corners(bw, bh))
  }

  /** CheckOverlap returns false exactly when one of the four extent tests separates the boxes. */
  lemma OverlapExits(a: BodyState, w: real, h: real, b: BodyState, bw: real, bh: real,
                     overlap: real, contact: Vec, normal: Vec)
    requires bw > 0.0 && bh > 0.0
    ensures CheckOverlap(a, w, h, b, bw, bh, overlap, contact, normal).hit
        <==> !Separated(ExtentsIn(a, b, bw, bh), w / 2.0, h / 2.0)
  {
  }

  /**
   * On a true result the overlap is the least of the incoming one and the four candidates, and
   * the contact and normal belong to the first candidate, in the order -x, +x, -y, +y, that is
   * strictly below the incoming overlap and not beaten by an earlier one; when none is, the
   * incoming contact and normal stay.
   */
  lemma OverlapMinimum(a: BodyState, w: real, h: real, b: BodyState, bw: real, bh: real,
                       overlap: real, contact: Vec, normal: Vec)
    requires bw > 0.0 && bh > 0.0
    ensures var r := CheckOverlap(a, w, h, b, bw, bh, overlap, contact, normal);
      var e := ExtentsIn(a, b, bw, bh);
      var (o0, o1, o2, o3) := Overlaps(e, w / 2.0, h / 2.0);
      r.hit ==>
        && r.overlap <= overlap && r.overlap <= o0 && r.overlap <= o1 && r.overlap <= o2 && r.overlap <= o3
        && (overlap <= o0 && overlap <= o1 && overlap <= o2 && overlap <= o3 ==>
              r.overlap == overlap && r.contact == contact && r.normal == normal)
        && (o0 < overlap && o0 <= o1 && o0 <= o2 && o0 <= o3 ==>
              r.overlap == o0 && r.contact == e.xmaxPos && r.normal == Neg(a.localX))
        && (o1 < overlap && o1 < o0 && o1 <= o2 && o1 <= o3 ==>
              r.overlap == o1 && r.contact == e.xminPos && r.normal == a.localX)
        && (o2 < overlap && o2 < o0 && o2 < o1 && o2 <= o3 ==>
              r.overlap == o2 && r.contact == e.ymaxPos && r.normal == Neg(a.localY))
        && (o3 < overlap && o3 < o0 && o3 < o1 && o3 < o2 ==>
              r.overlap == o3 && r.contact == e.yminPos && r.normal == a.localY)
  {
  }

  /** All of b's corners lie strictly beyond one of a's four edges. */
  predicate CornersBeyondAnEdge(a: BodyState, b: BodyState, cs: seq<Vec>, w2: real, h2: real)
  {
    || (forall i :: 0 <= i < |cs| ==> CornerIn(a, b, cs[i]).x < -w2)
    || (forall i :: 0 <= i < |cs| ==> CornerIn(a, b, cs[i]).x > w2)
    || (forall i :: 0 <= i < |cs| ==> CornerIn(a, b, cs[i]).y < -h2)
    || (forall i :: 0 <= i < |cs| ==> CornerIn(a, b, cs[i]).y > h2)
  }

  /** The extent tests separate exactly when all of the other box's corners lie beyond one edge. */
  lemma SeparatedMeansBeyond(a: BodyState, b: BodyState, cs: seq<Vec>, w2: real, h2: real)
    requires |cs| > 0
    ensures Separated(ExtentsOf(a, b, cs), w2, h2) <==> CornersBeyondAnEdge(a, b, cs, w2, h2)
  {
    var e := ExtentsOf(a, b, cs);
    ExtentsBound(a, b, cs);
    ExtentsAttained(a, b, cs, 0);
    ExtentsAttained(a, b, cs, 1);
    ExtentsAttained(a, b, cs, 2);
    ExtentsAttained(a, b, cs, 3);
  }

  /**
   * The overlap Box::CollideWithBox shares between its two CheckOverlap calls: starting from
   * FLT_MAX, this box tests the other, and only if that finds overlap the other tests this one.
   * The contact and normal start as glm's zero vectors.
   */
  function SharedOverlap(a: BodyState, wa: real, ha: real, b: BodyState, wb: real, hb: real): OverlapResult
    requires wa > 0.0 && ha > 0.0 && wb > 0.0 && hb > 0.0
  {
    var r1 := CheckOverlap(a, wa, ha, b, wb, hb, FltMax, Zero, Zero);
    if r1.hit then CheckOverlap(b, wb, hb, a, wa, ha, r1.overlap, r1.contact, r1.normal) else r1
  }

  /** Box::CollideWithBox: resolve only when both boxes find overlap, at the shared contact and normal. */
  function BoxBox(a: BodyState, wa: real, ha: real, b: BodyState, wb: real, hb: real): (r: (BodyState, BodyState))
    requires Massive(a) && Massive(b) && wa > 0.0 && ha > 0.0 && wb > 0.0 && hb > 0.0
    ensures !SharedOverlap(a, wa, ha, b, wb, hb).hit ==> r == (a, b)
    ensures r.0.position == a.position && r.1.position == b.position
    ensures SameConstitution(a, r.0) && SameConstitution(b, r.1)
  {
    var o := SharedOverlap(a, wa, ha, b, wb, hb);
    if o.hit then Resolved(a, b, o.contact, Some(o.normal)) else (a, b)
  }

  /**
   * When the second box does not spin, BoxBox is exactly Box::CollideWithBox as written, with the
   * source's resolver.
   */
  lemma BoxBoxAsWritten(a: BodyState, wa: real, ha: real, b: BodyState, wb: real, hb: real)
    requires Massive(a) && Massive(b) && wa > 0.0 && ha > 0.0 && wb > 0.0 && hb > 0.0 && b.rotation == 0.0
    ensures var o := SharedOverlap(a, wa, ha, b, wb, hb);
      BoxBox(a, wa, ha, b, wb, hb) == if o.hit then ResolvedAsWritten(a, b, o.contact, Some(o.normal)) else (a, b)
  {
    var o := SharedOverlap(a, wa, ha, b, wb, hb);
    if o.hit {
      AsWrittenAgreesWithoutSecondSpin(a, b, o.contact, Some(o.normal));
    }
  }

  /**
   * The separating-axis theorem as the source applies it: the boxes are resolved exactly when
   * neither has all of the other's corners beyond one of its edges.
   */
  lemma BoxBoxSeparation(a: BodyState, wa: real, ha: real, b: BodyState, wb: real, hb: real)
    requires wa > 0.0 && ha > 0.0 && wb > 0.0 && hb > 0.0
    ensures SharedOverlap(a, wa, ha, b, wb, hb).hit <==>
      !CornersBeyondAnEdge(a, b, Corners(wb, hb), wa / 2.0, ha / 2.0) &&
      !CornersBeyondAnEdge(b, a, Corners(wa, ha), wb / 2.0, hb / 2.0)
  {
    var r1 := CheckOverlap(a, wa, ha, b, wb, hb, FltMax, Zero, Zero);
    OverlapExits(a, wa, ha, b, wb, hb, FltMax, Zero, Zero);
    OverlapExits(b, wb, hb, a, wa, ha, r1.overlap, r1.contact, r1.normal);
    SeparatedMeansBeyond(a, b, Corners(wb, hb), wa / 2.0, ha / 2.0);
    SeparatedMeansBeyond(b, a, Corners(wa, ha), wb / 2.0, hb / 2.0);
  }

  /**
   * When both boxes find overlap, the shared overlap is the least of FLT_MAX and all eight
   * candidates, four against each box's edges.
   */
  lemma SharedOverlapMinimum(a: BodyState, wa: real, ha: real, b: BodyState, wb: real, hb: real)
    requires wa > 0.0 && ha > 0.0 && wb > 0.0 && hb > 0.0
    ensures var o := SharedOverlap(a, wa, ha, b, wb, hb);
      var (p0, p1, p2, p3) := Overlaps(ExtentsIn(a, b, wb, hb), wa / 2.0, ha / 2.0);
      var (q0, q1, q2, q3) := Overlaps(ExtentsIn(b, a, wa, ha), wb / 2.0, hb / 2.0);
      o.hit ==>
        && o.overlap <= FltMax
        && o.overlap <= p0 && o.overlap <= p1 && o.overlap <= p2 && o.overlap <= p3
        && o.overlap <= q0 && o.overlap <= q1 && o.overlap <= q2 && o.overlap <= q3
        && (o.overlap == FltMax || o.overlap == p0 || o.overlap == p1 || o.overlap == p2 || o.overlap == p3 ||
            o.overlap == q0 || o.overlap == q1 || o.overlap == q2 || o.overlap == q3)
  {
    var r1 := CheckOverlap(a, wa, ha, b, wb, hb, FltMax, Zero, Zero);
    OverlapMinimum(a, wa, ha, b, wb, hb, FltMax, Zero, Zero);
    OverlapMinimum(b, wb, hb, a, wa, ha, r1.overlap, r1.contact, r1.normal);
  }

  /**
   * The normal handed to the resolver is one of the eight edge normals of the two boxes, or
   * the initial zero vector when no candidate fell below FLT_MAX.
   */
  lemma SharedOverlapNormal(a: BodyState, wa: real, ha: real, b: BodyState, wb: real, hb: real)
    requires wa > 0.0 && ha > 0.0 && wb > 0.0 && hb > 0.0
    ensures var o := SharedOverlap(a, wa, ha, b, wb, hb);
      o.hit ==>
        || o.normal == Neg(a.localX) || o.normal == a.localX || o.normal == Neg(a.localY) || o.normal == a.localY
        || o.normal == Neg(b.localX) || o.normal == b.localX || o.normal == Neg(b.localY) || o.normal == b.localY
        || (o.normal == Zero && o.overlap == FltMax)
  {
    var r1 := CheckOverlap(a, wa, ha, b, wb, hb, FltMax, Zero, Zero);
    OverlapMinimum(a, wa, ha, b, wb, hb, FltMax, Zero, Zero);
    OverlapMinimum(b, wb, hb, a, wa, ha, r1.overlap, r1.contact, r1.normal);
  }

  /** A box-box collision conserves linear and angular momentum. */
  lemma BoxBoxConserves(a: BodyState, wa: real, ha: real, b: BodyState, wb: real, hb: real)
    requires Massive(a) && Massive(b) && wa > 0.0 && ha > 0.0 && wb > 0.0 && hb > 0.0
    ensures var r := BoxBox(a, wa, ha, b, wb, hb);
      && Momentum(r.0, r.1) == Momentum(a, b)
      && AngularMomentum(r.0) + AngularMomentum(r.1) == AngularMomentum(a) + AngularMomentum(b)
  {
    var o := SharedOverlap(a, wa, ha, b, wb, hb);
    if o.hit {
      ResolvedConserves(a, b, o.contact, Some(o.normal));
    }
  }

  // ---------------------------------------------------------------------------
  // Box::IsInside
  // ---------------------------------------------------------------------------

  /** The point, in box coordinates, is strictly within half the width and half the height. */
  predicate InsideBox(s: BodyState, w: real, h: real, p: Vec): (r: bool)
    // no point is inside a box without area, and the centre is inside any box of positive size
    ensures r ==> w > 0.0 && h > 0.0
    ensures p == s.position ==> (r <==> w > 0.0 && h > 0.0)
  {
    var q := ToLocal(s, p);
    Abs(q.x) < w * 0.5 && Abs(q.y) < h * 0.5
  }

  /** For an orthonormal frame: a point given in box coordinates is inside exactly when it is within the half extents. */
  lemma InsideBoxLocal(s: BodyState, w: real, h: real, q: Vec)
    requires Orthonormal(s.localX, s.localY)
    ensures InsideBox(s, w, h, ToWorld(s, q)) <==> Abs(q.x) < w / 2.0 && Abs(q.y) < h / 2.0
  {
    WorldLocalRoundTrip(s, q, q);
  }

  /** The test is strict: no corner of the box is inside it. */
  lemma CornersNotInside(s: BodyState, w: real, h: real)
    requires Orthonormal(s.localX, s.localY)
    ensures forall i :: 0 <= i < |Corners(w, h)| ==> !InsideBox(s, w, h, ToWorld(s, Corners(w, h)[i]))
  {
    forall i | 0 <= i < |Corners(w, h)|
      ensures !InsideBox(s, w, h, ToWorld(s, Corners(w, h)[i]))
    {
      InsideBoxLocal(s, w, h, Corners(w, h)[i]);
    }
  }
}
